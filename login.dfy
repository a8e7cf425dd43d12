/** The checks `generate_token` runs on a login request before it asks the upstream library for a
    client: the maintenance switch, a present body, base64 decoding for version 2, and the keys each
    login method needs. */
module Login {
  import opened Text

  datatype LoginMethod = UrlLogin | QrCodeLogin | TokenLogin

  datatype Version = Version1 | Version2

  datatype LoginError =
    | Maintenance
    | MissingBody
    | InvalidBase64
    | MissingKey(key: string)
    | CheckCodeLength(length: nat)
    | Upstream(message: string)
    | LoginFailed

  /** The request body: a JSON object of string values. */
  type Body = map<string, string>

  /** A body that passed the checks, and whether the URL login goes without an ENT (`noENT`). */
  datatype Admitted = Admitted(body: Body, noEnt: bool)

  /** The key tuple each login method's loop walks, in order. */
  function RequiredKeys(m: LoginMethod): seq<string> {
    match m
    case UrlLogin => ["url", "username", "password", "ent"]
    case QrCodeLogin => ["url", "qrToken", "login", "checkCode", "uuid"]
    case TokenLogin => ["url", "username", "password", "uuid"]
  }

  /** Whether one key of the loop stops it: a missing key (the URL login lets `ent` be missing),
      or, for the QR-code login, a `checkCode` that is not four characters long. */
  predicate KeyFails(body: Body, m: LoginMethod, k: string) {
    || (k !in body && !(m == UrlLogin && k == "ent"))
    || (m == QrCodeLogin && k == "checkCode" && k in body && |body[k]| != 4)
  }

  function KeyError(body: Body, k: string): LoginError {
    if k in body then CheckCodeLength(|body[k]|) else MissingKey(k)
  }

  /** The loop over the key tuple: the first key that fails decides the error. */
  function CheckKeys(body: Body, m: LoginMethod, keys: seq<string>): (r: Option<LoginError>)
    ensures r.None? <==> forall i :: 0 <= i < |keys| ==> !KeyFails(body, m, keys[i])
    ensures r.Some? ==> exists i :: 0 <= i < |keys| && KeyFails(body, m, keys[i]) && r.value == KeyError(body, keys[i])
                                    && forall j :: 0 <= j < i ==> !KeyFails(body, m, keys[j])
  {
    if keys == [] then None
    else if KeyFails(body, m, keys[0]) then Some(KeyError(body, keys[0]))
    else
      var r := CheckKeys(body, m, keys[1..]);
      assert forall i :: 1 <= i < |keys| ==> keys[i] == keys[1..][i - 1];
      r
  }

  /** Version 2 sends url, username, password (and ent, when present) in base64; any of the first
      three missing, or any value that does not decode, is the same error (None here). The other
      keys are left as they are. `decode` is the library's base64-then-UTF-8 decoding. */
  function DecodeVersion2(body: Body, decode: string -> Option<string>): (r: Option<Body>)
    ensures r.Some? <==> && "url" in body && "username" in body && "password" in body
                         && decode(body["url"]).Some? && decode(body["username"]).Some?
                         && decode(body["password"]).Some?
                         && ("ent" in body ==> decode(body["ent"]).Some?)
    ensures r.Some? ==> r.value.Keys == body.Keys
    ensures r.Some? ==> forall k :: k in body && k in {"url", "username", "password", "ent"} ==> r.value[k] == decode(body[k]).value
    ensures r.Some? ==> forall k :: k in body && k !in {"url", "username", "password", "ent"} ==> r.value[k] == body[k]
  {
    if "url" !in body || "username" !in body || "password" !in body then None
    else
      var url := decode(body["url"]);
      var username := decode(body["username"]);
      var password := decode(body["password"]);
      if url.None? || username.None? || password.None? then None
      else
        var decoded := body["url" := url.value]["username" := username.value]["password" := password.value];
        if "ent" !in body then Some(decoded)
        else
          var ent := decode(body["ent"]);
          if ent.None? then None else Some(decoded["ent" := ent.value])
  }

  /** Everything `generate_token` checks before it connects, in the order it checks it. */
  function Admit(maintenance: bool, body: Option<Body>, m: LoginMethod, version: Version,
                 decode: string -> Option<string>): Result<Admitted, LoginError>
  {
    if maintenance then Failure(Maintenance)
    else match body
      case None => Failure(MissingBody)
      case Some(raw) =>
        var decoded := if version == Version2 then DecodeVersion2(raw, decode) else Some(raw);
        match decoded
        case None => Failure(InvalidBase64)
        case Some(b) =>
          match CheckKeys(b, m, RequiredKeys(m))
          case Some(e) => Failure(e)
          case None => Success(Admitted(b, m == UrlLogin && "ent" !in b))
  }

  /** The maintenance switch wins over everything else in the request. */
  lemma MaintenanceRefusesLogin(body: Option<Body>, m: LoginMethod, version: Version, decode: string -> Option<string>)
    ensures Admit(true, body, m, version, decode) == Failure(Maintenance)
  {
  }

  /** The body has every key of its method (`ent` is optional for the URL login) and, for the
      QR-code login, a four-character `checkCode`. */
  predicate HasRequiredKeys(body: Body, m: LoginMethod) {
    && (forall k :: k in RequiredKeys(m) && k != "ent" ==> k in body)
    && (m == QrCodeLogin ==> "checkCode" in body && |body["checkCode"]| == 4)
  }

  /** The key loop passes exactly on a body that has the method's keys. */
  lemma KeysPassIff(body: Body, m: LoginMethod)
    ensures CheckKeys(body, m, RequiredKeys(m)).None? <==> HasRequiredKeys(body, m)
  {
    var keys := RequiredKeys(m);
    if m == QrCodeLogin {
      assert keys[3] == "checkCode";
    }
    forall k | k in keys
      ensures exists i :: 0 <= i < |keys| && keys[i] == k
    {
    }
  }

  /** A version 1 body is admitted exactly when it has every key of its method (`ent` is optional
      for the URL login) and, for the QR-code login, a four-character `checkCode`. */
  lemma AdmittedIff(body: Body, m: LoginMethod, decode: string -> Option<string>)
    ensures Admit(false, Some(body), m, Version1, decode).Success? <==> HasRequiredKeys(body, m)
  {
    KeysPassIff(body, m);
  }

  /** A version 2 body is admitted exactly when url, username, password (and ent, when present) all
      decode and the body has its method's keys; decoding keeps the keys and leaves `checkCode` as
      it was, so the key conditions read on the body as sent. */
  lemma AdmittedIffVersion2(body: Body, m: LoginMethod, decode: string -> Option<string>)
    ensures Admit(false, Some(body), m, Version2, decode).Success?
        <==> DecodeVersion2(body, decode).Some? && HasRequiredKeys(body, m)
  {
    var d := DecodeVersion2(body, decode);
    if d.Some? {
      KeysPassIff(d.value, m);
      assert "checkCode" in body ==> d.value["checkCode"] == body["checkCode"];
      assert HasRequiredKeys(d.value, m) <==> HasRequiredKeys(body, m);
    }
  }

  /** The URL login runs without an ENT exactly when the body has no `ent` key. */
  lemma UrlLoginWithoutEnt(body: Body, version: Version, decode: string -> Option<string>)
    requires Admit(false, Some(body), UrlLogin, version, decode).Success?
    ensures Admit(false, Some(body), UrlLogin, version, decode).value.noEnt
        <==> "ent" !in body
  {
    if version == Version2 {
      var d := DecodeVersion2(body, decode);
      assert d.Some? && d.value.Keys == body.Keys;
    }
  }

  /** Keys are checked in the tuple's order: a QR-code body that lacks `qrToken` is refused for that,
      whatever else is wrong with it. */
  lemma QrCodeMissingTokenFirst(body: Body, decode: string -> Option<string>)
    requires "url" in body && "qrToken" !in body
    ensures Admit(false, Some(body), QrCodeLogin, Version1, decode) == Failure(MissingKey("qrToken"))
  {
    var keys := RequiredKeys(QrCodeLogin);
    assert KeyFails(body, QrCodeLogin, keys[1]);
    assert !KeyFails(body, QrCodeLogin, keys[0]);
  }

  /** A QR-code body whose first three keys are present and whose `checkCode` has the wrong length is
      refused for the length, before `uuid` is looked at. */
  lemma QrCodeLengthBeforeUuid(body: Body, decode: string -> Option<string>)
    requires "url" in body && "qrToken" in body && "login" in body && "checkCode" in body
    requires |body["checkCode"]| != 4
    ensures Admit(false, Some(body), QrCodeLogin, Version1, decode) == Failure(CheckCodeLength(|body["checkCode"]|))
  {
    var keys := RequiredKeys(QrCodeLogin);
    assert KeyFails(body, QrCodeLogin, keys[3]);
    assert !KeyFails(body, QrCodeLogin, keys[0]) && !KeyFails(body, QrCodeLogin, keys[1]);
    assert !KeyFails(body, QrCodeLogin, keys[2]);
  }

  /** Version 2 decodes `username` for every method, so a body without it is refused as invalid
      base64 rather than for a missing key, whatever the login method. */
  lemma Version2NeedsUsername(body: Body, m: LoginMethod, decode: string -> Option<string>)
    requires "username" !in body
    ensures Admit(false, Some(body), m, Version2, decode) == Failure(InvalidBase64)
  {
  }
}
