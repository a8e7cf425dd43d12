/** First-match search over a freshly fetched list: the shape of every `for x in xs: if key(x) == target: return`
    loop in the server. */
module Search {
  import opened Text

  /** The index of the first element whose key equals `target`, or None when no element has it. */
  function FirstMatch<T, K(==)>(s: seq<T>, key: T -> K, target: K): (r: Option<nat>)
    ensures r.Some? ==> r.value < |s| && key(s[r.value]) == target
    ensures r.Some? ==> forall j :: 0 <= j < r.value ==> key(s[j]) != target
    ensures r.None? ==> forall j :: 0 <= j < |s| ==> key(s[j]) != target
  {
    if s == [] then None
    else if key(s[0]) == target then Some(0)
    else match FirstMatch(s[1..], key, target)
      case None => None
      case Some(k) => Some(k + 1)
  }

  /** Replacing an element by one with the same key does not move the first match. */
  lemma FirstMatchUpdateSameKey<T, K>(s: seq<T>, key: T -> K, target: K, i: nat, x: T)
    requires i < |s| && key(x) == key(s[i])
    ensures FirstMatch(s[i := x], key, target) == FirstMatch(s, key, target)
  {
    var t := s[i := x];
    assert forall j :: 0 <= j < |s| ==> key(t[j]) == key(s[j]);
    match FirstMatch(s, key, target)
    case None =>
      assert forall j :: 0 <= j < |t| ==> key(t[j]) != target;
    case Some(k) =>
      assert key(t[k]) == target;
      assert forall j :: 0 <= j < k ==> key(t[j]) != target;
  }

  /** The scanning loop: stops at the first element whose key is `target`. */
  method Scan<T, K(==)>(s: seq<T>, key: T -> K, target: K) returns (r: Option<nat>)
    ensures r == FirstMatch(s, key, target)
  {
    var i := 0;
    while i < |s|
      invariant 0 <= i <= |s|
      invariant forall j :: 0 <= j < i ==> key(s[j]) != target
    {
      if key(s[i]) == target {
        return Some(i);
      }
      i := i + 1;
    }
    return None;
  }
}
