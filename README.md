# papillon-python core, modelled in Dafny

papillon-python is an HTTP façade in front of Pronote, the school information system. It is
implemented by the `pronotepy` client library. This project models the logic the server adds on
top of that library and proves properties of it:

- **Token sessions** (`Sessions`). `saved_clients` maps bearer tokens to client handles.
  - A lookup that finds a live token refreshes its timestamp, so expiry slides. A lookup that
    finds a token idle for 300 seconds or more deletes it. A lookup during maintenance changes nothing.
  - A process-wide maintenance switch overrides everything.
  - Login (`generate_token`) registers the fresh token. `change_period` replaces the client's
    cached period.
  - `TokenStore` is a class with its map as a field. `Client` is a class whose two cached period
    selections are fields that the handlers assign.
- **The period resolver** (`Periods`). From the upstream periods (terms, semesters, the year) it
  picks one of three results:
  - the period of the current period's family that covers today;
  - the whole family;
  - a period requested by name.

  The default resolution and the named resolution are loops over the list. They are modelled as
  methods, and each method is proved equal to its specification function.
- **Local ids** (`LocalIds`, `Stamps`). Homework, news and discussions have no stable upstream
  id. The server builds one from a few leading characters of their text fields plus the item's
  date, formatted `%Y-%m-%d_%H:%M`. The proofs show what the id determines: the text parts and the
  minute, and nothing else.
- **The match-and-mutate handlers** (`Handlers`, `Search`).
  - `homework/changeState` and `news/markAsRead` scan the freshly fetched list. They toggle the
    first item whose id matches.
  - The three discussion handlers (`delete`, `readState`, `reply`) act on a discussion addressed
    the same way.
- **The grade-state classifier** (`Grades`). It sorts grade strings into numeric grades, empty
  grades and eight named states.
- **The login request checks** (`Login`). These are what `generate_token` verifies before it
  connects:
  - maintenance;
  - a present body;
  - base64 decoding for protocol version 2;
  - each login method's required keys, checked in order.

Everything outside the server goes in as a parameter:
- time, as whole seconds and day numbers;
- the maintenance flag;
- the fresh token;
- the base64 decoder;
- what the upstream library answers to a login (`Connection`);
- the lists the upstream library returns.

Three behaviours of the code that are easy to miss, and that the model keeps:

- `generate_token` registers the token before it looks at `client.logged_in` (server.py:221-236).
  A client whose login failed is therefore registered too, although its reply is an error.
- `change_period` with a name that matches no period does not fail. It falls back to the default
  resolution and answers with that period's name (server.py:326-327).
- The only error left on that path is a recognised family with no members. There the resolver
  returns an empty list, and reading `.name` from it raises. By then the list has already been
  stored in `calculated_period` (server.py:348-351). So a failed change does not leave the previous
  value in place.

## Model

| member | source | states |
|---|---|---|
| Text.Take | server.py:1193 | Python's `s[:n]`: a prefix of `s` holding its first `n` characters, or all of it when shorter |
| Text.LeadingWord | server.py:289 | `split(' ')[0]`: a prefix with no space, followed by a space or the end of the string |
| Text.LeadingWordOf | server.py:304 | the first word of `w + " " + rest` is `w` when `w` has no space |
| Text.PadDigits | server.py:668 | zero-padded decimal: exactly `width` characters, all digits |
| Text.PadDigitsRoundTrip | server.py:668 | reading a zero-padded number back gives the number when it fits the width |
| Search.FirstMatch | server.py:1806-1818 | the index of the first element whose key is the target, none before it has that key; none means no element has it |
| Search.FirstMatchUpdateSameKey | server.py:1818-1826 | replacing an element by one with the same key leaves the first match where it was |
| Search.Scan | server.py:1806-1832 | the scanning loop stops at exactly the first match |
| Stamps.Stamp | server.py:668 | `strftime("%Y-%m-%d_%H:%M")`: always sixteen characters |
| Stamps.StampRoundTrip | server.py:668 | the year, month, day, hour and minute read back out of the stamp |
| Stamps.StampInjective | server.py:668 | two stamps are equal if and only if the date-times agree to the minute |
| Stamps.StampedEqual | server.py:1193-1194 | text followed by a stamp: equal if and only if the texts and the minutes are equal |
| Stamps.StampedSuffix | server.py:1194 | the last sixteen characters of a stamped id name its minute |
| LocalIds.HomeworkLocalId | server.py:659-668 | description[:20] + subject name[:2] + the minute stamp of the date |
| LocalIds.NewsLocalId | server.py:1128-1134 | title[:3] + the minute stamp of the creation date |
| LocalIds.DiscussionText | server.py:1269-1275 | what the `try` appends before a missing subject or creator stops it |
| LocalIds.DiscussionLocalId | server.py:1267-1275 | that text plus the stamp, and no id when the date is missing and both branches raise |
| LocalIds.HomeworkDescriptionPart | server.py:662-665 | the `if len > 20` branch is the same as taking the first twenty characters |
| LocalIds.HomeworkLocalIdEqual | server.py:662-668 | two homework ids are equal if and only if description[:20] + subject[:2] and the minute agree |
| LocalIds.HomeworkLocalIdDecodes | server.py:662-668 | with long enough fields the id has 38 characters: description, subject and readable minute |
| LocalIds.HomeworkLocalIdIgnoresState | server.py:1810-1816 | the id does not depend on `done` or on the seconds |
| LocalIds.NewsLocalIdEqual | server.py:1132-1134 | two news ids are equal if and only if title[:3] and the minute agree |
| LocalIds.NewsLocalIdIgnoresState | server.py:1193-1194 | the id does not depend on `read` |
| LocalIds.DiscussionLocalIdStamped | server.py:1270-1275 | a discussion has an id if and only if it has a date, and the id ends with that date's stamp |
| LocalIds.DiscussionLocalIdFallback | server.py:1270-1275 | a missing subject leaves only the stamp; a missing creator keeps subject[:3] before it |
| LocalIds.DiscussionLocalIdEqual | server.py:1270-1275 | two dated discussions share an id if and only if their text parts and minutes agree |
| Periods.Family | server.py:303-305 | the family is no longer than the list and every member carries the label |
| Periods.FamilyConcat | server.py:303-305 | the family filter keeps upstream order: it distributes over concatenation |
| Periods.FamilyMembers | server.py:303-305 | a period is in the family if and only if it is in the list and carries the label |
| Periods.FirstCovering | server.py:307-314 | the first family period with start <= today <= end, and none before it covers today |
| Periods.FirstCoveringAt | server.py:307-314 | a covering period with no covering period before it is the first covering one |
| Periods.Resolve | server.py:273-327 | the resolver's result for each combination of login state, requested name and all-periods flag |
| Periods.DefaultResolution | server.py:288-321 | the current label: unknown gives the current period, known picks from its family |
| Periods.Pick | server.py:307-321 | the whole family in all-periods mode or when it is empty, else the first covering member, else the last |
| Periods.ResolvePeriod | server.py:273-327 | the resolver's loops compute the specification `Resolve` in every mode |
| Periods.DefaultPeriod | server.py:288-321 | the default branch computes `DefaultResolution` |
| Periods.PickPeriod | server.py:307-321 | the second loop: the first covering period, else the last, or the whole family |
| Periods.CollectFamily | server.py:300-305 | the first loop collects exactly the family |
| Periods.DefaultPicksFirstCovering | server.py:307-314 | default resolution returns the first family period, in upstream order, that covers today |
| Periods.DefaultFallsBackToLast | server.py:316-317 | when no family period covers today, the family's last period |
| Periods.UnknownLabelKeepsCurrent | server.py:289-298 | a label that is not Trimestre, Semestre or Année gives back the current period itself |
| Periods.EmptyFamilyGivesEmptyList | server.py:300-321 | a recognised label with no family member gives an empty list, not a period |
| Periods.AllPeriodsIsFamily | server.py:303-321 | all-periods mode gives exactly the labelled periods, in order |
| Periods.NamedPicksFirstExact | server.py:322-325 | a requested name picks the first period with exactly that name |
| Periods.UnknownNameFallsBack | server.py:326-327 | an unknown requested name falls back to default resolution |
| Periods.NotLoggedInResolvesNothing | server.py:287 | a client that is not logged in resolves to nothing |
| Periods.ExampleLabels | server.py:289 | "Trimestre 1" has label Trimestre, "Année continue" has label Année |
| Periods.ExampleFamily | server.py:303-305 | the term family of [year, T1, T2, T3] is [T1, T2, T3] |
| Periods.ThreeTermsExample | server.py:288-321 | a day in T2 gives T2, a summer day after T3 gives T3, all-periods mode gives the three terms without the year |
| Login.CheckKeys | server.py:129-201 | no error if and only if no key fails; an error comes from the first key that fails |
| Login.RequiredKeys | server.py:129-201 | the key tuple each login method's loop walks, in order |
| Login.KeyFails | server.py:130-201 | a key stops the loop when missing (except `ent` for url) or, for qrcode, a `checkCode` not four characters long |
| Login.Admit | server.py:104-201 | all checks before connecting, in the code's order: maintenance, body, version-2 decoding, the key loop |
| Login.DecodeVersion2 | server.py:115-127 | succeeds if and only if url, username, password (and ent when present) are present and decode; those keys then hold the decoded values, the key set is kept and other keys are unchanged |
| Login.HasRequiredKeys | server.py:129-201 | the admission condition: the method's keys, `ent` optional for url, a four-character checkCode for qrcode |
| Login.KeysPassIff | server.py:129-201 | the key loop passes if and only if the body has the method's keys |
| Login.MaintenanceRefusesLogin | server.py:104-109 | with maintenance on, every login request is refused for maintenance |
| Login.AdmittedIff | server.py:129-201 | a version-1 body is admitted if and only if it holds its method's keys (ent optional for url) and a 4-character checkCode for qrcode |
| Login.AdmittedIffVersion2 | server.py:115-201 | a version-2 body is admitted if and only if its base64 fields decode and it holds its method's keys |
| Login.UrlLoginWithoutEnt | server.py:129-138 | the url login runs without an ENT if and only if the body has no `ent` |
| Login.QrCodeMissingTokenFirst | server.py:163-169 | keys are checked in order: a missing qrToken is reported whatever else is wrong |
| Login.QrCodeLengthBeforeUuid | server.py:163-176 | a wrong checkCode length is reported before a missing uuid |
| Login.Version2NeedsUsername | server.py:115-127 | version 2 without `username` is refused as invalid base64, whatever the method |
| Sessions.Client.constructor | server.py:140-150 | a connected client handle with its login state and periods, no period cached yet |
| Sessions.LookUp | server.py:74-86 | `get_client` on values: the outcome and the map it leaves |
| Sessions.LookUpOutcomes | server.py:74-86 | maintenance wins; Ok if and only if the token is present and idle for less than 300 s (then refreshed to now); Expired if and only if idle 300 s or more (then deleted); NotFound if and only if absent |
| Sessions.LookUpFrame | server.py:76-86 | a lookup leaves every other token's entry as it was |
| Sessions.ExpiredOnlyOnce | server.py:78-84 | an expired token is reported expired once, then not found at every later lookup |
| Sessions.LookUpMonotone | server.py:78-80 | with a clock that does not go back, stamps stay at or before now and never decrease |
| Sessions.RegisterMonotone | server.py:228-231 | registration also keeps every stamp at or before the clock and lowers none |
| Sessions.KeepAlive | server.py:78-80 | a token used less than 300 s after each previous use stays valid for ever, and every lookup returns the same client |
| Sessions.SlidingWindowExample | server.py:59-80 | stamped at 0 and touched at 299, a token is valid at 598 and expired at 599; untouched, it is expired at 300 |
| Sessions.RegisterThenLookUp | server.py:228-231 | registration overwrites only its own token and is valid straight away |
| Sessions.NamedResolutionFailsOnlyOnEmptyFamily | server.py:347-358 | in `change_period` the resolver gives a list, which has no `.name`, exactly when the name is unknown and the family is empty; that list is empty |
| Sessions.TokenStore.constructor | server.py:52 | the registry starts empty |
| Sessions.TokenStore.GetClient | server.py:61-86 | the outcome and the new map are those of `LookUp` |
| Sessions.TokenStore.Register | server.py:228-231 | the map gets the token stamped with now; nothing else changes |
| Sessions.TokenStore.GenerateToken | server.py:103-268 | refusals leave the map and a connected client's period selections unchanged; a connected client gets both period selections, is registered, and is answered with a token (credentials for non-url logins) or "Login failed" |
| Sessions.TokenStore.ChangePeriod | server.py:331-361 | the lookup's map; for a logged-in client, the named resolution stored and its name returned, or the error branch; otherwise the lookup outcome; the activated period is untouched |
| Grades.StateIndex | server.py:716-732 | `grade_translate.index`: a position holding the name, none if and only if the name is not listed |
| Grades.GetGradeState | server.py:713-738 | significant mode answers a code or raises, value mode answers a string |
| Grades.SignificantCodes | server.py:726-732 | codes lie in -1..8: -1 if and only if empty, 0 if and only if numeric, k names state k; raises if and only if an unlisted non-numeric text |
| Grades.ValueModeShown | server.py:733-738 | value mode passes numeric text through and gives "-1" otherwise |
| Grades.GradeStatesDistinct | server.py:716-725 | the eight names are distinct and none starts with a digit |
| Grades.NamedStateRoundTrip | server.py:716-732 | the k-th name classifies as code k + 1, so names and codes correspond one to one |
| Grades.ModesAgree | server.py:726-738 | value mode shows the text itself exactly where significant mode answers 0 |
| Handlers.FlipFirst | server.py:1806-1831 | the list with its first matching item flipped |
| Handlers.ToggledHomework | server.py:1818-1826 | the homework list with `done` flipped on the first match |
| Handlers.HomeworkReply | server.py:1818-1837 | the new `done` of the first match, or not found |
| Handlers.ToggledNews | server.py:1196-1199 | the news list with `read` flipped on the first match |
| Handlers.NewsReplyAsWritten | server.py:1196-1212 | `not news.read` read after the flip, or not found |
| Handlers.NewsReply | server.py:1196-1212 | the intended answer: the new `read` of the first match, or not found |
| Handlers.Act | server.py:1332-1448 | delete; `mark_as(False)` when nothing is unread, `mark_as(True)` otherwise; reply, or "not replyable" |
| Handlers.HandleDiscussion | server.py:1321-1343 | the handlers as written: only the first discussion is compared; an empty list answers nothing |
| Handlers.HandleDiscussionFixed | server.py:1321-1343 | the intended scan over the whole list, not found after it |
| Handlers.FlipFirstOnlyFirst | server.py:1806-1831 | only the first matching item changes; without a match nothing does |
| Handlers.FlipFirstTwice | server.py:1818-1826 | a key-preserving involution applied twice to the first match restores the list |
| Handlers.ChangeHomeworkState | server.py:1803-1837 | the array becomes the toggled list and the answer is `HomeworkReply` of the old list |
| Handlers.HomeworkReplyIsNewState | server.py:1818-1837 | not found if and only if no item has the id; otherwise the answer is the item's new state |
| Handlers.HomeworkToggleTwice | server.py:1818-1826 | two toggles restore the list, and the second answer is the opposite of the first |
| Handlers.ReadNews | server.py:1186-1212 | the array becomes the toggled list and the answer is the one the code gives |
| Handlers.NewsReplyReportsOldState | server.py:1196-1200 | as written the answer is the state before the flip; the intended answer is the new one |
| Handlers.NewsReplyCounterexample | server.py:1196-1200 | an unread item is answered `false` although after the request it is read |
| Handlers.NewsToggleTwice | server.py:1196-1199 | two requests restore the news list; the intended answer alternates |
| Handlers.HandleDiscussionFixedFindsFirst | server.py:1321-1343 | with all discussions dated, the corrected handler acts on the first one with the id, and answers not found if and only if there is none |
| Handlers.HandleDiscussionAgreesOnFirst | server.py:1332-1337 | when the first discussion has the id, as written and corrected agree |
| Handlers.HandleDiscussionFirstOnly | server.py:1321-1343 | as written, the answer depends on the first discussion only |
| Handlers.HandleDiscussionFirstMismatch | server.py:1332-1343 | as written, a dated first discussion with another id answers not found; an empty list answers nothing |
| Handlers.HandleDiscussionMissesSecond | server.py:1332-1343 | as written, an id held by the second discussion is not found; corrected, the second is acted on |

## Left out

- HTTP routing, CORS and status codes, and the JSON shaping of every read-only resource (user,
  timetable, content, grades, menu and the rest): these are glue around the modelled logic.
- The `pronotepy` library is not part of this model. Its login calls are reduced to the
  `Connection` parameter. The handlers receive its lists as inputs. Its side effects (`set_done`,
  `mark_as_read`, `delete`, `mark_as`, `reply`) are modelled by the state they leave or by an
  `Action` value. `mark_as_read(status)` is taken to set `read` to `status`.
- The `eleve`/`parent` choice of client class and the content of the returned QR credentials
  depend only on the library. The reply records whether credentials are returned, not their values.
- `secrets.token_urlsafe`, `time.time()` and `datetime.now()` are parameters. `get_client` reads
  the clock twice, and a single `now` stands for both readings. `__get_current_period` reads
  `datetime.now()` again on every pass of its loop (server.py:310), and a single `today` stands
  for all of them. Token uniqueness depends on the random source and is not modelled.
- Sessions.LookUp compares whole seconds, while `time.time()` is a float. A request 299.7 seconds
  after the last one is live in the code, but rounded to whole seconds it can fall at 300 and
  count as expired; the model does not capture sub-second precision at the threshold.
- `__transform_to_number` works in floating point and is left out.
- Python's `print` logging and the maintenance configuration file are left out. The file is read
  once at start, so it becomes a boolean parameter.
- Concurrency is not modelled. Nothing in the server serialises requests, and `saved_clients` has
  no lock; the model assumes one request at a time.
- The guards in front of the mutating handlers are not modelled; `Handlers` models what happens
  once the list has been fetched. The guards differ from handler to handler:
  - the three discussion handlers check only the lookup outcome and answer it when it is not `ok`
    (server.py:1318-1320, 1369-1371, 1422-1424, 1350-1352); they have no `logged_in` check;
  - `changeState` answers the lookup outcome when it is not `ok`, and answers nothing when the
    client is not logged in (server.py:1800-1801, 1844-1846);
  - `markAsRead` answers nothing both when the lookup is not `ok` and when the client is not
    logged in: it has no branch for either (server.py:1183-1184);
  - all of them turn an exception from the library into an error answer through an outer `try`.
  The lookup itself is the same `GetClient` that `ChangePeriod` uses.
- The date parsing of `dateFrom`/`dateTo` in `changeState` is left out. The fetched list is an input.
- Periods.Covers compares day numbers. The source compares `datetime` values at midnight of the
  current day, which has the same result when the period bounds are dates.
- Stamps.Stamp pads the year to four digits. The C library's `strftime` prints years below 1000
  without padding, and such dates do not occur in the data.
- Stamps.DateTime does not model month lengths. They play no part in formatting or comparing stamps.
- Login.Body takes every body value to be a string. A JSON number or list as `checkCode` would make
  `len` raise or count elements (server.py:171).
- Grades.GetGradeState treats only the ASCII digits as numeric. Python's `int` also accepts other
  Unicode decimal digits.

## Findings

| source | as written | input that shows it | evidently intended | confidence | as-written member | corrected member |
|---|---|---|---|---|---|---|
| server.py:1196-1200 | `current_state = not news.read` is read after `mark_as_read(not news.read)`, so it is the state before the request | one unread news item, requested by its id: the answer is `false` while the item is now read | answer the new state, as `changeState` does (server.py:1820-1825) | not executed | Handlers.NewsReplyCounterexample | Handlers.NewsReplyReportsOldState |
| server.py:1332-1343 | both branches of the id test in the `for` loop return, so only the first discussion is ever compared (in `delete`, `readState` and `reply`); an empty list answers nothing | two dated discussions with different ids, and the second one's id requested: the answer is not found | scan the whole list and answer not found after it, as `changeState` does (server.py:1806-1837) | not executed | Handlers.HandleDiscussionMissesSecond | Handlers.HandleDiscussionFixedFindsFirst |
