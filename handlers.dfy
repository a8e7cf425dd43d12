/** The match-and-mutate handlers: each fetches a list, computes every item's local id in turn and
    acts on the item whose id the request names. The upstream side effects (`set_done`,
    `mark_as_read`, `delete`, `mark_as`, `reply`) are modelled by the state they leave or the action
    they request. */
module Handlers {
  import opened Text
  import opened Search
  import opened LocalIds

  /** The list with the first item whose key is `target` replaced by `flip` of it. */
  function FlipFirst<T>(s: seq<T>, key: T -> string, target: string, flip: T -> T): seq<T> {
    match FirstMatch(s, key, target)
    case None => s
    case Some(i) => s[i := flip(s[i])]
  }

  /** Only the first matching item changes; without a match nothing does. */
  lemma FlipFirstOnlyFirst<T>(s: seq<T>, key: T -> string, target: string, flip: T -> T)
    ensures var r := FlipFirst(s, key, target, flip);
      && |r| == |s|
      && (match FirstMatch(s, key, target)
          case None => r == s && forall j :: 0 <= j < |s| ==> key(s[j]) != target
          case Some(i) =>
            && key(s[i]) == target && r[i] == flip(s[i])
            && (forall j :: 0 <= j < i ==> key(s[j]) != target)
            && forall j :: 0 <= j < |s| && j != i ==> r[j] == s[j])
  {
  }

  /** When flipping keeps the key and undoes itself, flipping the first match twice restores the list. */
  lemma FlipFirstTwice<T>(s: seq<T>, key: T -> string, target: string, flip: T -> T)
    requires forall x :: key(flip(x)) == key(x) && flip(flip(x)) == x
    ensures FlipFirst(FlipFirst(s, key, target, flip), key, target, flip) == s
  {
    match FirstMatch(s, key, target)
    case None =>
    case Some(i) =>
      FirstMatchUpdateSameKey(s, key, target, i, flip(s[i]));
      assert s[i := flip(s[i])][i := flip(flip(s[i]))] == s;
  }

  /** What a toggle handler answers: the state it reports, or that no item has the id. */
  datatype ToggleReply = Toggled(currentState: bool) | ToggleNotFound

  function FlipDone(h: Homework): Homework {
    h.(done := !h.done)
  }

  /** The homework list after `changeState`. */
  function ToggledHomework(hs: seq<Homework>, id: string): seq<Homework> {
    FlipFirst(hs, HomeworkLocalId, id, FlipDone)
  }

  /** The answer of `changeState`: the state the item was set to. */
  function HomeworkReply(hs: seq<Homework>, id: string): ToggleReply {
    match FirstMatch(hs, HomeworkLocalId, id)
    case None => ToggleNotFound
    case Some(i) => Toggled(!hs[i].done)
  }

  /** `changeState`: scan the fetched homework in order and flip `done` on the first one whose
      local id is `homeworkId`. */
  method ChangeHomeworkState(homeworks: array<Homework>, homeworkId: string) returns (reply: ToggleReply)
    modifies homeworks
    ensures homeworks[..] == ToggledHomework(old(homeworks[..]), homeworkId)
    ensures reply == HomeworkReply(old(homeworks[..]), homeworkId)
  {
    var found := Scan(homeworks[..], HomeworkLocalId, homeworkId);
    match found
    case None =>
      reply := ToggleNotFound;
    case Some(i) =>
      var h := homeworks[i];
      homeworks[i] := FlipDone(h);
      reply := Toggled(!h.done);
  }

  /** The answer is the item's new state, and "not found" comes exactly when no item has the id. */
  lemma HomeworkReplyIsNewState(hs: seq<Homework>, id: string)
    ensures HomeworkReply(hs, id) == ToggleNotFound <==> forall j :: 0 <= j < |hs| ==> HomeworkLocalId(hs[j]) != id
    ensures HomeworkReply(hs, id).Toggled? ==>
      exists i :: 0 <= i < |hs| && HomeworkLocalId(hs[i]) == id
                  && ToggledHomework(hs, id)[i].done == HomeworkReply(hs, id).currentState != hs[i].done
  {
    FlipFirstOnlyFirst(hs, HomeworkLocalId, id, FlipDone);
  }

  /** Two `changeState` requests with the same id restore the list, and the second reports the
      opposite of the first. */
  lemma HomeworkToggleTwice(hs: seq<Homework>, id: string)
    ensures ToggledHomework(ToggledHomework(hs, id), id) == hs
    ensures HomeworkReply(hs, id).Toggled? ==>
      HomeworkReply(ToggledHomework(hs, id), id) == Toggled(!HomeworkReply(hs, id).currentState)
  {
    FlipFirstTwice(hs, HomeworkLocalId, id, FlipDone);
    match FirstMatch(hs, HomeworkLocalId, id)
    case None =>
    case Some(i) =>
      FirstMatchUpdateSameKey(hs, HomeworkLocalId, id, i, FlipDone(hs[i]));
  }

  function FlipRead(n: News): News {
    n.(read := !n.read)
  }

  /** The news list after `markAsRead`: `mark_as_read(not read)` flips the first match. */
  function ToggledNews(ns: seq<News>, id: string): seq<News> {
    FlipFirst(ns, NewsLocalId, id, FlipRead)
  }

  /** The answer as written: `not news.read` taken after the flip, which is the state before it. */
  function NewsReplyAsWritten(ns: seq<News>, id: string): ToggleReply {
    match FirstMatch(ns, NewsLocalId, id)
    case None => ToggleNotFound
    case Some(i) => Toggled(!FlipRead(ns[i]).read)
  }

  /** The answer as intended: the state the item was set to, as `changeState` reports it. */
  function NewsReply(ns: seq<News>, id: string): ToggleReply {
    match FirstMatch(ns, NewsLocalId, id)
    case None => ToggleNotFound
    case Some(i) => Toggled(!ns[i].read)
  }

  /** `markAsRead` as written: flip the first news item with the id and answer as the code does. */
  method ReadNews(news: array<News>, newsId: string) returns (reply: ToggleReply)
    modifies news
    ensures news[..] == ToggledNews(old(news[..]), newsId)
    ensures reply == NewsReplyAsWritten(old(news[..]), newsId)
  {
    var found := Scan(news[..], NewsLocalId, newsId);
    match found
    case None =>
      reply := ToggleNotFound;
    case Some(i) =>
      news[i] := FlipRead(news[i]);
      reply := Toggled(!news[i].read);
  }

  /** As written, a found item is reported in the state it had before the request, the opposite of
      the state it was left in; the intended answer reports the new state. */
  lemma NewsReplyReportsOldState(ns: seq<News>, id: string, i: nat)
    requires FirstMatch(ns, NewsLocalId, id) == Some(i)
    ensures NewsReplyAsWritten(ns, id) == Toggled(ns[i].read)
    ensures ToggledNews(ns, id)[i].read != NewsReplyAsWritten(ns, id).currentState
    ensures NewsReply(ns, id) == Toggled(ToggledNews(ns, id)[i].read)
  {
  }

  /** An unread item whose id is requested: the code answers `false` although the item is now read. */
  lemma NewsReplyCounterexample(n: News)
    requires !n.read
    ensures NewsReplyAsWritten([n], NewsLocalId(n)) == Toggled(false)
    ensures ToggledNews([n], NewsLocalId(n)) == [n.(read := true)]
    ensures NewsReply([n], NewsLocalId(n)) == Toggled(true)
  {
    assert FirstMatch([n], NewsLocalId, NewsLocalId(n)) == Some(0);
  }

  /** Two `markAsRead` requests restore the list; the intended answer then alternates. */
  lemma NewsToggleTwice(ns: seq<News>, id: string)
    ensures ToggledNews(ToggledNews(ns, id), id) == ns
    ensures NewsReply(ns, id).Toggled? ==> NewsReply(ToggledNews(ns, id), id) == Toggled(!NewsReply(ns, id).currentState)
  {
    FlipFirstTwice(ns, NewsLocalId, id, FlipRead);
    match FirstMatch(ns, NewsLocalId, id)
    case None =>
    case Some(i) =>
      FirstMatchUpdateSameKey(ns, NewsLocalId, id, i, FlipRead(ns[i]));
  }

  /** What the three discussion handlers are asked to do. */
  datatype Request = Delete | ReadState | Reply(content: string)

  /** The upstream call a handler makes on the discussion it found. */
  datatype Action = Deleted | MarkedAs(status: bool) | Replied(content: string)

  /** The answer of a discussion handler; `NoResponse` is a handler that falls off its end and
      answers nothing, `HandlerError` an exception caught by the outer `except`. */
  datatype DiscussionReply = Done(action: Action) | NotReplyable | DiscussionNotFound | HandlerError | NoResponse

  /** What each handler does to the discussion it found: `readState` calls `mark_as(False)` when
      nothing is unread and `mark_as(True)` otherwise; `reply` refuses a discussion closed to replies. */
  function Act(d: Discussion, request: Request): DiscussionReply {
    match request
    case Delete => Done(Deleted)
    case ReadState => Done(MarkedAs(d.unread != 0))
    case Reply(content) => if d.replyable then Done(Replied(content)) else NotReplyable
  }

  /** The handlers as written: both branches of the match test return, so only the first discussion
      is ever compared; an empty list answers nothing, and a first discussion without a date makes
      computing its id raise. */
  function HandleDiscussion(ds: seq<Discussion>, id: string, request: Request): DiscussionReply {
    if ds == [] then NoResponse
    else match DiscussionLocalId(ds[0])
      case None => HandlerError
      case Some(lid) => if lid == id then Act(ds[0], request) else DiscussionNotFound
  }

  /** The handlers as intended: the scan `changeState` does, moving on past a mismatch and answering
      not found after the whole list. A discussion without a date still raises when the scan reaches it. */
  function HandleDiscussionFixed(ds: seq<Discussion>, id: string, request: Request): DiscussionReply
    decreases |ds|
  {
    if ds == [] then DiscussionNotFound
    else match DiscussionLocalId(ds[0])
      case None => HandlerError
      case Some(lid) => if lid == id then Act(ds[0], request) else HandleDiscussionFixed(ds[1..], id, request)
  }

  /** With every discussion dated, the intended handler acts on the first discussion with the id,
      and answers not found exactly when there is none. */
  lemma {:induction false} HandleDiscussionFixedFindsFirst(ds: seq<Discussion>, id: string, request: Request)
    requires forall j :: 0 <= j < |ds| ==> ds[j].date.Some?
    ensures HandleDiscussionFixed(ds, id, request) ==
      match FirstMatch(ds, DiscussionLocalId, Some(id))
      case None => DiscussionNotFound
      case Some(i) => Act(ds[i], request)
  {
    if ds != [] {
      DiscussionLocalIdStamped(ds[0]);
      if DiscussionLocalId(ds[0]) != Some(id) {
        HandleDiscussionFixedFindsFirst(ds[1..], id, request);
        assert forall j :: 1 <= j < |ds| ==> ds[j] == ds[1..][j - 1];
      }
    }
  }

  /** Where the first discussion has the id, the code and the intended handler agree. */
  lemma HandleDiscussionAgreesOnFirst(ds: seq<Discussion>, id: string, request: Request)
    requires ds != [] && DiscussionLocalId(ds[0]) == Some(id)
    ensures HandleDiscussion(ds, id, request) == HandleDiscussionFixed(ds, id, request) == Act(ds[0], request)
  {
  }

  /** As written, only the first discussion decides the answer: the rest of the list plays no part. */
  lemma HandleDiscussionFirstOnly(ds: seq<Discussion>, id: string, request: Request)
    requires ds != []
    ensures HandleDiscussion(ds, id, request) == HandleDiscussion([ds[0]], id, request)
  {
  }

  /** As written, a dated first discussion with another id answers not found, whatever follows it;
      an empty list answers nothing. */
  lemma HandleDiscussionFirstMismatch(ds: seq<Discussion>, id: string, request: Request)
    ensures ds == [] ==> HandleDiscussion(ds, id, request) == NoResponse
    ensures ds != [] && ds[0].date.Some? && DiscussionLocalId(ds[0]) != Some(id) ==>
      HandleDiscussion(ds, id, request) == DiscussionNotFound
  {
  }

  /** Two dated discussions, the second with the requested id: the code answers not found, the
      intended handler acts on the second one. */
  lemma HandleDiscussionMissesSecond(d0: Discussion, d1: Discussion, request: Request)
    requires d0.date.Some? && d1.date.Some? && DiscussionLocalId(d0) != DiscussionLocalId(d1)
    ensures HandleDiscussion([d0, d1], DiscussionLocalId(d1).value, request) == DiscussionNotFound
    ensures HandleDiscussionFixed([d0, d1], DiscussionLocalId(d1).value, request) == Act(d1, request)
  {
    assert [d0, d1][1..] == [d1];
  }
}
