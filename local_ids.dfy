/** Local identifiers: keys the server manufactures for homework, news and discussions, which the
    upstream service hands out without a stable id. Each is a few leading characters of text fields
    followed by the item's date stamped to the minute. */
module LocalIds {
  import opened Text
  import opened Stamps

  datatype Homework = Homework(description: string, subjectName: string, date: DateTime, done: bool)

  datatype News = News(title: string, creationDate: DateTime, read: bool)

  /** Any of the three identifying fields may be missing upstream; `unread` counts unread messages. */
  datatype Discussion = Discussion(subject: Option<string>, creator: Option<string>, date: Option<DateTime>,
                                   unread: int, replyable: bool)

  /** The description part of a homework id, written as the if/else the handlers use:
      it is the same as taking the first twenty characters. */
  function HomeworkDescriptionPart(description: string): (part: string)
    ensures part == Take(description, 20)
  {
    if |description| > 20 then description[..20] else description
  }

  function HomeworkText(h: Homework): string {
    HomeworkDescriptionPart(h.description) + Take(h.subjectName, 2)
  }

  /** Description (twenty characters), subject name (two characters), then the due date. */
  function HomeworkLocalId(h: Homework): string {
    HomeworkText(h) + Stamp(h.date)
  }

  /** Title (three characters), then the creation date. */
  function NewsLocalId(n: News): string {
    Take(n.title, 3) + Stamp(n.creationDate)
  }

  /** What the `try` block manages to append before a missing field stops it. */
  function DiscussionText(d: Discussion): string {
    match d.subject
    case None => ""
    case Some(s) => Take(s, 3) + (match d.creator case None => "" case Some(c) => Take(c, 3))
  }

  /** Subject (three characters), creator (three characters), then the date. If the subject or the
      creator is missing, the text appended so far is kept and the date is added by the `except`
      branch; without a date both branches fail and there is no id (None). */
  function DiscussionLocalId(d: Discussion): Option<string> {
    match d.date
    case None => None
    case Some(t) => Some(DiscussionText(d) + Stamp(t))
  }

  /** Two homework ids agree exactly when their text parts agree and their dates agree to the minute. */
  lemma HomeworkLocalIdEqual(h1: Homework, h2: Homework)
    ensures HomeworkLocalId(h1) == HomeworkLocalId(h2)
        <==> (Take(h1.description, 20) + Take(h1.subjectName, 2) == Take(h2.description, 20) + Take(h2.subjectName, 2)
              && MinuteOf(h1.date) == MinuteOf(h2.date))
  {
    StampedEqual(HomeworkText(h1), h1.date, HomeworkText(h2), h2.date);
  }

  /** With a description of at least twenty characters and a subject name of at least two, the id
      names the first twenty, the first two and the minute, and nothing else. */
  lemma HomeworkLocalIdDecodes(h: Homework)
    requires |h.description| >= 20 && |h.subjectName| >= 2
    ensures var id := HomeworkLocalId(h);
      |id| == 38 && id[..20] == h.description[..20] && id[20..22] == h.subjectName[..2]
      && ReadStamp(id[22..]) == MinuteOf(h.date)
  {
    StampedSuffix(HomeworkText(h), h.date);
  }

  /** The id ignores `done` and the seconds: toggling an item keeps the key that addresses it. */
  lemma HomeworkLocalIdIgnoresState(h: Homework, done: bool, second: Second)
    ensures HomeworkLocalId(h.(done := done, date := h.date.(second := second))) == HomeworkLocalId(h)
  {
  }

  /** Two news ids agree exactly when the first three title characters and the minute agree. */
  lemma NewsLocalIdEqual(n1: News, n2: News)
    ensures NewsLocalId(n1) == NewsLocalId(n2)
        <==> Take(n1.title, 3) == Take(n2.title, 3) && MinuteOf(n1.creationDate) == MinuteOf(n2.creationDate)
  {
    StampedEqual(Take(n1.title, 3), n1.creationDate, Take(n2.title, 3), n2.creationDate);
  }

  /** The id ignores `read`, so marking an item keeps the key that addresses it. */
  lemma NewsLocalIdIgnoresState(n: News, read: bool)
    ensures NewsLocalId(n.(read := read)) == NewsLocalId(n)
  {
  }

  /** A discussion has an id exactly when it has a date, and that id always ends with its stamp. */
  lemma DiscussionLocalIdStamped(d: Discussion)
    ensures DiscussionLocalId(d).Some? <==> d.date.Some?
    ensures DiscussionLocalId(d).Some? ==>
      var id := DiscussionLocalId(d).value;
      |id| >= StampLength && ReadStamp(id[|id| - StampLength..]) == MinuteOf(d.date.value)
  {
    if d.date.Some? {
      StampedSuffix(DiscussionText(d), d.date.value);
    }
  }

  /** The partial-failure fallback: a missing subject leaves only the stamp; a missing creator keeps
      the subject's three characters in front of it. */
  lemma DiscussionLocalIdFallback(d: Discussion)
    requires d.date.Some?
    ensures d.subject.None? ==> DiscussionLocalId(d) == Some(Stamp(d.date.value))
    ensures d.subject.Some? && d.creator.None? ==>
      DiscussionLocalId(d) == Some(Take(d.subject.value, 3) + Stamp(d.date.value))
    ensures d.subject.Some? && d.creator.Some? ==>
      DiscussionLocalId(d) == Some(Take(d.subject.value, 3) + Take(d.creator.value, 3) + Stamp(d.date.value))
  {
    var stamp := Stamp(d.date.value);
    if d.subject.None? {
      assert "" + stamp == stamp;
    } else if d.creator.None? {
      assert Take(d.subject.value, 3) + "" == Take(d.subject.value, 3);
    }
  }

  /** Two dated discussions get the same id exactly when their text parts and minutes agree. */
  lemma DiscussionLocalIdEqual(d1: Discussion, d2: Discussion)
    requires d1.date.Some? && d2.date.Some?
    ensures DiscussionLocalId(d1) == DiscussionLocalId(d2)
        <==> DiscussionText(d1) == DiscussionText(d2) && MinuteOf(d1.date.value) == MinuteOf(d2.date.value)
  {
    StampedEqual(DiscussionText(d1), d1.date.value, DiscussionText(d2), d2.date.value);
  }
}
