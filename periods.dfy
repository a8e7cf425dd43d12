/** The period resolver: which of the upstream periods (terms, semesters, the year) scope grade and
    absence queries. Dates are day numbers; a period covers `start..end` inclusive. */
module Periods {
  import opened Text
  import opened Search

  datatype Period = Period(id: string, name: string, start: int, end: int)

  /** What the resolver returns: one period, a list of them, or nothing when the client is not
      logged in. */
  datatype Resolution = Single(period: Period) | Several(periods: seq<Period>) | NoPeriod

  /** The family labels the resolver recognises (terms, semesters, year). */
  const FamilyLabels: seq<string> := ["Trimestre", "Semestre", "Année"]

  /** The family label of a period: the first word of its name. */
  function Label(p: Period): string {
    LeadingWord(p.name)
  }

  function Name(p: Period): string {
    p.name
  }

  predicate Covers(p: Period, day: int) {
    p.start <= day <= p.end
  }

  /** The periods of `ps` whose label is `tag`, in upstream order. */
  function Family(ps: seq<Period>, tag: string): (fam: seq<Period>)
    ensures |fam| <= |ps|
    ensures forall i :: 0 <= i < |fam| ==> Label(fam[i]) == tag
  {
    if ps == [] then []
    else (if Label(ps[0]) == tag then [ps[0]] else []) + Family(ps[1..], tag)
  }

  /** Filtering commutes with concatenation: the family keeps the upstream order. */
  lemma {:induction false} FamilyConcat(a: seq<Period>, b: seq<Period>, tag: string)
    ensures Family(a + b, tag) == Family(a, tag) + Family(b, tag)
  {
    if a == [] {
      assert a + b == b;
    } else {
      assert (a + b)[0] == a[0];
      assert (a + b)[1..] == a[1..] + b;
      FamilyConcat(a[1..], b, tag);
    }
  }

  /** Exactly the periods of `ps` that carry the label belong to the family. */
  lemma {:induction false} FamilyMembers(ps: seq<Period>, tag: string, p: Period)
    ensures p in Family(ps, tag) <==> p in ps && Label(p) == tag
  {
    if ps != [] {
      FamilyMembers(ps[1..], tag, p);
      assert ps == [ps[0]] + ps[1..];
    }
  }

  function CoversDay(day: int): Period -> bool {
    p => Covers(p, day)
  }

  /** The index of the first period covering `day`. */
  function FirstCovering(fam: seq<Period>, day: int): (r: Option<nat>)
    ensures r.Some? ==> r.value < |fam| && Covers(fam[r.value], day)
    ensures r.Some? ==> forall j :: 0 <= j < r.value ==> !Covers(fam[j], day)
    ensures r.None? ==> forall j :: 0 <= j < |fam| ==> !Covers(fam[j], day)
  {
    FirstMatch(fam, CoversDay(day), true)
  }

  /** The first covering period is at `k` when `k` covers and nothing before it does. */
  lemma FirstCoveringAt(fam: seq<Period>, day: int, k: nat)
    requires k < |fam| && Covers(fam[k], day) && forall j :: 0 <= j < k ==> !Covers(fam[j], day)
    ensures FirstCovering(fam, day) == Some(k)
  {
  }

  /** Resolution without a requested name: in the current period's family, the first period
      covering `today`, else the last one; the whole family when `wantAll`; the current period
      itself when its label is not a known one. */
  function DefaultResolution(current: Period, ps: seq<Period>, today: int, wantAll: bool): Resolution {
    var tag := Label(current);
    if tag !in FamilyLabels then Single(current) else Pick(Family(ps, tag), today, wantAll)
  }

  /** The choice within a family: all of it, or the first member covering `today`, else the last. */
  function Pick(fam: seq<Period>, today: int, wantAll: bool): Resolution {
    if wantAll || fam == [] then Several(fam)
    else match FirstCovering(fam, today)
      case Some(k) => Single(fam[k])
      case None => Single(fam[|fam| - 1])
  }

  /** The resolver with all its arguments: not logged in gives nothing; with a requested name the
      first period with exactly that name wins, falling back to default resolution. */
  function Resolve(loggedIn: bool, current: Period, ps: seq<Period>, wantSpecific: bool, specific: string,
                   wantAll: bool, today: int): Resolution
  {
    if !loggedIn then NoPeriod
    else if !wantSpecific then DefaultResolution(current, ps, today, wantAll)
    else match FirstMatch(ps, Name, specific)
      case Some(k) => Single(ps[k])
      case None => DefaultResolution(current, ps, today, false)
  }

  /** The resolver as the server runs it. With a requested name it scans for that name and
      otherwise calls itself in default mode, as the source does. */
  method ResolvePeriod(loggedIn: bool, current: Period, ps: seq<Period>, wantSpecific: bool, specific: string,
                       wantAll: bool, today: int) returns (r: Resolution)
    ensures r == Resolve(loggedIn, current, ps, wantSpecific, specific, wantAll, today)
    decreases if wantSpecific then 1 else 0
  {
    if !loggedIn {
      return NoPeriod;
    }
    if !wantSpecific {
      r := DefaultPeriod(current, ps, today, wantAll);
    } else {
      var k := 0;
      while k < |ps|
        invariant 0 <= k <= |ps|
        invariant forall m :: 0 <= m < k ==> ps[m].name != specific
      {
        if ps[k].name == specific {
          return Single(ps[k]);
        }
        k := k + 1;
      }
      r := ResolvePeriod(loggedIn, current, ps, false, "", false, today);
    }
  }

  /** The default branch: collect the family in one loop, pick from it in another. */
  method DefaultPeriod(current: Period, ps: seq<Period>, today: int, wantAll: bool) returns (r: Resolution)
    ensures r == DefaultResolution(current, ps, today, wantAll)
  {
    var tag := LeadingWord(current.name);
    if tag != "Trimestre" && tag != "Semestre" && tag != "Année" {
      assert tag !in FamilyLabels;
      return Single(current);
    }
    assert tag in FamilyLabels;
    var currentPeriods := CollectFamily(ps, tag);
    r := PickPeriod(currentPeriods, today, wantAll);
  }

  /** The second loop: return the first period covering today, or the last; or gather them all. */
  method PickPeriod(currentPeriods: seq<Period>, today: int, wantAll: bool) returns (r: Resolution)
    ensures r == Pick(currentPeriods, today, wantAll)
  {
    var allPeriods: seq<Period> := [];
    var j := 0;
    while j < |currentPeriods|
      invariant 0 <= j <= |currentPeriods|
      invariant wantAll ==> allPeriods == currentPeriods[..j]
      invariant !wantAll ==> allPeriods == [] && (currentPeriods != [] ==> j < |currentPeriods|)
      invariant !wantAll ==> forall m :: 0 <= m < j ==> !Covers(currentPeriods[m], today)
    {
      var period := currentPeriods[j];
      if !wantAll {
        if period.start <= today <= period.end {
          FirstCoveringAt(currentPeriods, today, j);
          return Single(period);
        }
        if j == |currentPeriods| - 1 {
          assert FirstCovering(currentPeriods, today).None?;
          return Single(period);
        }
      } else {
        allPeriods := allPeriods + [period];
      }
      j := j + 1;
    }
    assert currentPeriods[..|currentPeriods|] == currentPeriods;
    return Several(allPeriods);
  }

  /** The first loop: append every period whose label is `tag`. */
  method CollectFamily(ps: seq<Period>, tag: string) returns (fam: seq<Period>)
    ensures fam == Family(ps, tag)
  {
    fam := [];
    var i := 0;
    while i < |ps|
      invariant 0 <= i <= |ps|
      invariant fam == Family(ps[..i], tag)
    {
      assert ps[..i + 1] == ps[..i] + [ps[i]];
      FamilyConcat(ps[..i], [ps[i]], tag);
      if LeadingWord(ps[i].name) == tag {
        fam := fam + [ps[i]];
      }
      i := i + 1;
    }
    assert ps[..|ps|] == ps;
  }

  /** Default resolution picks the first family period, in upstream order, that covers today. */
  lemma DefaultPicksFirstCovering(current: Period, ps: seq<Period>, today: int, k: nat)
    requires Label(current) in FamilyLabels
    requires var fam := Family(ps, Label(current));
      k < |fam| && Covers(fam[k], today) && forall j :: 0 <= j < k ==> !Covers(fam[j], today)
    ensures DefaultResolution(current, ps, today, false) == Single(Family(ps, Label(current))[k])
  {
  }

  /** When no family period covers today, default resolution gives the family's last period. */
  lemma DefaultFallsBackToLast(current: Period, ps: seq<Period>, today: int)
    requires Label(current) in FamilyLabels
    requires var fam := Family(ps, Label(current));
      fam != [] && forall j :: 0 <= j < |fam| ==> !Covers(fam[j], today)
    ensures var fam := Family(ps, Label(current));
      DefaultResolution(current, ps, today, false) == Single(fam[|fam| - 1])
  {
  }

  /** An unrecognised label gives back the current period as it is, in every mode. */
  lemma UnknownLabelKeepsCurrent(current: Period, ps: seq<Period>, today: int, wantAll: bool)
    requires Label(current) !in FamilyLabels
    ensures DefaultResolution(current, ps, today, wantAll) == Single(current)
  {
  }

  /** A recognised family with no members yields an empty list in both modes, not a period. */
  lemma EmptyFamilyGivesEmptyList(current: Period, ps: seq<Period>, today: int, wantAll: bool)
    requires Label(current) in FamilyLabels
    requires forall i :: 0 <= i < |ps| ==> Label(ps[i]) != Label(current)
    ensures DefaultResolution(current, ps, today, wantAll) == Several([])
  {
    var tag := Label(current);
    if Family(ps, tag) != [] {
      var p := Family(ps, tag)[0];
      FamilyMembers(ps, tag, p);
    }
  }

  /** All-periods mode returns the family: exactly the periods carrying the current tag, in order. */
  lemma AllPeriodsIsFamily(current: Period, ps: seq<Period>, today: int, p: Period)
    requires Label(current) in FamilyLabels
    ensures DefaultResolution(current, ps, today, true) == Several(Family(ps, Label(current)))
    ensures p in Family(ps, Label(current)) <==> p in ps && Label(p) == Label(current)
  {
    FamilyMembers(ps, Label(current), p);
  }

  /** A name that appears gives the first period so named (the `wantAll` flag plays no part). */
  lemma NamedPicksFirstExact(current: Period, ps: seq<Period>, name: string, wantAll: bool, today: int, k: nat)
    requires k < |ps| && ps[k].name == name && forall j :: 0 <= j < k ==> ps[j].name != name
    ensures Resolve(true, current, ps, true, name, wantAll, today) == Single(ps[k])
  {
  }

  /** A name that does not appear is not an error: it falls back to default resolution. */
  lemma UnknownNameFallsBack(current: Period, ps: seq<Period>, name: string, wantAll: bool, today: int)
    requires forall j :: 0 <= j < |ps| ==> ps[j].name != name
    ensures Resolve(true, current, ps, true, name, wantAll, today) == DefaultResolution(current, ps, today, false)
  {
  }

  /** Without a login there is nothing to resolve. */
  lemma NotLoggedInResolvesNothing(current: Period, ps: seq<Period>, wantSpecific: bool, name: string,
                                   wantAll: bool, today: int)
    ensures Resolve(false, current, ps, wantSpecific, name, wantAll, today) == NoPeriod
  {
  }

  /** The labels of the example's periods. */
  lemma ExampleLabels()
    ensures Label(Period("1", "Trimestre 1", 0, 105)) == "Trimestre"
    ensures Label(Period("2", "Trimestre 2", 106, 195)) == "Trimestre"
    ensures Label(Period("3", "Trimestre 3", 196, 303)) == "Trimestre"
    ensures Label(Period("4", "Année continue", 0, 303)) == "Année"
  {
    LeadingWordOf("Trimestre", "1");
    assert "Trimestre 1" == "Trimestre" + " " + "1";
    LeadingWordOf("Trimestre", "2");
    assert "Trimestre 2" == "Trimestre" + " " + "2";
    LeadingWordOf("Trimestre", "3");
    assert "Trimestre 3" == "Trimestre" + " " + "3";
    LeadingWordOf("Année", "continue");
    assert "Année continue" == "Année" + " " + "continue";
  }

  lemma ExampleFamily(year: Period, t1: Period, t2: Period, t3: Period)
    requires Label(t1) == Label(t2) == Label(t3) == "Trimestre" && Label(year) == "Année"
    ensures Family([year, t1, t2, t3], "Trimestre") == [t1, t2, t3]
  {
    assert [t3][1..] == [];
    assert Family([t3], "Trimestre") == [t3];
    assert [t2, t3][1..] == [t3];
    assert Family([t2, t3], "Trimestre") == [t2, t3];
    assert [t1, t2, t3][1..] == [t2, t3];
    assert Family([t1, t2, t3], "Trimestre") == [t1, t2, t3];
    assert [year, t1, t2, t3][1..] == [t1, t2, t3];
  }

  /** Three consecutive terms listed after the year they belong to (the names of ExampleLabels
      qualify), resolved from a term as current period: a day in the second term picks it, a day in
      the summer after the third term picks the third, and all-periods mode gives the three terms
      without the year. */
  lemma ThreeTermsExample(year: Period, t1: Period, t2: Period, t3: Period)
    requires Label(t1) == Label(t2) == Label(t3) == "Trimestre" && Label(year) == "Année"
    requires t1.start == 0 && t1.end == 105 && t2.start == 106 && t2.end == 195
    requires t3.start == 196 && t3.end == 303
    ensures var ps := [year, t1, t2, t3];
      && DefaultResolution(t1, ps, 110, false) == Single(t2)
      && DefaultResolution(t1, ps, 334, false) == Single(t3)
      && DefaultResolution(t1, ps, 110, true) == Several([t1, t2, t3])
  {
    ExampleFamily(year, t1, t2, t3);
    FirstCoveringAt([t1, t2, t3], 110, 1);
  }
}
