/** The grade-state classifier `__get_grade_state`: a grade as the upstream service writes it is
    either a number (its first character a digit), empty, or one of eight named states. */
module Grades {
  import opened Text
  import opened Search

  /** The named states, in the order that gives their codes 1..8: absent, exempted, not graded,
      unfit, not handed in, absent counted as zero, not handed in counted as zero, congratulations. */
  const GradeStates: seq<string> :=
    ["Absent", "Dispense", "NonNote", "Inapte", "NonRendu", "AbsentZero", "NonRenduZero", "Felicitations"]

  /** `significant` mode answers a code; value mode answers a string; a non-numeric, non-empty text
      that is none of the named states makes `significant` mode raise (`Unlisted`). */
  datatype GradeState = State(code: int) | Shown(text: string) | Unlisted

  /** Whether the first character parses as an integer (an empty text has none). */
  predicate Numeric(value: string) {
    value != [] && IsDigit(value[0])
  }

  function Identity(s: string): string {
    s
  }

  /** `grade_translate.index(value)`: the first position holding that name. */
  function StateIndex(value: string): (r: Option<nat>)
    ensures r.Some? ==> r.value < |GradeStates| && GradeStates[r.value] == value
    ensures r.None? <==> value !in GradeStates
  {
    var r := FirstMatch(GradeStates, Identity, value);
    assert r.None? ==> forall j :: 0 <= j < |GradeStates| ==> GradeStates[j] != value;
    r
  }

  function GetGradeState(value: string, significant: bool): (r: GradeState)
    ensures significant ==> !r.Shown?
    ensures !significant ==> r.Shown?
  {
    if significant then
      if Numeric(value) then State(0)
      else if value == "" then State(-1)
      else match StateIndex(value)
        case Some(i) => State(i + 1)
        case None => Unlisted
    else
      if Numeric(value) then Shown(value) else Shown("-1")
  }

  /** Every code `significant` mode answers lies in -1..8: -1 exactly for the empty text, 0 exactly
      for a numeric one, and 1..8 for the named state at that place; it raises exactly on any other
      text. */
  lemma SignificantCodes(value: string)
    ensures var r := GetGradeState(value, true);
      && (r.State? ==> -1 <= r.code <= 8)
      && (r == State(-1) <==> value == "")
      && (r == State(0) <==> Numeric(value))
      && (r.State? && r.code >= 1 ==> GradeStates[r.code - 1] == value)
      && (r == Unlisted <==> value != "" && !Numeric(value) && value !in GradeStates)
  {
  }

  /** Value mode passes a numeric text through and replaces anything else by "-1". */
  lemma ValueModeShown(value: string)
    ensures GetGradeState(value, false) == Shown(if Numeric(value) then value else "-1")
  {
  }

  /** No named state starts with a digit, and no two places hold the same name. */
  lemma GradeStatesDistinct()
    ensures forall i :: 0 <= i < |GradeStates| ==> !Numeric(GradeStates[i]) && GradeStates[i] != ""
    ensures forall i, j :: 0 <= i < j < |GradeStates| ==> GradeStates[i] != GradeStates[j]
  {
  }

  /** Name and code round-trip: the name at place `k` classifies as code `k + 1`, so two different
      names never share a code. */
  lemma {:induction false} NamedStateRoundTrip(k: nat)
    requires k < |GradeStates|
    ensures GetGradeState(GradeStates[k], true) == State(k + 1)
  {
    GradeStatesDistinct();
    var r := StateIndex(GradeStates[k]);
    assert r.Some?;
    assert r.value == k;
  }

  /** The two modes agree: value mode shows the text itself exactly when `significant` mode calls it
      numeric (code 0), and "-1" otherwise. */
  lemma ModesAgree(value: string)
    ensures GetGradeState(value, false) == Shown(if GetGradeState(value, true) == State(0) then value else "-1")
  {
  }
}
