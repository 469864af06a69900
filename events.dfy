/**
  The event-sequence checker of gaitalytics/events.py: a scan for adjacent
  events with the same label and a scan for three consecutive events with
  the same context.
*/
module Events {
  import opened Outcomes
  import opened Model

  const FootStrike := "Foot Strike"
  const FootOff := "Foot Off"
  const Left := "Left"
  const Right := "Right"

  /** A reported time slice: the times of the two events that delimit a violation. */
  type Window = (real, real)

  /** Adjacent events `i - 1` and `i` carry the same label. */
  predicate RepeatedLabel(e: EventTable, i: int) {
    1 <= i < |e| && e[i - 1].name == e[i].name
  }

  /** What `_check_labels` reports: one window per repeated label, in table order. */
  function LabelViolations(e: EventTable): seq<Window> {
    if |e| < 2 then []
    else
      var n := |e|;
      LabelViolations(e[..n - 1])
        + (if RepeatedLabel(e, n - 1) then [(e[n - 2].time, e[n - 1].time)] else [])
  }

  /**
    A window is reported exactly when it spans a repeated label; in
    particular the first event is never reported on its own.
  */
  lemma {:induction false} LabelViolationsExactly(e: EventTable, w: Window)
    ensures w in LabelViolations(e) <==>
      exists i :: RepeatedLabel(e, i) && w == (e[i - 1].time, e[i].time)
  {
    if |e| >= 2 {
      var n := |e|;
      LabelViolationsExactly(e[..n - 1], w);
      LabelWindowPrefix(e, w);
    }
  }

  /** A repeated label of `e` is one of `e` without its last event, or the last pair. */
  lemma LabelWindowPrefix(e: EventTable, w: Window)
    requires |e| >= 2
    ensures var n := |e|; var p := e[..n - 1];
      (exists i :: RepeatedLabel(e, i) && w == (e[i - 1].time, e[i].time))
      <==> ((exists i :: RepeatedLabel(p, i) && w == (p[i - 1].time, p[i].time))
            || (RepeatedLabel(e, n - 1) && w == (e[n - 2].time, e[n - 1].time)))
  {
    var n := |e|;
    var p := e[..n - 1];
    if exists i :: RepeatedLabel(p, i) && w == (p[i - 1].time, p[i].time) {
      var i :| RepeatedLabel(p, i) && w == (p[i - 1].time, p[i].time);
      assert RepeatedLabel(e, i);
    }
    if exists i :: RepeatedLabel(e, i) && w == (e[i - 1].time, e[i].time) {
      var i :| RepeatedLabel(e, i) && w == (e[i - 1].time, e[i].time);
      if i < n - 1 {
        assert RepeatedLabel(p, i);
      }
    }
  }

  /** No label window is reported exactly when labels alternate. */
  lemma {:induction false} NoLabelViolations(e: EventTable)
    ensures LabelViolations(e) == [] <==> forall i :: 1 <= i < |e| ==> e[i - 1].name != e[i].name
  {
    if |e| >= 2 {
      var n := |e|;
      var p := e[..n - 1];
      NoLabelViolations(p);
      assert forall i :: 0 <= i < |p| ==> p[i] == e[i];
    }
  }

  /** `_check_labels`: one pass carrying the previous label and time. */
  method CheckLabels(e: EventTable) returns (incorrect: seq<Window>)
    ensures incorrect == LabelViolations(e)
  {
    incorrect := [];
    var lastLabel: Option<string> := None;
    var lastTime: Option<real> := None;
    for i := 0 to |e|
      invariant incorrect == LabelViolations(e[..i])
      invariant i == 0 ==> lastLabel == None
      invariant i > 0 ==> lastLabel == Some(e[i - 1].name) && lastTime == Some(e[i - 1].time)
    {
      var name := e[i].name;
      var time := e[i].time;
      if lastLabel == Some(name) {
        incorrect := incorrect + [(lastTime.value, time)];
      }
      assert e[..i + 1][..i] == e[..i];
      lastTime := Some(time);
      lastLabel := Some(name);
    }
    assert e[..|e|] == e;
  }

  /** How often `x` occurs in `s`. */
  function Count(s: seq<string>, x: string): (n: nat)
    ensures n <= |s|
  {
    if s == [] then 0 else (if s[0] == x then 1 else 0) + Count(s[1..], x)
  }

  /** The largest count among the first `k` values of `s`. */
  function MaxCountUpTo(s: seq<string>, k: nat): nat
    requires k <= |s|
  {
    if k == 0 then 0
    else
      var m := MaxCountUpTo(s, k - 1);
      var c := Count(s, s[k - 1]);
      if c > m then c else m
  }

  /** `value_counts().max()`: the count of the most frequent value. */
  function MaxCount(s: seq<string>): nat {
    MaxCountUpTo(s, |s|)
  }

  /** The contexts of the three events starting at `i`. */
  function WindowContexts(e: EventTable, i: nat): seq<string>
    requires i + 3 <= |e|
  {
    [e[i].context, e[i + 1].context, e[i + 2].context]
  }

  /** How often `x` occurs among three values. */
  lemma CountOfThree(a: string, b: string, c: string, x: string)
    ensures Count([a, b, c], x) == (if a == x then 1 else 0) + (if b == x then 1 else 0) + (if c == x then 1 else 0)
  {
    assert [a, b, c][1..] == [b, c];
    assert [b, c][1..] == [c];
    assert [c][1..] == [];
    assert Count([c], x) == (if c == x then 1 else 0) + Count([], x);
    assert Count([b, c], x) == (if b == x then 1 else 0) + Count([c], x);
    assert Count([a, b, c], x) == (if a == x then 1 else 0) + Count([b, c], x);
  }

  /** In three values, one occurs more than twice exactly when all three are equal. */
  lemma MaxCountOfThree(a: string, b: string, c: string)
    ensures MaxCount([a, b, c]) > 2 <==> a == b == c
  {
    var s := [a, b, c];
    CountOfThree(a, b, c, a);
    CountOfThree(a, b, c, b);
    CountOfThree(a, b, c, c);
    assert MaxCountUpTo(s, 1) == Count(s, a);
    assert MaxCountUpTo(s, 2) == if Count(s, b) > Count(s, a) then Count(s, b) else Count(s, a);
  }

  /** How many windows `_check_contexts` examines: `range(len(events) - 3)`. */
  function WindowCount(e: EventTable): nat {
    if |e| > 3 then |e| - 3 else 0
  }

  /** The three events from `i` share one context. */
  predicate SameContext(e: EventTable, i: int) {
    0 <= i && i + 3 <= |e| && e[i].context == e[i + 1].context == e[i + 2].context
  }

  /** What `_check_contexts` reports for the first `k` windows. */
  function ContextViolationsUpTo(e: EventTable, k: nat): seq<Window>
    requires k <= WindowCount(e)
  {
    if k == 0 then []
    else
      var i := k - 1;
      ContextViolationsUpTo(e, i)
        + (if MaxCount(WindowContexts(e, i)) > 2 then [(e[i].time, e[i + 3].time)] else [])
  }

  function ContextViolations(e: EventTable): seq<Window> {
    ContextViolationsUpTo(e, WindowCount(e))
  }

  /**
    A window is reported exactly when the three events from some `i` share a
    context and a fourth event follows them: the window ending at the last
    event is never examined.
  */
  lemma {:induction false} ContextViolationsExactly(e: EventTable, k: nat, w: Window)
    requires k <= WindowCount(e)
    ensures w in ContextViolationsUpTo(e, k) <==>
      exists i :: 0 <= i < k && SameContext(e, i) && w == (e[i].time, e[i + 3].time)
  {
    if k > 0 {
      var i := k - 1;
      ContextViolationsExactly(e, i, w);
      MaxCountOfThree(e[i].context, e[i + 1].context, e[i + 2].context);
    }
  }

  /** No window is reported exactly when no examined window has one context. */
  lemma {:induction false} NoContextViolations(e: EventTable, k: nat)
    requires k <= WindowCount(e)
    ensures ContextViolationsUpTo(e, k) == [] <==> forall i :: 0 <= i < k ==> !SameContext(e, i)
  {
    if k > 0 {
      var i := k - 1;
      NoContextViolations(e, i);
      MaxCountOfThree(e[i].context, e[i + 1].context, e[i + 2].context);
      var prev := ContextViolationsUpTo(e, i);
      if SameContext(e, i) {
        assert |ContextViolationsUpTo(e, k)| == |prev| + 1;
      } else {
        assert ContextViolationsUpTo(e, k) == prev + [];
      }
    }
  }

  /** A table of at most three events never has a context violation. */
  lemma ShortTableNoContextViolation(e: EventTable)
    requires |e| <= 3
    ensures ContextViolations(e) == []
  {
  }

  /** `_check_contexts`: one pass over the windows. */
  method CheckContexts(e: EventTable) returns (incorrect: seq<Window>)
    ensures incorrect == ContextViolations(e)
  {
    incorrect := [];
    for i := 0 to WindowCount(e)
      invariant incorrect == ContextViolationsUpTo(e, i)
    {
      var maxOccurrence := MaxCount(WindowContexts(e, i));
      if maxOccurrence > 2 {
        incorrect := incorrect + [(e[i].time, e[i + 3].time)];
      }
    }
  }

  /** The validity flag and, when invalid, the non-empty violation lists. */
  datatype CheckResult = CheckResult(valid: bool, errors: Option<seq<seq<Window>>>)

  /** The error list of `check_events`: the label list, then the context list, each only if non-empty. */
  function Collected(labels: seq<Window>, contexts: seq<Window>): (r: seq<seq<Window>>)
    ensures r == [] <==> labels == [] && contexts == []
    ensures forall x :: x in r ==> x != []
    ensures |r| == (if labels != [] then 1 else 0) + (if contexts != [] then 1 else 0)
    ensures labels != [] ==> r[0] == labels
    ensures contexts != [] ==> r[|r| - 1] == contexts
  {
    (if labels != [] then [labels] else []) + (if contexts != [] then [contexts] else [])
  }

  /** `check_events`: a missing table raises ValueError. */
  function CheckEvents(events: Option<EventTable>): (r: Result<CheckResult>)
    ensures events.None? <==> r.Err?
    ensures events.None? ==> r.error == Error(ValueError, "Trial does not have events.")
    ensures r.Ok? ==> (r.value.valid <==> r.value.errors.None?)
    ensures r.Ok? ==>
      (r.value.valid <==> LabelViolations(events.value) == [] && ContextViolations(events.value) == [])
    ensures r.Ok? && !r.value.valid ==>
      r.value.errors.value == Collected(LabelViolations(events.value), ContextViolations(events.value))
  {
    match events
    case None => Err(Error(ValueError, "Trial does not have events."))
    case Some(e) =>
      var incorrect := Collected(LabelViolations(e), ContextViolations(e));
      Ok(CheckResult(incorrect == [], if incorrect != [] then Some(incorrect) else None))
  }

  /** `check_events`, running both scans. */
  method CheckEventsMethod(events: Option<EventTable>) returns (r: Result<CheckResult>)
    ensures r == CheckEvents(events)
  {
    if events.None? {
      return Err(Error(ValueError, "Trial does not have events."));
    }
    var incorrectTimes: seq<seq<Window>> := [];
    var incorrectLabels := CheckLabels(events.value);
    var incorrectContexts := CheckContexts(events.value);
    if incorrectLabels != [] {
      incorrectTimes := incorrectTimes + [incorrectLabels];
    }
    if incorrectContexts != [] {
      incorrectTimes := incorrectTimes + [incorrectContexts];
    }
    assert incorrectTimes == Collected(LabelViolations(events.value), ContextViolations(events.value));
    var errors := if incorrectTimes != [] then Some(incorrectTimes) else None;
    return Ok(CheckResult(incorrectTimes == [], errors));
  }

  /** The label of event `i` in the regular gait pattern: strikes and offs alternate. */
  function PatternLabel(i: nat): string {
    if i % 2 == 0 then FootStrike else FootOff
  }

  /** The context of event `i`: Right strike, Left off, Left strike, Right off. */
  function PatternContext(i: nat): string {
    if i % 4 == 0 || i % 4 == 3 then Right else Left
  }

  /** The table follows the regular pattern from its first event on. */
  predicate FollowsPattern(e: EventTable) {
    forall i :: 0 <= i < |e| ==> e[i].name == PatternLabel(i) && e[i].context == PatternContext(i)
  }

  /** In the regular pattern no three consecutive events share a context. */
  lemma PatternContextsVary(e: EventTable)
    requires FollowsPattern(e)
    ensures forall i :: !SameContext(e, i)
  {
    forall i | 0 <= i && i + 3 <= |e| ensures !SameContext(e, i) {
      assert e[i].context == PatternContext(i) && e[i + 1].context == PatternContext(i + 1);
      assert e[i + 2].context == PatternContext(i + 2);
      ContextsVaryAt(i);
    }
  }

  /** Of three consecutive positions of the pattern, two have different contexts. */
  lemma ContextsVaryAt(i: nat)
    ensures PatternContext(i) != PatternContext(i + 1) || PatternContext(i + 1) != PatternContext(i + 2)
  {
    var r := i % 4;
    assert (i + 1) % 4 == (r + 1) % 4 && (i + 2) % 4 == (r + 2) % 4;
  }

  /** In the regular pattern strikes and offs alternate. */
  lemma PatternLabelsAlternate(e: EventTable)
    requires FollowsPattern(e)
    ensures forall i :: 1 <= i < |e| ==> e[i - 1].name != e[i].name
  {
    forall i | 1 <= i < |e| ensures e[i - 1].name != e[i].name {
      assert e[i - 1].name == PatternLabel(i - 1) && e[i].name == PatternLabel(i);
      LabelsAlternateAt(i - 1);
    }
  }

  /** Consecutive positions of the pattern have different labels. */
  lemma LabelsAlternateAt(i: nat)
    ensures PatternLabel(i) != PatternLabel(i + 1)
  {
    assert (i + 1) % 2 == (i % 2 + 1) % 2;
  }

  /** A table that repeats the regular pattern passes both scans. */
  lemma PatternIsValid(e: EventTable)
    requires FollowsPattern(e)
    ensures CheckEvents(Some(e)) == Ok(CheckResult(true, None))
  {
    PatternLabelsAlternate(e);
    NoLabelViolations(e);
    PatternContextsVary(e);
    NoContextViolations(e, WindowCount(e));
  }
}
