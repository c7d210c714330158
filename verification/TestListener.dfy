/** The listener that tells skipped tests from failed ones and decides the exit status
    (src/xfail_supporting_test_listener.cpp). The test framework owns the tests and their
    properties; parts may also be reported between two tests, from the set-up or tear-down
    of a suite, and the listener then still looks at the test before. */
module TestListener {
  import opened Common

  const SKIP_KEY: string := "wlcs-skip-test"

  datatype Test = Test(suite: string, name: string) {
    function FullName(): string { suite + "." + name }
  }

  lemma FirstDot(a: string, b: string, a': string, b': string)
    requires '.' !in a && '.' !in a' && a + "." + b == a' + "." + b'
    ensures a == a' && b == b'
  {
    var s := a + "." + b;
    assert s[|a|] == '.' && forall k :: 0 <= k < |a| ==> s[k] == a[k];
    assert s[|a'|] == '.' && forall k :: 0 <= k < |a'| ==> s[k] == a'[k];
    assert s[..|a|] == a && s[..|a'|] == a' && s[|a| + 1..] == b && s[|a'| + 1..] == b';
  }

  /** Tests that differ have different full names, where suites have no dot in their names. */
  lemma FullNamesDiffer(t: Test, u: Test)
    requires '.' !in t.suite && '.' !in u.suite && t != u
    ensures t.FullName() != u.FullName()
  {
    if t.FullName() == u.FullName() {
      FirstDot(t.suite, t.name, u.suite, u.name);
    }
  }

  /** With a dot in the name of a suite they may not. */
  lemma DottedNamesMayClash()
    ensures Test("a.b", "c").FullName() == Test("a", "b.c").FullName()
  {
  }

  datatype Property = Property(key: string, value: string)

  /** What is passed on to the wrapped listener. */
  datatype Report =
    | IterationStarted
    | Started(test: Test)
    | Part(failed: bool)
    | Ended(test: Test)

  datatype State = State(
    current: Option<Test>,
    reasons: Option<seq<string>>,
    failedNames: set<string>,
    skippedNames: set<string>,
    failed: bool,
    log: seq<Report>
  )

  // ------------------------------------------------------------------ callbacks

  predicate HasSkip(props: seq<Property>) {
    exists i :: 0 <= i < |props| && props[i].key == SKIP_KEY
  }

  function SkipValues(props: seq<Property>): seq<string> {
    if props == [] then []
    else
      var n := |props| - 1;
      if props[n].key == SKIP_KEY then SkipValues(props[..n]) + [props[n].value] else SkipValues(props[..n])
  }

  lemma {:induction false} SkipValuesConcat(a: seq<Property>, b: seq<Property>)
    ensures SkipValues(a + b) == SkipValues(a) + SkipValues(b)
  {
    if b == [] {
      assert a + b == a;
    } else {
      var n := |b| - 1;
      SkipValuesConcat(a, b[..n]);
      assert (a + b)[..|a| + n] == a + b[..n] && (a + b)[|a| + n] == b[n];
    }
  }

  /** The reasons are the values of the skip properties; with SkipValuesConcat, in order. */
  lemma SkipValuesOf(p: Property)
    ensures SkipValues([p]) == if p.key == SKIP_KEY then [p.value] else []
  {
    assert [p][..0] == [];
  }

  /** The reasons so far and the values of all skip properties; still none if there is none. */
  function Collected(reasons: Option<seq<string>>, props: seq<Property>): Option<seq<string>> {
    if reasons.Some? then Some(reasons.value + SkipValues(props))
    else if HasSkip(props) then Some(SkipValues(props))
    else None
  }

  function PartStep(s: State, props: seq<Property>, failed: bool): State
    requires failed ==> s.current.Some?
  {
    if !failed then s.(log := s.log + [Part(false)])
    else
      var reasons, name := Collected(s.reasons, props), s.current.value.FullName();
      if reasons.Some? then s.(reasons := reasons, skippedNames := s.skippedNames + {name})
      else s.(failedNames := s.failedNames + {name}, log := s.log + [Part(true)])
  }

  function StartStep(s: State, t: Test): State {
    s.(current := Some(t), log := s.log + [Started(t)])
  }

  function EndStep(s: State, t: Test): State {
    if s.reasons.Some? then s.(reasons := None) else s.(log := s.log + [Ended(t)])
  }

  function IterationStartStep(s: State): State {
    s.(failedNames := {}, skippedNames := {}, log := s.log + [IterationStarted])
  }

  function IterationEndStep(s: State): State {
    s.(failed := s.failed || s.failedNames != {})
  }

  lemma {:induction false} NoSkipNoValues(props: seq<Property>)
    requires !HasSkip(props)
    ensures SkipValues(props) == []
  {
    if props != [] {
      var n := |props| - 1;
      assert forall i :: 0 <= i < n ==> props[..n][i] == props[i];
      NoSkipNoValues(props[..n]);
    }
  }

  lemma CollectedNothing(reasons: Option<seq<string>>)
    ensures Collected(reasons, []) == reasons
  {
    if reasons.Some? {
      assert reasons.value + [] == reasons.value;
    }
  }

  lemma CollectedNext(reasons: Option<seq<string>>, props: seq<Property>, p: Property)
    ensures var before := Collected(reasons, props);
            Collected(reasons, props + [p]) ==
            if p.key != SKIP_KEY then before
            else if before.None? then Some([p.value])
            else Some(before.value + [p.value])
  {
    var next := props + [p];
    assert next[..|props|] == props && next[|props|] == p;
    assert HasSkip(next) <==> HasSkip(props) || p.key == SKIP_KEY by {
      assert forall i :: 0 <= i < |props| ==> next[i] == props[i];
    }
    if !HasSkip(props) {
      NoSkipNoValues(props);
      assert [] + [p.value] == [p.value];
    }
    if reasons.Some? && p.key == SKIP_KEY {
      assert reasons.value + (SkipValues(props) + [p.value]) == reasons.value + SkipValues(props) + [p.value];
    }
  }

  // ----------------------------------------------------------------- whole runs

  datatype Action = Record(p: Property) | Outcome(failed: bool)

  /** What one test does, and the parts reported between its end and the next test. */
  datatype TestRun = TestRun(test: Test, actions: seq<Action>, after: seq<bool>)

  /** One iteration: the parts reported before its first test, from the set-up of environments
      and suites, and its tests. */
  datatype Iteration = Iteration(before: seq<bool>, tests: seq<TestRun>)

  function Initial(): State { State(None, None, {}, {}, false, []) }

  /** The framework keeps one value for each key. */
  function Recorded(props: seq<Property>, p: Property): seq<Property> {
    if props == [] then [p]
    else if props[0].key == p.key then [p] + props[1..]
    else [props[0]] + Recorded(props[1..], p)
  }

  function AllRecorded(props: seq<Property>, actions: seq<Action>): seq<Property>
    decreases |actions|
  {
    if actions == [] then props
    else if actions[0].Record? then AllRecorded(Recorded(props, actions[0].p), actions[1..])
    else AllRecorded(props, actions[1..])
  }

  function Body(s: State, props: seq<Property>, actions: seq<Action>): (r: State)
    requires s.current.Some?
    ensures r.current == s.current && r.failed == s.failed
    decreases |actions|
  {
    if actions == [] then s
    else if actions[0].Record? then Body(s, Recorded(props, actions[0].p), actions[1..])
    else Body(PartStep(s, props, actions[0].failed), props, actions[1..])
  }

  function Between(s: State, props: seq<Property>, parts: seq<bool>): (r: State)
    requires s.current.Some? || true !in parts
    ensures r.current == s.current && r.failed == s.failed
    decreases |parts|
  {
    if parts == [] then s else Between(PartStep(s, props, parts[0]), props, parts[1..])
  }

  function BodyAndEnd(s: State, t: TestRun): (r: State)
    ensures r.current == Some(t.test) && r.reasons.None? && r.failed == s.failed
  {
    EndStep(Body(StartStep(s, t.test), [], t.actions), t.test)
  }

  function RunTest(s: State, t: TestRun): (r: State)
    ensures r.current == Some(t.test)
  {
    Between(BodyAndEnd(s, t), AllRecorded([], t.actions), t.after)
  }

  /** The test that the listener looks at after these. */
  function LastTest(current: Option<Test>, ts: seq<TestRun>): Option<Test> {
    if ts == [] then current else Some(ts[|ts| - 1].test)
  }

  function RunTests(s: State, ts: seq<TestRun>): (r: State)
    ensures r.current == LastTest(s.current, ts)
    decreases |ts|
  {
    if ts == [] then s else RunTests(RunTest(s, ts[0]), ts[1..])
  }

  /** The original reads an uninitialised pointer if a part fails before there was any test. */
  predicate Ready(current: Option<Test>, it: Iteration) { current.Some? || true !in it.before }

  predicate Defined(current: Option<Test>, its: seq<Iteration>)
    decreases |its|
  {
    its == [] || (Ready(current, its[0]) && Defined(LastTest(current, its[0].tests), its[1..]))
  }

  /** The framework forgets the properties of all tests between iterations. */
  function RunIteration(s: State, it: Iteration): (r: State)
    requires Ready(s.current, it)
    ensures r.current == LastTest(s.current, it.tests)
  {
    IterationEndStep(RunTests(Between(IterationStartStep(s), [], it.before), it.tests))
  }

  function RunProgram(s: State, its: seq<Iteration>): State
    requires Defined(s.current, its)
    decreases |its|
  {
    if its == [] then s else RunProgram(RunIteration(s, its[0]), its[1..])
  }

  // ------------------------------------------------------------------ reference

  predicate IsSkip(a: Action) { a.Record? && a.p.key == SKIP_KEY }

  /** The index of the first skip property, or the end. */
  function FirstSkip(actions: seq<Action>): (k: nat)
    ensures k <= |actions|
    ensures k < |actions| ==> IsSkip(actions[k])
    ensures forall j :: 0 <= j < k ==> !IsSkip(actions[j])
  {
    if actions == [] || IsSkip(actions[0]) then 0 else 1 + FirstSkip(actions[1..])
  }

  predicate Skips(t: TestRun) { FirstSkip(t.actions) < |t.actions| }

  predicate Fails(actions: seq<Action>) {
    exists k :: 0 <= k < |actions| && actions[k] == Outcome(true)
  }

  /** What a reader expects: some failing part comes before any skip property. */
  predicate ShouldFail(t: TestRun) {
    Fails(t.actions[..FirstSkip(t.actions)]) || (!Skips(t) && true in t.after)
  }

  /** It leaves skip reasons behind for whichever test comes next. */
  predicate Leaks(t: TestRun) { Skips(t) && true in t.after }

  /** `muted`: skip reasons were left behind for it. */
  predicate CountsAsFailed(muted: bool, t: TestRun) {
    (!muted && Fails(t.actions[..FirstSkip(t.actions)])) || (!Skips(t) && true in t.after)
  }

  predicate MutedAfter(muted: bool, ts: seq<TestRun>) {
    if ts == [] then muted else Leaks(ts[|ts| - 1])
  }

  /** All parts, and the passing ones only. */
  function Parts(actions: seq<Action>): seq<Report> {
    if actions == [] then []
    else if actions[0].Record? then Parts(actions[1..])
    else [Part(actions[0].failed)] + Parts(actions[1..])
  }

  function Passing(actions: seq<Action>): seq<Report> {
    if actions == [] then []
    else if actions[0] == Outcome(false) then [Part(false)] + Passing(actions[1..])
    else Passing(actions[1..])
  }

  function AsActions(parts: seq<bool>): seq<Action> { seq(|parts|, i requires 0 <= i < |parts| => Outcome(parts[i])) }

  // --------------------------------------------------------------------- proofs

  lemma SkipHeadOrTail(props: seq<Property>)
    requires props != []
    ensures HasSkip(props) <==> props[0].key == SKIP_KEY || HasSkip(props[1..])
  {
  }

  lemma {:induction false} RecordedSkip(props: seq<Property>, p: Property)
    ensures HasSkip(Recorded(props, p)) <==> HasSkip(props) || p.key == SKIP_KEY
  {
    if props == [] {
      assert [p][0] == p;
    } else if props[0].key == p.key {
      var r := [p] + props[1..];
      assert r[0] == p && forall i :: 1 <= i < |props| ==> r[i] == props[i];
      if p.key == SKIP_KEY {
        assert r[0].key == SKIP_KEY;
      } else if HasSkip(props) {
        var i :| 0 <= i < |props| && props[i].key == SKIP_KEY;
        assert r[i].key == SKIP_KEY;
      }
    } else {
      RecordedSkip(props[1..], p);
      SkipHeadOrTail(props);
      SkipHeadOrTail(Recorded(props, p));
      assert Recorded(props, p)[1..] == Recorded(props[1..], p);
    }
  }

  lemma {:induction false} AllRecordedSkip(props: seq<Property>, actions: seq<Action>)
    ensures HasSkip(AllRecorded(props, actions)) <==> HasSkip(props) || FirstSkip(actions) < |actions|
    decreases |actions|
  {
    if actions != [] {
      if actions[0].Record? {
        RecordedSkip(props, actions[0].p);
        AllRecordedSkip(Recorded(props, actions[0].p), actions[1..]);
      } else {
        AllRecordedSkip(props, actions[1..]);
      }
    }
  }

  lemma FailsHeadOrTail(actions: seq<Action>)
    requires actions != []
    ensures Fails(actions) <==> actions[0] == Outcome(true) || Fails(actions[1..])
  {
  }

  /** Once a test is hushed its failing parts go to the skipped names and nowhere else. */
  lemma {:induction false} HushedBody(s: State, props: seq<Property>, actions: seq<Action>)
    requires s.current.Some? && (s.reasons.Some? || HasSkip(props))
    ensures var r, name := Body(s, props, actions), s.current.value.FullName();
            && r.failedNames == s.failedNames
            && r.log == s.log + Passing(actions)
            && r.skippedNames == (if Fails(actions) then s.skippedNames + {name} else s.skippedNames)
            && (r.reasons.Some? <==> s.reasons.Some? || Fails(actions))
    decreases |actions|
  {
    if actions != [] {
      FailsHeadOrTail(actions);
      if actions[0].Record? {
        RecordedSkip(props, actions[0].p);
        HushedBody(s, Recorded(props, actions[0].p), actions[1..]);
      } else {
        HushedBody(PartStep(s, props, actions[0].failed), props, actions[1..]);
      }
    }
  }

  lemma FrontOf(actions: seq<Action>, k: nat)
    requires 0 < k <= |actions|
    ensures Fails(actions[..k]) <==> actions[0] == Outcome(true) || Fails(actions[1..][..k - 1])
    ensures Parts(actions[..k]) ==
            if actions[0].Record? then Parts(actions[1..][..k - 1])
            else [Part(actions[0].failed)] + Parts(actions[1..][..k - 1])
  {
    var front := actions[..k];
    assert front[1..] == actions[1..][..k - 1];
    FailsHeadOrTail(front);
  }

  /** The names and reasons that a body with this first skip property leads to. */
  predicate Judged(s: State, r: State, early: bool, late: bool)
    requires s.current.Some?
  {
    var name := s.current.value.FullName();
    && r.failedNames == (if early then s.failedNames + {name} else s.failedNames)
    && r.skippedNames == (if late then s.skippedNames + {name} else s.skippedNames)
    && (r.reasons.Some? <==> late)
  }

  /** What a body does to names, reasons and log, given its first skip property. */
  predicate Opened(s: State, r: State, actions: seq<Action>)
    requires s.current.Some?
  {
    var k := FirstSkip(actions);
    && Judged(s, r, Fails(actions[..k]), Fails(actions[k..]))
    && r.log == s.log + (Parts(actions[..k]) + Passing(actions[k..]))
  }

  lemma RecordOpens(s: State, r: State, actions: seq<Action>)
    requires s.current.Some? && actions != [] && actions[0].Record? && !IsSkip(actions[0])
    requires Opened(s, r, actions[1..])
    ensures Opened(s, r, actions)
  {
    var k := FirstSkip(actions);
    FrontOf(actions, k);
    assert actions[k..] == actions[1..][k - 1..];
  }

  lemma PartJudged(s: State, props: seq<Property>, failed: bool, r: State, early: bool, late: bool)
    requires s.current.Some? && s.reasons.None? && !HasSkip(props)
    requires Judged(PartStep(s, props, failed), r, early, late)
    ensures Judged(s, r, failed || early, late)
    ensures PartStep(s, props, failed).log == s.log + [Part(failed)]
  {
  }

  lemma PartOpens(s: State, props: seq<Property>, r: State, actions: seq<Action>)
    requires s.current.Some? && s.reasons.None? && !HasSkip(props) && actions != [] && actions[0].Outcome?
    requires Opened(PartStep(s, props, actions[0].failed), r, actions[1..])
    ensures Opened(s, r, actions)
  {
    var failed, tail, k := actions[0].failed, actions[1..], FirstSkip(actions);
    assert actions[k..] == tail[k - 1..];
    PartJudged(s, props, failed, r, Fails(tail[..k - 1]), Fails(tail[k - 1..]));
    FrontOf(actions, k);
    Associate([Part(failed)], Parts(tail[..k - 1]), Passing(tail[k - 1..]));
    Associate(s.log, [Part(failed)], Parts(tail[..k - 1]) + Passing(tail[k - 1..]));
  }

  lemma {:induction false} OpenBodyStop(s: State, props: seq<Property>, actions: seq<Action>)
    requires s.current.Some? && s.reasons.None? && actions != [] && IsSkip(actions[0])
    ensures var r := Body(s, props, actions);
            && Judged(s, r, Fails(actions[..0]), Fails(actions[0..]))
            && r.log == s.log + (Parts(actions[..0]) + Passing(actions[0..]))
  {
    assert actions[0..] == actions;
    FailsHeadOrTail(actions);
    RecordedSkip(props, actions[0].p);
    HushedBody(s, Recorded(props, actions[0].p), actions[1..]);
  }

  /** Up to the first skip property every part is passed on and failing ones count. */
  lemma {:induction false} OpenBody(s: State, props: seq<Property>, actions: seq<Action>)
    requires s.current.Some? && s.reasons.None? && !HasSkip(props)
    ensures Opened(s, Body(s, props, actions), actions)
    decreases |actions|
  {
    if actions != [] {
      var head, tail, r := actions[0], actions[1..], Body(s, props, actions);
      if head.Record? && IsSkip(head) {
        OpenBodyStop(s, props, actions);
      } else if head.Record? {
        RecordedSkip(props, head.p);
        OpenBody(s, Recorded(props, head.p), tail);
        RecordOpens(s, r, actions);
      } else {
        OpenBody(PartStep(s, props, head.failed), props, tail);
        PartOpens(s, props, r, actions);
      }
    }
  }

  lemma {:induction false} BetweenIsBody(s: State, props: seq<Property>, parts: seq<bool>)
    requires s.current.Some?
    ensures Between(s, props, parts) == Body(s, props, AsActions(parts))
    decreases |parts|
  {
    if parts != [] {
      BetweenIsBody(PartStep(s, props, parts[0]), props, parts[1..]);
      assert AsActions(parts)[1..] == AsActions(parts[1..]);
    }
  }

  lemma FailsAfter(parts: seq<bool>)
    ensures Fails(AsActions(parts)) <==> true in parts
    ensures FirstSkip(AsActions(parts)) == |parts|
  {
    if true in parts {
      var k :| 0 <= k < |parts| && parts[k];
      assert AsActions(parts)[k] == Outcome(true);
    }
  }

  /** The parts reported between two tests, looked at with the properties of the first. */
  lemma {:induction false} AfterTest(s: State, props: seq<Property>, parts: seq<bool>)
    requires s.current.Some? && s.reasons.None?
    ensures var r, name := Between(s, props, parts), s.current.value.FullName();
            && r.failedNames == (if !HasSkip(props) && true in parts then s.failedNames + {name} else s.failedNames)
            && r.skippedNames == (if HasSkip(props) && true in parts then s.skippedNames + {name} else s.skippedNames)
            && (r.reasons.Some? <==> HasSkip(props) && true in parts)
            && r.log == s.log + (if HasSkip(props) then Passing(AsActions(parts)) else Parts(AsActions(parts)))
  {
    var actions := AsActions(parts);
    BetweenIsBody(s, props, parts);
    FailsAfter(parts);
    if HasSkip(props) {
      HushedBody(s, props, actions);
    } else {
      OpenBody(s, props, actions);
      assert actions[..|parts|] == actions && actions[|parts|..] == [];
    }
  }

  /** Where it stops counting. */
  function Cut(muted: bool, t: TestRun): (k: nat)
    ensures k <= |t.actions|
  {
    if muted then 0 else FirstSkip(t.actions)
  }

  /** What the wrapped listener is told about one test: of its own parts all up to the cut and
      the passing ones from there, its end unless it was skipped, and the parts after it. */
  function ToldOfBody(muted: bool, t: TestRun): seq<Report> {
    var k := Cut(muted, t);
    Parts(t.actions[..k]) + Passing(t.actions[k..])
  }

  predicate Skipped(muted: bool, t: TestRun) { muted || Fails(t.actions[Cut(muted, t)..]) }

  function ToldOfEnd(muted: bool, t: TestRun): seq<Report> {
    if Skipped(muted, t) then [] else [Ended(t.test)]
  }

  function ToldAfter(t: TestRun): seq<Report> {
    if Skips(t) then Passing(AsActions(t.after)) else Parts(AsActions(t.after))
  }

  function Told(muted: bool, t: TestRun): seq<Report> {
    [Started(t.test)] + ToldOfBody(muted, t) + ToldOfEnd(muted, t) + ToldAfter(t)
  }

  /** The names, with that of the test if it is to be listed. */
  function NamesWith(names: set<string>, t: TestRun, listed: bool): set<string> {
    if listed then names + {t.test.FullName()} else names
  }

  lemma OneBody(s: State, t: TestRun)
    ensures var r, muted := Body(StartStep(s, t.test), [], t.actions), s.reasons.Some?;
            && r.failedNames == NamesWith(s.failedNames, t, !muted && Fails(t.actions[..FirstSkip(t.actions)]))
            && r.skippedNames == NamesWith(s.skippedNames, t, Fails(t.actions[Cut(muted, t)..]))
            && r.log == s.log + [Started(t.test)] + ToldOfBody(muted, t)
            && r.reasons.Some? == Skipped(muted, t)
  {
    if s.reasons.Some? {
      HushedBody(StartStep(s, t.test), [], t.actions);
      assert t.actions[..0] == [] && t.actions[0..] == t.actions;
    } else {
      OpenBody(StartStep(s, t.test), [], t.actions);
    }
  }

  lemma UpToEnd(s: State, t: TestRun)
    ensures var r, muted := BodyAndEnd(s, t), s.reasons.Some?;
            && r.failedNames == NamesWith(s.failedNames, t, !muted && Fails(t.actions[..FirstSkip(t.actions)]))
            && r.skippedNames == NamesWith(s.skippedNames, t, Fails(t.actions[Cut(muted, t)..]))
            && r.log == s.log + [Started(t.test)] + ToldOfBody(muted, t) + ToldOfEnd(muted, t)
  {
    OneBody(s, t);
  }

  lemma PastEnd(s: State, t: TestRun)
    ensures var r, before := RunTest(s, t), BodyAndEnd(s, t);
            && r.failedNames == NamesWith(before.failedNames, t, !Skips(t) && true in t.after)
            && r.skippedNames == NamesWith(before.skippedNames, t, Leaks(t))
            && (r.reasons.Some? <==> Leaks(t))
            && r.failed == s.failed
            && r.log == before.log + ToldAfter(t)
  {
    AllRecordedSkip([], t.actions);
    AfterTest(BodyAndEnd(s, t), AllRecorded([], t.actions), t.after);
  }

  lemma RegroupFour<T>(log: seq<T>, a: seq<T>, b: seq<T>, c: seq<T>, d: seq<T>)
    ensures log + a + b + c + d == log + (a + b + c + d)
  {
  }

  /** Some part of it fails where it does not count. */
  predicate CountsAsSkipped(muted: bool, t: TestRun) { Fails(t.actions[Cut(muted, t)..]) || Leaks(t) }

  /** One test, whatever state it starts in: whether its name is added to the failed ones and to
      the skipped ones, whether it mutes the next, and exactly what is passed on. */
  lemma OneTest(s: State, t: TestRun)
    ensures var r, muted := RunTest(s, t), s.reasons.Some?;
            && r.failedNames == NamesWith(s.failedNames, t, CountsAsFailed(muted, t))
            && r.skippedNames == NamesWith(s.skippedNames, t, CountsAsSkipped(muted, t))
            && (r.reasons.Some? <==> Leaks(t))
            && r.failed == s.failed
            && r.log == s.log + Told(muted, t)
  {
    UpToEnd(s, t);
    PastEnd(s, t);
    var muted := s.reasons.Some?;
    RegroupFour(s.log, [Started(t.test)], ToldOfBody(muted, t), ToldOfEnd(muted, t), ToldAfter(t));
  }

  predicate TellsFailure(log: seq<Report>) { Part(true) in log }

  lemma {:induction false} PartsTell(actions: seq<Action>)
    ensures TellsFailure(Parts(actions)) <==> Fails(actions)
    ensures !TellsFailure(Passing(actions))
  {
    if actions != [] {
      PartsTell(actions[1..]);
      FailsHeadOrTail(actions);
    }
  }

  /** The wrapped listener hears of a failing part of a test exactly if the test counts as
      failed. */
  lemma FailureToldIffCounted(muted: bool, t: TestRun)
    ensures TellsFailure(Told(muted, t)) <==> CountsAsFailed(muted, t)
  {
    var k := Cut(muted, t);
    PartsTell(t.actions[..k]);
    PartsTell(t.actions[k..]);
    PartsTell(AsActions(t.after));
    FailsAfter(t.after);
    if muted {
      assert t.actions[..0] == [];
    }
  }

  /** Test number i of an iteration counts as failed. */
  predicate Failed(muted: bool, ts: seq<TestRun>, i: nat)
    requires i < |ts|
  {
    CountsAsFailed(MutedAfter(muted, ts[..i]), ts[i])
  }

  predicate NameFailed(muted: bool, ts: seq<TestRun>, name: string) {
    exists i :: 0 <= i < |ts| && ts[i].test.FullName() == name && Failed(muted, ts, i)
  }

  lemma NameFailedHeadOrTail(muted: bool, ts: seq<TestRun>, name: string)
    requires ts != []
    ensures NameFailed(muted, ts, name) <==>
              || (ts[0].test.FullName() == name && CountsAsFailed(muted, ts[0]))
              || NameFailed(Leaks(ts[0]), ts[1..], name)
  {
  }

  lemma {:induction false} TestsFrom(s: State, ts: seq<TestRun>, name: string)
    ensures name in RunTests(s, ts).failedNames <==> name in s.failedNames || NameFailed(s.reasons.Some?, ts, name)
    decreases |ts|
  {
    if ts != [] {
      OneTest(s, ts[0]);
      TestsFrom(RunTest(s, ts[0]), ts[1..], name);
      NameFailedHeadOrTail(s.reasons.Some?, ts, name);
    }
  }

  predicate NameSkipped(muted: bool, ts: seq<TestRun>, name: string) {
    exists i :: 0 <= i < |ts| && ts[i].test.FullName() == name && CountsAsSkipped(MutedAfter(muted, ts[..i]), ts[i])
  }

  lemma NameSkippedHeadOrTail(muted: bool, ts: seq<TestRun>, name: string)
    requires ts != []
    ensures NameSkipped(muted, ts, name) <==>
              || (ts[0].test.FullName() == name && CountsAsSkipped(muted, ts[0]))
              || NameSkipped(Leaks(ts[0]), ts[1..], name)
  {
  }

  lemma {:induction false} TestsSkip(s: State, ts: seq<TestRun>, name: string)
    ensures name in RunTests(s, ts).skippedNames <==> name in s.skippedNames || NameSkipped(s.reasons.Some?, ts, name)
    decreases |ts|
  {
    if ts != [] {
      OneTest(s, ts[0]);
      TestsSkip(RunTest(s, ts[0]), ts[1..], name);
      NameSkippedHeadOrTail(s.reasons.Some?, ts, name);
    }
  }

  /** What the wrapped listener is told about these tests. */
  function ToldOfTests(muted: bool, ts: seq<TestRun>): seq<Report>
    decreases |ts|
  {
    if ts == [] then [] else Told(muted, ts[0]) + ToldOfTests(Leaks(ts[0]), ts[1..])
  }

  lemma {:induction false} TestsTold(s: State, ts: seq<TestRun>)
    ensures RunTests(s, ts).log == s.log + ToldOfTests(s.reasons.Some?, ts)
    decreases |ts|
  {
    if ts == [] {
      assert s.log + [] == s.log;
    } else {
      OneTest(s, ts[0]);
      TestsTold(RunTest(s, ts[0]), ts[1..]);
      Associate(s.log, Told(s.reasons.Some?, ts[0]), ToldOfTests(Leaks(ts[0]), ts[1..]));
    }
  }

  lemma {:induction false} TestsMute(s: State, ts: seq<TestRun>)
    ensures RunTests(s, ts).reasons.Some? == MutedAfter(s.reasons.Some?, ts)
    ensures RunTests(s, ts).failed == s.failed
    decreases |ts|
  {
    if ts != [] {
      PastEnd(s, ts[0]);
      TestsMute(RunTest(s, ts[0]), ts[1..]);
      if |ts| > 1 {
        assert ts[1..][|ts| - 2] == ts[|ts| - 1];
      }
    }
  }

  lemma {:induction false} PassingParts(s: State, props: seq<Property>, parts: seq<bool>)
    requires true !in parts
    ensures Between(s, props, parts) == s.(log := s.log + Parts(AsActions(parts)))
    decreases |parts|
  {
    if parts != [] {
      PassingParts(PartStep(s, props, false), props, parts[1..]);
      assert AsActions(parts)[1..] == AsActions(parts[1..]);
      Associate(s.log, [Part(false)], Parts(AsActions(parts[1..])));
    } else {
      assert s.log + [] == s.log;
    }
  }

  lemma {:induction false} NoneFailing(parts: seq<bool>)
    requires true !in parts
    ensures Passing(AsActions(parts)) == Parts(AsActions(parts))
    decreases |parts|
  {
    if parts != [] {
      NoneFailing(parts[1..]);
      assert AsActions(parts)[1..] == AsActions(parts[1..]);
    }
  }

  /** What the wrapped listener is told of the parts before the first test. */
  function ToldBefore(muted: bool, parts: seq<bool>): seq<Report> {
    if muted then Passing(AsActions(parts)) else Parts(AsActions(parts))
  }

  /** The parts before the first test are charged to the last test of the run so far, unless
      skip reasons were left behind. */
  lemma {:induction false} BeforeTests(s: State, parts: seq<bool>)
    requires s.current.Some? || true !in parts
    ensures var r, muted := Between(s, [], parts), s.reasons.Some?;
            && r.failedNames ==
               (if !muted && true in parts then s.failedNames + {s.current.value.FullName()} else s.failedNames)
            && r.skippedNames ==
               (if muted && true in parts then s.skippedNames + {s.current.value.FullName()} else s.skippedNames)
            && r.reasons.Some? == muted
            && r.log == s.log + ToldBefore(muted, parts)
  {
    if true !in parts {
      PassingParts(s, [], parts);
      NoneFailing(parts);
    } else if s.reasons.None? {
      AfterTest(s, [], parts);
    } else {
      BetweenIsBody(s, [], parts);
      HushedBody(s, [], AsActions(parts));
      FailsAfter(parts);
    }
  }

  /** A part before the first test fails, and the name is that of the test it is charged to. */
  predicate Charged(current: Option<Test>, muted: bool, it: Iteration, name: string) {
    !muted && true in it.before && current.Some? && current.value.FullName() == name
  }

  predicate AnyFailed(muted: bool, it: Iteration) {
    (!muted && true in it.before) || exists i :: 0 <= i < |it.tests| && Failed(muted, it.tests, i)
  }

  lemma IterationNames(s: State, it: Iteration, name: string)
    requires Ready(s.current, it)
    ensures name in RunIteration(s, it).failedNames <==>
              Charged(s.current, s.reasons.Some?, it, name) || NameFailed(s.reasons.Some?, it.tests, name)
  {
    var start := IterationStartStep(s);
    BeforeTests(start, it.before);
    TestsFrom(Between(start, [], it.before), it.tests, name);
  }

  lemma SomeNameFailed(current: Option<Test>, muted: bool, it: Iteration)
    requires Ready(current, it)
    ensures AnyFailed(muted, it) <==>
              exists name :: Charged(current, muted, it, name) || NameFailed(muted, it.tests, name)
  {
    if !muted && true in it.before {
      assert Charged(current, muted, it, current.value.FullName());
    } else if i :| 0 <= i < |it.tests| && Failed(muted, it.tests, i) {
      assert NameFailed(muted, it.tests, it.tests[i].test.FullName());
    }
  }

  /** After an iteration the failed names are exactly those of the tests that count as failed
      in it and of the test that failures before the first one are charged to, and the flag is
      raised exactly if there is one. */
  lemma IterationIsExact(s: State, it: Iteration)
    requires Ready(s.current, it)
    ensures var r, muted := RunIteration(s, it), s.reasons.Some?;
            && (forall name :: name in r.failedNames <==>
                 Charged(s.current, muted, it, name) || NameFailed(muted, it.tests, name))
            && (r.failed <==> s.failed || AnyFailed(muted, it))
            && (r.reasons.Some? <==> MutedAfter(muted, it.tests))
  {
    var r, start := RunIteration(s, it), IterationStartStep(s);
    forall name
      ensures name in r.failedNames <==>
                Charged(s.current, s.reasons.Some?, it, name) || NameFailed(s.reasons.Some?, it.tests, name)
    {
      IterationNames(s, it, name);
    }
    BeforeTests(start, it.before);
    TestsMute(Between(start, [], it.before), it.tests);
    SomeNameFailed(s.current, s.reasons.Some?, it);
    if r.failedNames != {} {
      var name :| name in r.failedNames;
    }
  }

  /** The skipped names likewise: those of the tests with a failing part that does not count,
      and of the test that hidden failures before the first one are charged to. */
  lemma SkippedIsExact(s: State, it: Iteration, name: string)
    requires Ready(s.current, it)
    ensures name in RunIteration(s, it).skippedNames <==>
              || (s.reasons.Some? && true in it.before && s.current.value.FullName() == name)
              || NameSkipped(s.reasons.Some?, it.tests, name)
  {
    var start := IterationStartStep(s);
    BeforeTests(start, it.before);
    TestsSkip(Between(start, [], it.before), it.tests, name);
  }

  function ToldOfIteration(muted: bool, it: Iteration): seq<Report> {
    [IterationStarted] + (ToldBefore(muted, it.before) + ToldOfTests(muted, it.tests))
  }

  lemma IterationTold(s: State, it: Iteration)
    requires Ready(s.current, it)
    ensures RunIteration(s, it).log == s.log + ToldOfIteration(s.reasons.Some?, it)
  {
    var start, muted := IterationStartStep(s), s.reasons.Some?;
    BeforeTests(start, it.before);
    TestsTold(Between(start, [], it.before), it.tests);
    Associate(start.log, ToldBefore(muted, it.before), ToldOfTests(muted, it.tests));
    Associate(s.log, [IterationStarted], ToldBefore(muted, it.before) + ToldOfTests(muted, it.tests));
  }

  predicate SomeFailed(muted: bool, ts: seq<TestRun>) {
    exists i :: 0 <= i < |ts| && Failed(muted, ts, i)
  }

  lemma FailedSomewhere(muted: bool, ts: seq<TestRun>)
    requires ts != []
    ensures SomeFailed(muted, ts) <==> CountsAsFailed(muted, ts[0]) || SomeFailed(Leaks(ts[0]), ts[1..])
  {
    assert Failed(muted, ts, 0) == CountsAsFailed(muted, ts[0]);
    forall i | 0 <= i < |ts| - 1
      ensures Failed(Leaks(ts[0]), ts[1..], i) == Failed(muted, ts, i + 1)
    {
      assert i > 0 ==> ts[1..][..i][i - 1] == ts[..i + 1][i];
    }
    if SomeFailed(muted, ts) {
      var i :| 0 <= i < |ts| && Failed(muted, ts, i);
      assert i > 0 ==> Failed(Leaks(ts[0]), ts[1..], i - 1);
    }
  }

  lemma {:induction false} TestsTellIff(muted: bool, ts: seq<TestRun>)
    ensures TellsFailure(ToldOfTests(muted, ts)) <==> SomeFailed(muted, ts)
    decreases |ts|
  {
    if ts != [] {
      TestsTellIff(Leaks(ts[0]), ts[1..]);
      FailureToldIffCounted(muted, ts[0]);
      FailedSomewhere(muted, ts);
    }
  }

  /** Over a whole iteration the wrapped listener hears of a failing part exactly if something
      counts as failed in it. */
  lemma IterationTellsIff(muted: bool, it: Iteration)
    ensures TellsFailure(ToldOfIteration(muted, it)) <==> AnyFailed(muted, it)
  {
    PartsTell(AsActions(it.before));
    FailsAfter(it.before);
    TestsTellIff(muted, it.tests);
  }

  predicate MutedAtIteration(muted: bool, its: seq<Iteration>) {
    if its == [] then muted
    else MutedAfter(MutedAtIteration(muted, its[..|its| - 1]), its[|its| - 1].tests)
  }

  lemma {:induction false} MutedShift(muted: bool, its: seq<Iteration>)
    requires its != []
    ensures MutedAtIteration(muted, its) == MutedAtIteration(MutedAfter(muted, its[0].tests), its[1..])
  {
    var n := |its| - 1;
    if n > 0 {
      MutedShift(muted, its[..n]);
      assert its[..n][1..] == its[1..][..n - 1];
    } else {
      assert its[..0] == [] && its[1..] == [];
    }
  }

  predicate IterationFailed(muted: bool, its: seq<Iteration>, i: nat)
    requires i < |its|
  {
    AnyFailed(MutedAtIteration(muted, its[..i]), its[i])
  }

  predicate SomeIterationFailed(muted: bool, its: seq<Iteration>) {
    exists i :: 0 <= i < |its| && IterationFailed(muted, its, i)
  }

  lemma SomeFailedHeadOrTail(muted: bool, its: seq<Iteration>)
    requires its != []
    ensures SomeIterationFailed(muted, its) <==>
              AnyFailed(muted, its[0]) || SomeIterationFailed(MutedAfter(muted, its[0].tests), its[1..])
  {
    var next := MutedAfter(muted, its[0].tests);
    assert IterationFailed(muted, its, 0) == AnyFailed(muted, its[0]);
    forall i | 0 <= i < |its| - 1
      ensures IterationFailed(next, its[1..], i) == IterationFailed(muted, its, i + 1)
    {
      MutedShift(muted, its[..i + 1]);
      assert its[..i + 1][1..] == its[1..][..i];
    }
    if SomeIterationFailed(muted, its) {
      var i :| 0 <= i < |its| && IterationFailed(muted, its, i);
      if i > 0 {
        assert IterationFailed(next, its[1..], i - 1);
      }
    }
  }

  lemma {:induction false} ProgramFrom(s: State, its: seq<Iteration>)
    requires Defined(s.current, its)
    ensures RunProgram(s, its).failed <==>
              s.failed || SomeIterationFailed(s.reasons.Some?, its)
    decreases |its|
  {
    if its != [] {
      IterationIsExact(s, its[0]);
      ProgramFrom(RunIteration(s, its[0]), its[1..]);
      SomeFailedHeadOrTail(s.reasons.Some?, its);
    }
  }

  /** Over any number of iterations the program ends as failed exactly if in some iteration
      some test, or a part before the first one, counts as failed. */
  lemma {:induction false} FailedIffSomeTestFailed(its: seq<Iteration>)
    requires Defined(None, its)
    ensures RunProgram(Initial(), its).failed <==> SomeIterationFailed(false, its)
  {
    ProgramFrom(Initial(), its);
  }

  // ------------------------------------------------- when that is what one expects

  /** Skip reasons left behind hide its failure: it fails before any skip property of its own,
      and nothing that counts fails after it. */
  predicate Hides(muted: bool, t: TestRun) {
    muted && Fails(t.actions[..FirstSkip(t.actions)]) && (Skips(t) || true !in t.after)
  }

  /** A test is counted otherwise than expected exactly if its failure is hidden. */
  lemma MiscountedIff(muted: bool, t: TestRun)
    ensures CountsAsFailed(muted, t) <==> ShouldFail(t) && !Hides(muted, t)
    ensures CountsAsFailed(muted, t) != ShouldFail(t) <==> Hides(muted, t)
  {
  }

  /** Test number i of an iteration should fail and is not hidden. */
  predicate Shows(muted: bool, ts: seq<TestRun>, i: nat)
    requires i < |ts|
  {
    ShouldFail(ts[i]) && !Hides(MutedAfter(muted, ts[..i]), ts[i])
  }

  predicate SomeShows(muted: bool, ts: seq<TestRun>, name: string) {
    exists i :: 0 <= i < |ts| && ts[i].test.FullName() == name && Shows(muted, ts, i)
  }

  predicate SomeShouldFail(ts: seq<TestRun>, name: string) {
    exists i :: 0 <= i < |ts| && ts[i].test.FullName() == name && ShouldFail(ts[i])
  }

  lemma FailedIsShown(muted: bool, ts: seq<TestRun>, i: nat)
    requires i < |ts|
    ensures Failed(muted, ts, i) <==> Shows(muted, ts, i)
    ensures Shows(muted, ts, i) ==> ShouldFail(ts[i])
  {
    MiscountedIff(MutedAfter(muted, ts[..i]), ts[i]);
  }

  lemma ShownNames(muted: bool, ts: seq<TestRun>, name: string)
    ensures NameFailed(muted, ts, name) <==> SomeShows(muted, ts, name)
    ensures SomeShows(muted, ts, name) ==> SomeShouldFail(ts, name)
  {
    forall i | 0 <= i < |ts|
      ensures Failed(muted, ts, i) <==> Shows(muted, ts, i)
      ensures Shows(muted, ts, i) ==> ShouldFail(ts[i])
    {
      FailedIsShown(muted, ts, i);
    }
  }

  /** For every iteration: a name is listed exactly if some test of it should fail and is not
      hidden, or failures before the first test are charged to it. So it is listed as expected
      exactly if one of these is so where a test should fail, and nothing is charged to it where
      none should. */
  lemma ListedRightIff(s: State, it: Iteration, name: string)
    requires Ready(s.current, it)
    ensures var listed, muted := name in RunIteration(s, it).failedNames, s.reasons.Some?;
            var charged := Charged(s.current, muted, it, name);
            && (listed <==> SomeShows(muted, it.tests, name) || charged)
            && ((listed <==> SomeShouldFail(it.tests, name)) <==>
                if SomeShouldFail(it.tests, name) then SomeShows(muted, it.tests, name) || charged else !charged)
  {
    IterationNames(s, it, name);
    ShownNames(s.reasons.Some?, it.tests, name);
  }

  /** Such a charge: a set-up fails in an iteration after one with a passing test. */
  lemma SetUpFailureIsCharged(s: State, t: Test)
    requires s.current == Some(t) && s.reasons.None?
    ensures var it := Iteration([true], []);
            t.FullName() in RunIteration(s, it).failedNames && !SomeShouldFail(it.tests, t.FullName())
  {
    var it := Iteration([true], []);
    assert true in it.before;
    IterationNames(s, it, t.FullName());
  }

  predicate AnyShouldFail(it: Iteration) {
    true in it.before || exists j :: 0 <= j < |it.tests| && ShouldFail(it.tests[j])
  }

  predicate AnyShows(muted: bool, it: Iteration) {
    (true in it.before && !muted) || exists j :: 0 <= j < |it.tests| && Shows(muted, it.tests, j)
  }

  /** In iteration i of the program something should fail and is not hidden. */
  predicate IterationShows(its: seq<Iteration>, i: nat)
    requires i < |its|
  {
    AnyShows(MutedAtIteration(false, its[..i]), its[i])
  }

  predicate ProgramShows(its: seq<Iteration>) {
    exists i :: 0 <= i < |its| && IterationShows(its, i)
  }

  predicate ProgramShouldFail(its: seq<Iteration>) {
    exists i :: 0 <= i < |its| && AnyShouldFail(its[i])
  }

  lemma IterationFailedIsShown(muted: bool, it: Iteration)
    ensures AnyFailed(muted, it) <==> AnyShows(muted, it)
    ensures AnyShows(muted, it) ==> AnyShouldFail(it)
  {
    forall j | 0 <= j < |it.tests|
      ensures Failed(muted, it.tests, j) <==> Shows(muted, it.tests, j)
      ensures Shows(muted, it.tests, j) ==> ShouldFail(it.tests[j])
    {
      FailedIsShown(muted, it.tests, j);
    }
  }

  /** For every program of any number of iterations: it ends as failed exactly if some test, or a
      part before the first test of an iteration, should fail and is not hidden. So it is judged
      as expected exactly if nothing should fail or something that should shows. */
  lemma {:induction false} JudgedRightIff(its: seq<Iteration>)
    requires Defined(None, its)
    ensures var failed := RunProgram(Initial(), its).failed;
            && (failed <==> ProgramShows(its))
            && ((failed <==> ProgramShouldFail(its)) <==> (!ProgramShouldFail(its) || ProgramShows(its)))
  {
    FailedIffSomeTestFailed(its);
    forall i | 0 <= i < |its|
      ensures IterationFailed(false, its, i) <==> IterationShows(its, i)
      ensures IterationShows(its, i) ==> AnyShouldFail(its[i])
    {
      IterationFailedIsShown(MutedAtIteration(false, its[..i]), its[i]);
    }
  }

  predicate Orderly(ts: seq<TestRun>) {
    forall i :: 0 <= i < |ts| ==> !Leaks(ts[i])
  }

  lemma OrderlyShows(ts: seq<TestRun>, i: nat)
    requires Orderly(ts) && i < |ts|
    ensures Shows(false, ts, i) <==> ShouldFail(ts[i])
  {
  }

  /** Where no part fails before the first test or between a skipping test and the next one,
      which covers all tests whose parts come from inside them, nothing is hidden or charged: a
      test is listed as failed exactly if it has a failing part before any skip property. */
  lemma OrderlyTestsAreListedRight(s: State, it: Iteration, name: string)
    requires s.reasons.None? && Orderly(it.tests) && true !in it.before
    ensures name in RunIteration(s, it).failedNames <==> SomeShouldFail(it.tests, name)
    ensures RunIteration(s, it).reasons.None?
  {
    ListedRightIff(s, it, name);
    IterationIsExact(s, it);
    forall i | 0 <= i < |it.tests|
      ensures Shows(false, it.tests, i) <==> ShouldFail(it.tests[i])
    {
      OrderlyShows(it.tests, i);
    }
  }

  predicate AllOrderly(its: seq<Iteration>) {
    forall i :: 0 <= i < |its| ==> Orderly(its[i].tests)
  }

  lemma {:induction false} OrderlyNeverMutes(its: seq<Iteration>)
    requires AllOrderly(its)
    ensures !MutedAtIteration(false, its)
  {
    if its != [] {
      var n := |its| - 1;
      OrderlyNeverMutes(its[..n]);
      assert Orderly(its[n].tests);
    }
  }

  lemma OrderlyIterationShows(it: Iteration)
    requires Orderly(it.tests)
    ensures AnyShows(false, it) <==> AnyShouldFail(it)
  {
    forall j | 0 <= j < |it.tests|
      ensures Shows(false, it.tests, j) <==> ShouldFail(it.tests[j])
    {
      OrderlyShows(it.tests, j);
    }
  }

  /** And the program ends as failed exactly if something should fail in some iteration. */
  lemma {:induction false} OrderlyProgramsAreJudgedRight(its: seq<Iteration>)
    requires Defined(None, its) && AllOrderly(its)
    ensures RunProgram(Initial(), its).failed <==> ProgramShouldFail(its)
  {
    JudgedRightIff(its);
    if i :| 0 <= i < |its| && AnyShouldFail(its[i]) {
      OrderlyNeverMutes(its[..i]);
      OrderlyIterationShows(its[i]);
      assert IterationShows(its, i);
    }
  }

  /** A tear-down that fails after a skipping test hides the failure of the next test: the
      program ends as passed. */
  lemma TearDownFailureHidesNextTest(a: Test, b: Test)
    ensures var skipping := TestRun(a, [Record(Property(SKIP_KEY, "")), Outcome(true)], [true]);
            var failing := TestRun(b, [Outcome(true)], []);
            && Defined(None, [Iteration([], [skipping, failing])])
            && ShouldFail(failing)
            && !RunProgram(Initial(), [Iteration([], [skipping, failing])]).failed
  {
    var skipping := TestRun(a, [Record(Property(SKIP_KEY, "")), Outcome(true)], [true]);
    var failing := TestRun(b, [Outcome(true)], []);
    var ts := [skipping, failing];
    var its := [Iteration([], ts)];
    assert Ready(None, its[0]) && its[1..] == [];
    assert Skips(skipping) && Leaks(skipping) && FirstSkip(skipping.actions) == 0;
    assert FirstSkip(failing.actions) == 1 && failing.actions[..1][0] == Outcome(true);
    FailedIffSomeTestFailed(its);
    assert MutedAtIteration(false, its[..0]) == false;
    assert ts[..0] == [] && ts[..1][0] == skipping;
    assert !Failed(false, ts, 0) && !Failed(false, ts, 1);
  }

  // ------------------------------------------------------------------ the class

  class Listener {
    var currentTest: Option<Test>
    var currentSkipReasons: Option<seq<string>>
    var failedTestNames: set<string>
    var skippedTestNames: set<string>
    var hasFailed: bool
    var passedOn: seq<Report>

    function View(): State
      reads this
    {
      State(currentTest, currentSkipReasons, failedTestNames, skippedTestNames, hasFailed, passedOn)
    }

    constructor ()
      ensures View() == Initial()
    {
      currentTest, currentSkipReasons, failedTestNames, skippedTestNames := None, None, {}, {};
      hasFailed, passedOn := false, [];
    }

    method OnTestIterationStart()
      modifies this
      ensures View() == IterationStartStep(old(View()))
    {
      failedTestNames := {};
      skippedTestNames := {};
      passedOn := passedOn + [IterationStarted];
    }

    method OnTestStart(t: Test)
      modifies this
      ensures View() == StartStep(old(View()), t)
    {
      currentTest := Some(t);
      passedOn := passedOn + [Started(t)];
    }

    /** `props` are the properties recorded so far for the current test. Not defined for a
        failing part before the first test, where the original reads an uninitialised pointer. */
    method OnTestPartResult(failed: bool, props: seq<Property>) returns (defined: bool)
      modifies this
      ensures defined <==> !failed || old(currentTest).Some?
      ensures View() == if defined then PartStep(old(View()), props, failed) else old(View())
    {
      defined := !failed || currentTest.Some?;
      if !defined {
        return;
      }
      if failed {
        var i := 0;
        CollectedNothing(currentSkipReasons);
        while i < |props|
          invariant 0 <= i <= |props|
          invariant currentSkipReasons == Collected(old(currentSkipReasons), props[..i])
          invariant View() == old(View()).(reasons := currentSkipReasons)
        {
          CollectedNext(old(currentSkipReasons), props[..i], props[i]);
          assert props[..i] + [props[i]] == props[..i + 1];
          if props[i].key == SKIP_KEY {
            if currentSkipReasons.None? {
              currentSkipReasons := Some([]);
            }
            currentSkipReasons := Some(currentSkipReasons.value + [props[i].value]);
          }
          i := i + 1;
        }
        assert props[..|props|] == props;
        if currentSkipReasons.Some? {
          skippedTestNames := skippedTestNames + {currentTest.value.FullName()};
          return;
        }
        failedTestNames := failedTestNames + {currentTest.value.FullName()};
      }
      passedOn := passedOn + [Part(failed)];
    }

    /** Returns the reasons it prints. */
    method OnTestEnd(t: Test) returns (printed: seq<string>)
      modifies this
      ensures View() == EndStep(old(View()), t)
      ensures printed == if old(currentSkipReasons).Some? then old(currentSkipReasons).value else []
    {
      printed := [];
      if currentSkipReasons.Some? {
        printed := currentSkipReasons.value;
      } else {
        passedOn := passedOn + [Ended(t)];
      }
      currentSkipReasons := None;
    }

    method OnTestIterationEnd()
      modifies this
      ensures View() == IterationEndStep(old(View()))
    {
      if |failedTestNames| > 0 {
        hasFailed := true;
      }
    }
  }
}
