/** WaylandExecutor (example/mir_integration.cpp): a work queue under a recursive mutex and
    a semaphore eventfd that wakes the event loop.

    First the step system of any number of spawning threads and the loop; then the class
    itself, whose notification handler is shown to be one of its runs. */
module Executor {

  /** A queued std::function: empty, or an item that spawns some more work when it runs. */
  datatype Work = Nothing | Item(id: nat, spawns: seq<Work>)

  /** The event loop: outside on_notify; in it but without the mutex; looking for work;
      inside a work item. It holds the mutex in the last two. */
  datatype Loop = Idle | Woken | Draining | Running(work: Work)

  /** The thread of the event loop; the others are any other numbers. */
  const LOOP: nat := 0

  datatype State = State(
    queue: seq<Work>,
    counter: nat,             // of the eventfd
    writing: set<nat>,        // threads inside spawn that have pushed but not written
    loop: Loop,
    // history
    spawned: seq<Work>,
    taken: seq<Work>)

  const INITIAL := State([], 0, {}, Idle, [], [])

  datatype Label = Push(t: nat, work: Work) | Write(t: nat) | Wake | Lock | Take | Finish

  /** Pushing needs the mutex, which the loop may take again while it holds it. */
  predicate MayLock(loop: Loop, t: nat) {
    if t == LOOP then loop.Idle? || loop.Running? else loop.Idle? || loop.Woken?
  }

  predicate Enabled(s: State, l: Label) {
    match l
    case Push(t, _) => t !in s.writing && MayLock(s.loop, t)
    case Write(t) => t in s.writing
    case Wake => s.loop.Idle? && LOOP !in s.writing && s.counter > 0
    case Lock => s.loop.Woken?
    case Take => s.loop.Draining?
    case Finish => s.loop.Running? && LOOP !in s.writing
  }

  function Apply(s: State, l: Label): State
    requires Enabled(s, l)
  {
    match l
    case Push(t, work) =>
      s.(queue := s.queue + [work], spawned := s.spawned + [work], writing := s.writing + {t})
    case Write(t) => s.(counter := s.counter + 1, writing := s.writing - {t})
    case Wake => s.(counter := s.counter - 1, loop := Woken)
    case Lock => s.(loop := Draining)
    case Take =>
      if s.queue == [] then s.(loop := Idle) else
      var work := s.queue[0];
      s.(queue := s.queue[1..], taken := s.taken + [work], loop := if work.Nothing? then Idle else Running(work))
    case Finish => s.(loop := Draining)
  }

  /** The labels can be taken one after the other from `s`. */
  predicate Valid(s: State, ls: seq<Label>)
    decreases |ls|
  {
    ls != [] ==> Enabled(s, ls[0]) && Valid(Apply(s, ls[0]), ls[1..])
  }

  function After(s: State, ls: seq<Label>): State
    requires Valid(s, ls)
    decreases |ls|
  {
    if ls == [] then s else After(Apply(s, ls[0]), ls[1..])
  }

  lemma {:induction false} AfterConcat(s: State, ls: seq<Label>, ms: seq<Label>)
    requires Valid(s, ls) && Valid(After(s, ls), ms)
    ensures Valid(s, ls + ms) && After(s, ls + ms) == After(After(s, ls), ms)
    decreases |ls|
  {
    if ls == [] {
      assert ls + ms == ms;
    } else {
      AfterConcat(Apply(s, ls[0]), ls[1..], ms);
      assert (ls + ms)[1..] == ls[1..] + ms;
    }
  }

  // ------------------------------------------------------------- the invariant

  /** Enough wakeups are on their way for the work that is queued. */
  predicate Covered(s: State) {
    |s.queue| <= s.counter + |s.writing| + (if s.loop.Idle? then 0 else 1)
  }

  /** Work leaves the queue in the order of the spawns, and none is lost or repeated. */
  predicate InOrder(s: State) {
    s.taken + s.queue == s.spawned
  }

  lemma StepKeepsCover(s: State, l: Label)
    requires Covered(s) && Enabled(s, l)
    ensures Covered(Apply(s, l))
  {
  }

  lemma StepKeepsOrder(s: State, l: Label)
    requires InOrder(s) && Enabled(s, l)
    ensures InOrder(Apply(s, l))
  {
  }

  lemma {:induction false} RunKeepsInvariant(s: State, ls: seq<Label>)
    requires Covered(s) && InOrder(s) && Valid(s, ls)
    ensures Covered(After(s, ls)) && InOrder(After(s, ls))
    decreases |ls|
  {
    if ls != [] {
      StepKeepsCover(s, ls[0]);
      StepKeepsOrder(s, ls[0]);
      RunKeepsInvariant(Apply(s, ls[0]), ls[1..]);
    }
  }

  /** In every reachable state the wakeups cover the queue, and what was taken followed by
      what is queued is what was spawned, in order. */
  lemma {:induction false} NoLostWakeup(ls: seq<Label>)
    requires Valid(INITIAL, ls)
    ensures var s := After(INITIAL, ls);
            && |s.queue| <= s.counter + |s.writing| + (if s.loop.Idle? then 0 else 1)
            && s.taken + s.queue == s.spawned
            && (s.queue != [] && s.loop.Idle? && s.writing == {} ==> Enabled(s, Wake))
  {
    RunKeepsInvariant(INITIAL, ls);
  }

  // ------------------------------------------------------------------ progress

  function LoopRank(loop: Loop): nat {
    match loop
    case Idle => 0
    case Draining => 1
    case Woken => 2
    case Running(_) => 2
  }

  function Measure(s: State): nat {
    4 * |s.writing| + 3 * s.counter + 2 * |s.queue| + LoopRank(s.loop)
  }

  lemma StepDecreases(s: State, l: Label)
    requires Enabled(s, l) && !l.Push?
    ensures Measure(Apply(s, l)) < Measure(s)
  {
  }

  predicate NoPush(ls: seq<Label>) {
    ls != [] ==> !ls[0].Push? && NoPush(ls[1..])
  }

  /** No further step but a spawn is possible. */
  ghost predicate Quiescent(s: State) {
    forall l: Label :: Enabled(s, l) ==> l.Push?
  }

  lemma QuiescentIsDrained(s: State)
    requires Quiescent(s) && Covered(s) && InOrder(s)
    ensures s.loop.Idle? && s.writing == {} && s.counter == 0 && s.queue == [] && s.taken == s.spawned
  {
    forall t | t in s.writing
      ensures false
    {
      assert Enabled(s, Write(t));
    }
    assert !Enabled(s, Wake) && !Enabled(s, Lock) && !Enabled(s, Take) && !Enabled(s, Finish);
    assert s.taken + [] == s.taken;
  }

  /** Once spawning stops, every schedule ends after a bounded number of steps, and where it
      can go no further all spawned work has been taken, each piece once, in spawn order. */
  lemma {:induction false} AllWorkIsTaken(s: State, ls: seq<Label>)
    requires Covered(s) && InOrder(s) && Valid(s, ls) && NoPush(ls)
    ensures |ls| <= Measure(s)
    ensures Quiescent(After(s, ls)) ==> After(s, ls).queue == [] && After(s, ls).taken == s.spawned
    decreases |ls|
  {
    if ls == [] {
      if Quiescent(s) {
        QuiescentIsDrained(s);
      }
    } else {
      StepKeepsCover(s, ls[0]);
      StepKeepsOrder(s, ls[0]);
      StepDecreases(s, ls[0]);
      AllWorkIsTaken(Apply(s, ls[0]), ls[1..]);
    }
  }

  // ------------------------------------------------------------------ one drain

  function Size(work: Work): nat {
    match work
    case Nothing => 1
    case Item(_, spawns) => 1 + TotalSize(spawns)
  }

  function TotalSize(works: seq<Work>): nat {
    if works == [] then 0 else Size(works[0]) + TotalSize(works[1..])
  }

  lemma {:induction false} TotalSizeConcat(a: seq<Work>, b: seq<Work>)
    ensures TotalSize(a + b) == TotalSize(a) + TotalSize(b)
  {
    if a == [] {
      assert a + b == b;
    } else {
      TotalSizeConcat(a[1..], b);
      assert (a + b)[1..] == a[1..] + b;
    }
  }

  lemma {:induction false} TailIsSmaller(queue: seq<Work>)
    requires queue != [] && queue[0].Item?
    ensures TotalSize(queue[1..] + queue[0].spawns) < TotalSize(queue)
  {
    TotalSizeConcat(queue[1..], queue[0].spawns);
  }

  /** What one drain of `queue` takes out of it, spawns into it and leaves in it. */
  datatype Drained = Drained(taken: seq<Work>, spawned: seq<Work>, rest: seq<Work>)

  function Drain(queue: seq<Work>): Drained
    decreases TotalSize(queue)
  {
    if queue == [] then Drained([], [], [])
    else if queue[0].Nothing? then Drained([queue[0]], [], queue[1..])
    else
      TailIsSmaller(queue);
      var d := Drain(queue[1..] + queue[0].spawns);
      Drained([queue[0]] + d.taken, queue[0].spawns + d.spawned, d.rest)
  }

  lemma Regroup(queue: seq<Work>, spawns: seq<Work>, d: Drained)
    requires queue != [] && d.taken + d.rest == queue[1..] + spawns + d.spawned
    ensures [queue[0]] + d.taken + d.rest == queue + (spawns + d.spawned)
  {
    assert [queue[0]] + d.taken + d.rest == [queue[0]] + (d.taken + d.rest);
    assert [queue[0]] + (queue[1..] + spawns + d.spawned) == [queue[0]] + queue[1..] + (spawns + d.spawned);
    assert [queue[0]] + queue[1..] == queue;
  }

  /** All that these spawn when they run. */
  function SpawnsOf(works: seq<Work>): seq<Work> {
    if works == [] then []
    else (if works[0].Item? then works[0].spawns else []) + SpawnsOf(works[1..])
  }

  /** A drain keeps the order and loses nothing; everything it takes runs and spawns; and it
      stops at the first empty function, or else when nothing is left. */
  lemma {:induction false} DrainConserves(queue: seq<Work>)
    ensures var d := Drain(queue);
            && d.taken + d.rest == queue + d.spawned
            && d.spawned == SpawnsOf(d.taken)
            && (forall k :: 0 <= k < |d.taken| - 1 ==> d.taken[k].Item?)
            && (d.rest != [] ==> d.taken != [] && d.taken[|d.taken| - 1].Nothing?)
    decreases TotalSize(queue)
  {
    if queue != [] && queue[0].Item? {
      TailIsSmaller(queue);
      var d := Drain(queue[1..] + queue[0].spawns);
      DrainConserves(queue[1..] + queue[0].spawns);
      Regroup(queue, queue[0].spawns, d);
      assert ([queue[0]] + d.taken)[1..] == d.taken;
    } else if queue != [] {
      assert [queue[0]] + queue[1..] == queue + [];
      assert SpawnsOf([queue[0]]) == [];
    }
  }

  function SpawnLabels(works: seq<Work>): seq<Label> {
    if works == [] then [] else [Push(LOOP, works[0]), Write(LOOP)] + SpawnLabels(works[1..])
  }

  lemma {:induction false} SpawningIsARun(s: State, works: seq<Work>)
    requires s.loop.Running? && LOOP !in s.writing
    ensures Valid(s, SpawnLabels(works))
    ensures After(s, SpawnLabels(works)) ==
            s.(queue := s.queue + works, spawned := s.spawned + works, counter := s.counter + |works|)
    decreases |works|
  {
    if works == [] {
      assert s.queue + [] == s.queue && s.spawned + [] == s.spawned;
    } else {
      var p := Apply(s, Push(LOOP, works[0]));
      var q := Apply(p, Write(LOOP));
      assert q.writing == s.writing;
      SpawningIsARun(q, works[1..]);
      var ls := SpawnLabels(works);
      assert ls[1..][1..] == SpawnLabels(works[1..]);
      assert s.queue + [works[0]] + works[1..] == s.queue + works;
      assert s.spawned + [works[0]] + works[1..] == s.spawned + works;
    }
  }

  function DrainLabels(queue: seq<Work>): seq<Label>
    decreases TotalSize(queue)
  {
    if queue == [] || queue[0].Nothing? then [Take]
    else
      TailIsSmaller(queue);
      [Take] + (SpawnLabels(queue[0].spawns) + ([Finish] + DrainLabels(queue[1..] + queue[0].spawns)))
  }

  function DrainedState(s: State, d: Drained): State {
    s.(queue := d.rest, taken := s.taken + d.taken, spawned := s.spawned + d.spawned,
       counter := s.counter + |d.spawned|, loop := Idle)
  }

  function AfterDrain(s: State): State { DrainedState(s, Drain(s.queue)) }

  lemma DrainedOneMore(s: State, r: State, work: Work, d: Drained)
    requires work.Item?
    requires r == s.(queue := r.queue, taken := s.taken + [work], spawned := s.spawned + work.spawns,
                     counter := s.counter + |work.spawns|, loop := r.loop)
    ensures DrainedState(r, d) == DrainedState(s, Drained([work] + d.taken, work.spawns + d.spawned, d.rest))
  {
  }

  /** The drain loop, with the spawns of the items it runs, is a run of the step system. */
  lemma {:induction false} DrainIsARun(s: State)
    requires s.loop.Draining? && LOOP !in s.writing
    ensures Valid(s, DrainLabels(s.queue))
    ensures After(s, DrainLabels(s.queue)) == AfterDrain(s)
    decreases TotalSize(s.queue)
  {
    if s.queue == [] || s.queue[0].Nothing? {
      assert [Take][1..] == [];
      var d := Drain(s.queue);
      assert s.taken + [] == s.taken && s.spawned + [] == s.spawned;
    } else {
      var work := s.queue[0];
      var tail := s.queue[1..] + work.spawns;
      TailIsSmaller(s.queue);
      var p := Apply(s, Take);
      SpawningIsARun(p, work.spawns);
      var q := After(p, SpawnLabels(work.spawns));
      var r := Apply(q, Finish);
      assert r.queue == tail;
      DrainIsARun(r);
      var rest := [Finish] + DrainLabels(tail);
      assert rest[1..] == DrainLabels(tail);
      AfterConcat(p, SpawnLabels(work.spawns), rest);
      assert DrainLabels(s.queue)[1..] == SpawnLabels(work.spawns) + rest;
      DrainedOneMore(s, r, work, Drain(tail));
    }
  }

  // ------------------------------------------------------------------ the class

  /** The executor as the loop's thread sees it, with no other thread in between. */
  class WaylandExecutor {
    var workqueue: seq<Work>
    var counter: nat
    ghost var spawned: seq<Work>
    ghost var taken: seq<Work>

    ghost function View(loop: Loop): State
      reads this
    {
      State(workqueue, counter, {}, loop, spawned, taken)
    }

    constructor ()
      ensures View(Idle) == INITIAL
    {
      workqueue, counter, spawned, taken := [], 0, [], [];
    }

    method Spawn(work: Work)
      modifies this
      ensures workqueue == old(workqueue) + [work] && counter == old(counter) + 1
      ensures spawned == old(spawned) + [work] && taken == old(taken)
    {
      workqueue := workqueue + [work];
      spawned := spawned + [work];
      counter := counter + 1;
    }

    /** Nothing both for an empty queue and for a queued empty function. */
    method GetWork() returns (work: Work)
      modifies this
      ensures old(workqueue) == [] ==> work == Nothing && workqueue == [] && taken == old(taken)
      ensures old(workqueue) != [] ==>
                [work] + workqueue == old(workqueue) && taken == old(taken) + [work]
      ensures counter == old(counter) && spawned == old(spawned)
    {
      if workqueue != [] {
        work := workqueue[0];
        workqueue := workqueue[1..];
        taken := taken + [work];
      } else {
        work := Nothing;
      }
    }

    method RunItem(work: Work)
      requires work.Item?
      modifies this
      ensures workqueue == old(workqueue) + work.spawns && spawned == old(spawned) + work.spawns
      ensures counter == old(counter) + |work.spawns| && taken == old(taken)
    {
      var spawns := work.spawns;
      for i := 0 to |spawns|
        invariant workqueue == old(workqueue) + spawns[..i] && spawned == old(spawned) + spawns[..i]
        invariant counter == old(counter) + i && taken == old(taken)
      {
        Spawn(spawns[i]);
        assert spawns[..i + 1] == spawns[..i] + [spawns[i]];
      }
      assert spawns[..|spawns|] == spawns;
    }

    /** One round of the drain loop; false when get_work returned an empty function. */
    method TakeAndRun() returns (more: bool)
      modifies this
      ensures more ==> TotalSize(workqueue) < TotalSize(old(workqueue))
      ensures more ==> AfterDrain(View(Draining)) == AfterDrain(old(View(Draining)))
      ensures !more ==> View(Idle) == AfterDrain(old(View(Draining)))
    {
      var work := GetWork();
      more := work.Item?;
      if more {
        ghost var s := old(View(Draining));
        TailIsSmaller(s.queue);
        assert s.queue[0] == work && s.queue[1..] == workqueue;
        RunItem(work);
        DrainedOneMore(s, View(Draining), work, Drain(workqueue));
      }
    }

    /** The notification handler. A failed read of the eventfd is only logged. */
    method OnNotify()
      modifies this
      ensures View(Idle) ==
              AfterDrain(old(View(Draining)).(counter := if old(counter) > 0 then old(counter) - 1 else 0))
    {
      if counter > 0 {
        counter := counter - 1;
      }
      ghost var end := AfterDrain(View(Draining));
      var more := true;
      while more
        invariant if more then AfterDrain(View(Draining)) == end else View(Idle) == end
        decreases more, TotalSize(workqueue)
      {
        more := TakeAndRun();
      }
    }
  }

  /** A call of the handler on a pending notification is a run of the step system, also while
      other threads are in the middle of a spawn. */
  lemma {:induction false} OnNotifyIsARun(s: State)
    requires s.loop.Idle? && LOOP !in s.writing && s.counter > 0
    ensures Valid(s, [Wake, Lock] + DrainLabels(s.queue))
    ensures After(s, [Wake, Lock] + DrainLabels(s.queue)) ==
            AfterDrain(s.(counter := s.counter - 1))
  {
    var ls := [Wake, Lock] + DrainLabels(s.queue);
    var p := Apply(s, Wake);
    var q := Apply(p, Lock);
    assert ls[1..][1..] == DrainLabels(s.queue);
    DrainIsARun(q);
  }
}
