/** wl_output double buffering (Client::Impl::Output, src/in_process_server.cpp) and the
    xdg_output on top of it (src/xdg_output_v1.cpp), which shows its state only while no
    change is unfinished. */
module Outputs {
  import opened Common

  datatype OutputState = OutputState(
    geometryPosition: Option<(int, int)>, modeSize: Option<(int, int)>, scale: Option<int>)

  const UNKNOWN := OutputState(None, None, None)

  datatype XdgState = XdgState(
    logicalPosition: Option<(int, int)>, logicalSize: Option<(int, int)>,
    name: Option<string>, description: Option<string>)

  /** The events of one output and of the xdg_output for it, in the order of arrival. */
  datatype Event =
    | Geometry(x: int, y: int)
    | Mode(width: int, height: int)
    | Scale(factor: int)
    | Done
    | LogicalPosition(x: int, y: int)
    | LogicalSize(width: int, height: int)
    | Name(text: string)
    | Description(text: string)
    | XdgDone

  /** From version 3 on the wl_output's done event finishes a change of the xdg_output. */
  const DONE_IS_SHARED: nat := 3

  datatype State = State(current: OutputState, pending: OutputState, xdg: XdgState, dirty: bool)

  const INITIAL := State(UNKNOWN, UNKNOWN, XdgState(None, None, None, None), false)

  function Merged(a: OutputState, b: OutputState): OutputState {
    OutputState(
      Later(a.geometryPosition, b.geometryPosition), Later(a.modeSize, b.modeSize), Later(a.scale, b.scale))
  }

  /** The properties of the xdg_output are not double-buffered. */
  function XdgSet(xdg: XdgState, e: Event): XdgState {
    match e
    case LogicalPosition(x, y) => xdg.(logicalPosition := Some((x, y)))
    case LogicalSize(width, height) => xdg.(logicalSize := Some((width, height)))
    case Name(text) => xdg.(name := Some(text))
    case Description(text) => xdg.(description := Some(text))
    case _ => xdg
  }

  function Step(version: nat, s: State, e: Event): State {
    match e
    case Geometry(x, y) => s.(pending := s.pending.(geometryPosition := Some((x, y))))
    case Mode(width, height) => s.(pending := s.pending.(modeSize := Some((width, height))))
    case Scale(factor) => s.(pending := s.pending.(scale := Some(factor)))
    case Done =>
      s.(current := Merged(s.current, s.pending), pending := UNKNOWN,
         dirty := s.dirty && version < DONE_IS_SHARED)
    case XdgDone => s.(dirty := s.dirty && version >= DONE_IS_SHARED)
    case _ => s.(xdg := XdgSet(s.xdg, e), dirty := true)
  }

  function Run(version: nat, es: seq<Event>): State {
    if es == [] then INITIAL else Step(version, Run(version, es[..|es| - 1]), es[|es| - 1])
  }

  // ----------------------------------------------------------------- references

  /** The events before the last done. */
  function Finished(es: seq<Event>): seq<Event> {
    if es == [] then []
    else if es[|es| - 1].Done? then es[..|es| - 1]
    else Finished(es[..|es| - 1])
  }

  /** The last value sent for each property of the output. */
  function LastSent(es: seq<Event>): OutputState {
    if es == [] then UNKNOWN
    else
      var before := LastSent(es[..|es| - 1]);
      match es[|es| - 1]
      case Geometry(x, y) => before.(geometryPosition := Some((x, y)))
      case Mode(width, height) => before.(modeSize := Some((width, height)))
      case Scale(factor) => before.(scale := Some(factor))
      case _ => before
  }

  predicate XdgProperty(e: Event) { e.LogicalPosition? || e.LogicalSize? || e.Name? || e.Description? }

  /** The done event that finishes a change of an xdg_output of this version. */
  predicate Finishes(version: nat, e: Event) {
    if version >= DONE_IS_SHARED then e.Done? else e.XdgDone?
  }

  /** The done of the xdg_output itself below version 3, that of the wl_output from 3 on. */
  lemma DoneByVersion(version: nat, e: Event)
    ensures version < 3 ==> (Finishes(version, e) <==> e == XdgDone)
    ensures version >= 3 ==> (Finishes(version, e) <==> e == Done)
  {
  }

  /** Some property event has no such done event after it. */
  ghost predicate Unfinished(version: nat, es: seq<Event>) {
    exists k :: 0 <= k < |es| && XdgProperty(es[k]) && forall j :: k < j < |es| ==> !Finishes(version, es[j])
  }

  lemma {:induction false} PendingOnCurrentIsLastSent(version: nat, es: seq<Event>)
    ensures var s := Run(version, es); Merged(s.current, s.pending) == LastSent(es)
  {
    if es != [] {
      PendingOnCurrentIsLastSent(version, es[..|es| - 1]);
    }
  }

  /** For every event sequence each visible field is the last value sent before the last done. */
  lemma {:induction false} VisibleIsLastBeforeDone(version: nat, es: seq<Event>)
    ensures Run(version, es).current == LastSent(Finished(es))
  {
    if es != [] {
      var front := es[..|es| - 1];
      VisibleIsLastBeforeDone(version, front);
      PendingOnCurrentIsLastSent(version, front);
    }
  }

  /** The state of the xdg_output is refused exactly while a property event lacks the done
      event that its version goes by. */
  lemma {:induction false} DirtyIffUnfinished(version: nat, es: seq<Event>)
    ensures Run(version, es).dirty <==> Unfinished(version, es)
  {
    if es != [] {
      var front, e := es[..|es| - 1], es[|es| - 1];
      DirtyIffUnfinished(version, front);
      if XdgProperty(e) {
        assert XdgProperty(es[|es| - 1]);
      }
      if Unfinished(version, front) && !Finishes(version, e) {
        var k :| && 0 <= k < |front| && XdgProperty(front[k])
                 && forall j :: k < j < |front| ==> !Finishes(version, front[j]);
        assert XdgProperty(es[k]);
        forall j | k < j < |es|
          ensures !Finishes(version, es[j])
        {
          assert j < |front| ==> es[j] == front[j];
        }
      }
      if Unfinished(version, es) && !XdgProperty(e) {
        var k :| 0 <= k < |es| && XdgProperty(es[k]) && forall j :: k < j < |es| ==> !Finishes(version, es[j]);
        assert XdgProperty(front[k]);
        assert forall j :: k < j < |front| ==> front[j] == es[j];
        assert !Finishes(version, es[|es| - 1]);
      }
    }
  }

  /** The last value sent of each property of the xdg_output. */
  function LastPosition(es: seq<Event>): Option<(int, int)> {
    if es == [] then None
    else if es[|es| - 1].LogicalPosition? then Some((es[|es| - 1].x, es[|es| - 1].y))
    else LastPosition(es[..|es| - 1])
  }

  function LastSize(es: seq<Event>): Option<(int, int)> {
    if es == [] then None
    else if es[|es| - 1].LogicalSize? then Some((es[|es| - 1].width, es[|es| - 1].height))
    else LastSize(es[..|es| - 1])
  }

  function LastName(es: seq<Event>): Option<string> {
    if es == [] then None
    else if es[|es| - 1].Name? then Some(es[|es| - 1].text)
    else LastName(es[..|es| - 1])
  }

  function LastDescription(es: seq<Event>): Option<string> {
    if es == [] then None
    else if es[|es| - 1].Description? then Some(es[|es| - 1].text)
    else LastDescription(es[..|es| - 1])
  }

  /** For every event sequence the xdg_output holds the last value sent of each property, done
      or not. */
  lemma {:induction false} XdgIsLastSent(version: nat, es: seq<Event>)
    ensures Run(version, es).xdg == XdgState(LastPosition(es), LastSize(es), LastName(es), LastDescription(es))
  {
    if es != [] {
      XdgIsLastSent(version, es[..|es| - 1]);
    }
  }

  // ------------------------------------------------------------------ the classes

  class XdgOutput {
    const version: nat
    var dirty: bool
    var xdg: XdgState
    var alive: bool      // the shared pointer that the done notifier holds weakly

    constructor (version: nat)
      ensures this.version == version && !dirty && alive && xdg == INITIAL.xdg
    {
      this.version, dirty, alive, xdg := version, false, true, INITIAL.xdg;
    }

    method OnProperty(e: Event)
      requires XdgProperty(e)
      modifies this
      ensures dirty && xdg == XdgSet(old(xdg), e) && alive == old(alive)
    {
      match e {
        case LogicalPosition(x, y) => xdg := xdg.(logicalPosition := Some((x, y)));
        case LogicalSize(width, height) => xdg := xdg.(logicalSize := Some((width, height)));
        case Name(text) => xdg := xdg.(name := Some(text));
        case Description(text) => xdg := xdg.(description := Some(text));
      }
      dirty := true;
    }

    method OnDone()
      modifies this
      ensures dirty == (old(dirty) && !Finishes(version, XdgDone))
      ensures xdg == old(xdg) && alive == old(alive)
    {
      if version < DONE_IS_SHARED {
        dirty := false;
      }
    }

    /** The destructor of XdgOutputV1: from now on the weak pointer is empty. */
    method Release()
      modifies this
      ensures !alive && dirty == old(dirty) && xdg == old(xdg)
    {
      alive := false;
    }

    /** None where the original throws a logic_error. */
    method State() returns (r: Option<XdgState>)
      ensures r == if dirty then None else Some(xdg)
    {
      if dirty {
        return None;
      }
      return Some(xdg);
    }
  }

  class Output {
    var current: OutputState
    var pending: OutputState
    var doneNotifiers: seq<XdgOutput>

    constructor ()
      ensures current == UNKNOWN && pending == UNKNOWN && doneNotifiers == []
    {
      current, pending, doneNotifiers := UNKNOWN, UNKNOWN, [];
    }

    method OnGeometry(x: int, y: int)
      modifies this
      ensures pending == old(pending).(geometryPosition := Some((x, y)))
      ensures current == old(current) && doneNotifiers == old(doneNotifiers)
    {
      pending := pending.(geometryPosition := Some((x, y)));
    }

    method OnMode(width: int, height: int)
      modifies this
      ensures pending == old(pending).(modeSize := Some((width, height)))
      ensures current == old(current) && doneNotifiers == old(doneNotifiers)
    {
      pending := pending.(modeSize := Some((width, height)));
    }

    method OnScale(factor: int)
      modifies this
      ensures pending == old(pending).(scale := Some(factor))
      ensures current == old(current) && doneNotifiers == old(doneNotifiers)
    {
      pending := pending.(scale := Some(factor));
    }

    /** The constructor of XdgOutputV1 registers a notifier from version 3 on. */
    method Watch(x: XdgOutput)
      modifies this
      ensures doneNotifiers == old(doneNotifiers) + if Finishes(x.version, Done) then [x] else []
      ensures current == old(current) && pending == old(pending)
    {
      if x.version >= DONE_IS_SHARED {
        doneNotifiers := doneNotifiers + [x];
      }
    }

    method OnDone()
      modifies this, doneNotifiers
      ensures current == Merged(old(current), old(pending)) && pending == UNKNOWN
      ensures doneNotifiers == old(doneNotifiers)
      ensures forall x :: x in doneNotifiers ==>
                x.dirty == (old(x.dirty) && !x.alive) && x.alive == old(x.alive) && x.xdg == old(x.xdg)
    {
      if pending.geometryPosition.Some? {
        current := current.(geometryPosition := pending.geometryPosition);
      }
      if pending.modeSize.Some? {
        current := current.(modeSize := pending.modeSize);
      }
      if pending.scale.Some? {
        current := current.(scale := pending.scale);
      }
      pending := UNKNOWN;
      for i := 0 to |doneNotifiers|
        invariant current == Merged(old(current), old(pending)) && pending == UNKNOWN
        invariant doneNotifiers == old(doneNotifiers)
        invariant forall x :: x in doneNotifiers ==> x.alive == old(x.alive) && x.xdg == old(x.xdg)
        invariant forall x :: x in doneNotifiers[..i] ==> x.dirty == (old(x.dirty) && !x.alive)
        invariant forall x :: x in doneNotifiers && x !in doneNotifiers[..i] ==> x.dirty == old(x.dirty)
      {
        var x := doneNotifiers[i];
        if x.alive {
          x.dirty := false;
        }
      }
    }
  }
}
