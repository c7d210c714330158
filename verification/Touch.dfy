/** The touch half of Client::Impl (src/in_process_server.cpp): down, up and motion events
    are collected and the frame event applies them, as the frame event of interface
    wl_touch, Wayland core protocol, asks for. FAIL() records a failure and returns, so
    everything here holds for arbitrary event streams. */
module Touch {
  import opened Common

  /** A touch id, int32_t on the wire. */
  type Id = i: int | -0x8000_0000 <= i < 0x8000_0000

  datatype Event =
    | Down(serial: nat, surface: Surface, id: Id, x: int, y: int)
    | Up(serial: nat, id: Id)
    | Motion(id: Id, x: int, y: int)
    | Frame

  type Touches = map<Id, Location>

  datatype State = State(current: Touches, pending: Touches, lifted: set<Id>)

  const INITIAL := State(map[], map[], {})

  /** The events for which no failure is recorded. */
  predicate Accepted(s: State, e: Event) {
    match e
    case Down(_, _, id, _, _) => id !in s.current
    case Up(_, id) => id in s.current
    case Motion(id, _, _) => id in s.current
    case Frame => true
  }

  function Step(s: State, e: Event): State {
    if !Accepted(s, e) then s else
    match e
    case Down(_, surface, id, x, y) => s.(pending := s.pending[id := Location(surface, x, y)])
    case Up(_, id) => s.(lifted := s.lifted + {id})
    case Motion(id, x, y) => s.(pending := s.pending[id := Location(s.current[id].surface, x, y)])
    case Frame => State(s.current - s.lifted + s.pending, map[], {})
  }

  function RunFrom(s: State, es: seq<Event>): State {
    if es == [] then s else Step(RunFrom(s, es[..|es| - 1]), es[|es| - 1])
  }

  function Run(es: seq<Event>): State { RunFrom(INITIAL, es) }

  // ------------------------------------------------------------------ invariant

  /** Only touches that are down can be lifted, and a pending location never moves a touch
      that is down to another surface. */
  predicate Inv(s: State) {
    && s.lifted <= s.current.Keys
    && forall id :: id in s.pending && id in s.current ==> s.pending[id].surface == s.current[id].surface
  }

  lemma {:induction false} RunKeepsInv(s: State, es: seq<Event>)
    requires Inv(s)
    ensures Inv(RunFrom(s, es))
  {
    if es != [] {
      RunKeepsInv(s, es[..|es| - 1]);
    }
  }

  lemma RunInv(es: seq<Event>)
    ensures Inv(Run(es))
  {
    RunKeepsInv(INITIAL, es);
  }

  // ------------------------------------------------------- a touch's surface

  /** The id is down in the state after every prefix of length from i to j. */
  ghost predicate StaysDown(es: seq<Event>, i: nat, j: nat, id: Id)
    requires j <= |es|
  {
    forall k :: i <= k <= j ==> id in Run(es[..k]).current
  }

  /** In every run a touch keeps its surface from the frame with which it appears until a
      frame after which it is absent. */
  lemma {:induction false} SurfaceIsFixed(es: seq<Event>, i: nat, j: nat, id: Id)
    requires i <= j <= |es| && StaysDown(es, i, j, id)
    ensures id in Run(es[..i]).current && id in Run(es[..j]).current
    ensures Run(es[..j]).current[id].surface == Run(es[..i]).current[id].surface
    decreases j - i
  {
    if i < j {
      SurfaceIsFixed(es, i, j - 1, id);
      RunInv(es[..j - 1]);
      assert es[..j][..j - 1] == es[..j - 1];
      assert id in Run(es[..j]).current;
    }
  }

  // ------------------------------------------------------- immediate handling

  /** The reference: a client without frames, which handles each event at once and by itself
      decides which ones to accept. */
  predicate AcceptedNow(ts: Touches, e: Event) {
    match e
    case Down(_, _, id, _, _) => id !in ts
    case Up(_, id) => id in ts
    case Motion(id, _, _) => id in ts
    case Frame => true
  }

  /** What an accepted event does at once: a lifted touch is gone and cannot move. */
  function Immediately(ts: Touches, e: Event): Touches {
    match e
    case Down(_, surface, id, x, y) => ts[id := Location(surface, x, y)]
    case Up(_, id) => ts - {id}
    case Motion(id, x, y) => if id in ts then ts[id := Location(ts[id].surface, x, y)] else ts
    case Frame => ts
  }

  function HandledNow(ts: Touches, e: Event): Touches {
    if AcceptedNow(ts, e) then Immediately(ts, e) else ts
  }

  function Immediate(es: seq<Event>): Touches {
    if es == [] then map[] else HandledNow(Immediate(es[..|es| - 1]), es[|es| - 1])
  }

  /** The touches that a frame would make current now. */
  function Effective(s: State): Touches { s.current - s.lifted + s.pending }

  /** An event on which batching shows, from a state on which it has not. An up shows if the
      touch has come down or moved in the frame; a down or a motion if the touch was lifted in
      the frame, or if it came down in the frame, at another place. */
  predicate Divides(s: State, e: Event) {
    match e
    case Down(_, surface, id, x, y) =>
      if id in s.current then id in s.lifted && id !in s.pending
      else id in s.pending && s.pending[id] != Location(surface, x, y)
    case Up(_, id) => id in s.pending
    case Motion(id, x, y) =>
      if id in s.current then id in s.lifted && id !in s.pending
      else id in s.pending && (s.pending[id].x != x || s.pending[id].y != y)
    case Frame => false
  }

  /** What the event does to one touch. */
  lemma DividesAt(s: State, e: Event, id: Id)
    requires Inv(s)
    ensures var batched, now := Effective(Step(s, e)), HandledNow(Effective(s), e);
            (id in batched <==> id in now) && (id in batched ==> batched[id] == now[id])
            <==> !(Divides(s, e) && e.id == id)
  {
  }

  lemma DividesIff(s: State, e: Event)
    requires Inv(s)
    ensures Effective(Step(s, e)) == HandledNow(Effective(s), e) <==> !Divides(s, e)
  {
    var batched, now := Effective(Step(s, e)), HandledNow(Effective(s), e);
    if Divides(s, e) {
      DividesAt(s, e, e.id);
    } else {
      forall id: Id
        ensures id in batched <==> id in now
        ensures id in batched ==> batched[id] == now[id]
      {
        DividesAt(s, e, id);
      }
      assert batched.Keys == now.Keys;
    }
  }

  predicate Undivided(es: seq<Event>) {
    es == [] || (Undivided(es[..|es| - 1]) && !Divides(Run(es[..|es| - 1]), es[|es| - 1]))
  }

  /** After each event a frame would make current what immediate handling has. */
  predicate NeverShows(es: seq<Event>) {
    && Run(es + [Frame]).current == Immediate(es)
    && (es == [] || NeverShows(es[..|es| - 1]))
  }

  lemma FrameCommits(es: seq<Event>)
    ensures Run(es + [Frame]).current == Effective(Run(es))
  {
    assert (es + [Frame])[..|es|] == es;
  }

  /** For every event stream: batching never shows in the touches, wherever the frame events
      come, exactly if no event of the stream divides the two. */
  lemma {:induction false} BatchingShowsIff(es: seq<Event>)
    ensures NeverShows(es) <==> Undivided(es)
  {
    FrameCommits(es);
    if es != [] {
      var front := es[..|es| - 1];
      BatchingShowsIff(front);
      FrameCommits(front);
      RunInv(front);
      DividesIff(Run(front), es[|es| - 1]);
    }
  }

  /** Such a stream: a tap within one frame stays down, since the up is refused. */
  lemma TapStaysDown(surface: Surface, id: Id, x: int, y: int)
    ensures var es := [Down(1, surface, id, x, y), Up(2, id)];
            && !Undivided(es) && Immediate(es) == map[]
            && Run(es + [Frame]).current == map[id := Location(surface, x, y)]
  {
    var one := [Down(1, surface, id, x, y)];
    var es := [Down(1, surface, id, x, y), Up(2, id)];
    assert one[..0] == [] && es[..1] == one;
    assert Run(one) == Step(RunFrom(INITIAL, one[..0]), one[0]);
    assert Run(one) == State(map[], map[id := Location(surface, x, y)], {});
    assert Immediate(one) == HandledNow(map[], one[0]);
    assert Immediate(one) == map[id := Location(surface, x, y)];
    assert es[1] == Up(2, id) && Divides(Run(one), es[1]);
    FrameCommits(es);
  }

  // ------------------------------------------------------- frames and replay

  /** Handling at once, from the state `s` on, the events that the client with frames accepts,
      and no others. */
  function Replay(s: State, es: seq<Event>): Touches {
    if es == [] then s.current
    else
      var front, e := es[..|es| - 1], es[|es| - 1];
      if Accepted(RunFrom(s, front), e) then Immediately(Replay(s, front), e) else Replay(s, front)
  }

  predicate NoFrame(es: seq<Event>) { forall k :: 0 <= k < |es| ==> !es[k].Frame? }

  predicate Moves(s: State, es: seq<Event>, id: Id) {
    es != [] && (Moves(s, es[..|es| - 1], id) || (es[|es| - 1].Motion? && es[|es| - 1].id == id && id in s.current))
  }

  predicate Lifts(s: State, es: seq<Event>, id: Id) {
    es != [] && (Lifts(s, es[..|es| - 1], id) || (es[|es| - 1].Up? && es[|es| - 1].id == id && id in s.current))
  }

  predicate MovesAndLifts(s: State, es: seq<Event>, id: Id) { Moves(s, es, id) && Lifts(s, es, id) }

  /** The state right after a frame. */
  predicate Fresh(s: State) { s.pending == map[] && s.lifted == {} }

  /** Within a frame, per id: what is pending and lifted, and what replay has made of it. */
  lemma {:induction false} WithinFrame(s: State, es: seq<Event>, id: Id)
    requires Fresh(s) && NoFrame(es)
    ensures var t, now := RunFrom(s, es), Replay(s, es);
            && t.current == s.current
            && (Moves(s, es, id) || Lifts(s, es, id) ==> id in s.current)
            && (id in t.lifted <==> Lifts(s, es, id))
            && (id in s.current ==> (id in t.pending <==> Moves(s, es, id)))
            && (id in now <==> (id in s.current && !Lifts(s, es, id)) || (id !in s.current && id in t.pending))
            && (id in now && id in t.pending ==> now[id] == t.pending[id])
            && (id in now && id !in t.pending ==> id in s.current && now[id] == s.current[id])
            && (id in s.current && id in t.pending ==> t.pending[id].surface == s.current[id].surface)
  {
    if es != [] {
      WithinFrame(s, es[..|es| - 1], id);
    }
  }

  /** For each frame of any run and each id, the frame and the replay of the events that the
      client accepted in it agree exactly if the id did not both move and lift in it. */
  lemma {:induction false} FrameAgreesAt(s: State, es: seq<Event>, id: Id)
    requires Fresh(s) && NoFrame(es)
    ensures var after, now := Step(RunFrom(s, es), Frame).current, Replay(s, es);
            && ((id in after <==> id in now) <==> !MovesAndLifts(s, es, id))
            && (id in after && id in now ==> after[id] == now[id])
            && (MovesAndLifts(s, es, id) ==> id in after && id !in now)
  {
    WithinFrame(s, es, id);
    var t := RunFrom(s, es);
    var kept := t.current - t.lifted;
    assert id in kept <==> id in s.current && !Lifts(s, es, id);
    assert Step(t, Frame).current == kept + t.pending;
  }

  /** The whole map: after the frame the touches are those that the events accepted in it lead
      to exactly if no id both moved and lifted. A touch that did stays, because pending moves
      are applied after the erasures. */
  lemma {:induction false} FrameIsReplay(s: State, es: seq<Event>)
    requires Fresh(s) && NoFrame(es)
    ensures Step(RunFrom(s, es), Frame).current == Replay(s, es)
            <==> forall id :: !MovesAndLifts(s, es, id)
  {
    var after, now := Step(RunFrom(s, es), Frame).current, Replay(s, es);
    if after == now {
      forall id: Id
        ensures !MovesAndLifts(s, es, id)
      {
        FrameAgreesAt(s, es, id);
      }
    }
    if forall id :: !MovesAndLifts(s, es, id) {
      forall id: Id
        ensures id in after <==> id in now
        ensures id in after ==> after[id] == now[id]
      {
        FrameAgreesAt(s, es, id);
      }
      assert after.Keys == now.Keys;
      assert after == now;
    }
  }

  /** Such a frame: a touch that is down moves and lifts, and stays down where it moved to. */
  lemma {:induction false} MovedAndLiftedStays(s: State, serial: nat, id: Id, x: int, y: int)
    requires Fresh(s) && id in s.current
    ensures id !in Replay(s, [Motion(id, x, y), Up(serial, id)])
    ensures Step(RunFrom(s, [Motion(id, x, y), Up(serial, id)]), Frame).current ==
            s.current[id := Location(s.current[id].surface, x, y)]
  {
  }

  // ------------------------------------------------------------------ the class

  lemma EraseOne(touches: Touches, ids: set<Id>, left: set<Id>, id: Id)
    requires id in left && left <= ids
    ensures touches - (ids - left) - {id} == touches - (ids - (left - {id}))
  {
    assert ids - (left - {id}) == ids - left + {id};
  }

  /** The first loop of touch_frame. */
  method Erase(touches: Touches, ids: set<Id>) returns (r: Touches)
    ensures r == touches - ids
  {
    r := touches;
    var left := ids;
    while left != {}
      invariant left <= ids
      invariant r == touches - (ids - left)
      decreases |left|
    {
      var id :| id in left;
      EraseOne(touches, ids, left, id);
      r := r - {id};
      left := left - {id};
    }
    assert ids - {} == ids;
  }

  lemma AssignOne(touches: Touches, more: Touches, left: set<Id>, id: Id)
    requires id in left && left <= more.Keys
    ensures (touches + (more - left))[id := more[id]] == touches + (more - (left - {id}))
  {
  }

  lemma AssignAll(touches: Touches, more: Touches)
    ensures touches + (more - more.Keys) == touches && more - {} == more
  {
  }

  /** The second loop of touch_frame. */
  method Assign(touches: Touches, more: Touches) returns (r: Touches)
    ensures r == touches + more
  {
    AssignAll(touches, more);
    r := touches;
    var left := more.Keys;
    while left != {}
      invariant left <= more.Keys
      invariant r == touches + (more - left)
      decreases |left|
    {
      var id :| id in left;
      AssignOne(touches, more, left, id);
      r := r[id := more[id]];
      left := left - {id};
    }
  }

  class TouchTracker {
    var currentTouches: Touches
    var pendingTouches: Touches
    var pendingUpTouches: set<Id>
    var latestSerial: nat
    var failures: nat

    function View(): State
      reads this
    {
      State(currentTouches, pendingTouches, pendingUpTouches)
    }

    constructor ()
      ensures View() == INITIAL && latestSerial == 0 && failures == 0
    {
      currentTouches, pendingTouches, pendingUpTouches := map[], map[], {};
      latestSerial, failures := 0, 0;
    }

    method OnDown(serial: nat, surface: Surface, id: Id, x: int, y: int)
      modifies this
      ensures View() == Step(old(View()), Down(serial, surface, id, x, y))
      ensures failures == old(failures) + if Accepted(old(View()), Down(serial, surface, id, x, y)) then 0 else 1
      ensures latestSerial == serial
    {
      latestSerial := serial;
      if id in currentTouches {
        failures := failures + 1;
        return;
      }
      pendingTouches := pendingTouches[id := Location(surface, x, y)];
    }

    method OnUp(serial: nat, id: Id)
      modifies this
      ensures View() == Step(old(View()), Up(serial, id))
      ensures failures == old(failures) + if Accepted(old(View()), Up(serial, id)) then 0 else 1
      ensures latestSerial == serial
    {
      latestSerial := serial;
      if id !in currentTouches {
        failures := failures + 1;
        return;
      }
      pendingUpTouches := pendingUpTouches + {id};
    }

    method OnMotion(id: Id, x: int, y: int)
      modifies this
      ensures View() == Step(old(View()), Motion(id, x, y))
      ensures failures == old(failures) + if Accepted(old(View()), Motion(id, x, y)) then 0 else 1
      ensures latestSerial == old(latestSerial)
    {
      if id !in currentTouches {
        failures := failures + 1;
        return;
      }
      pendingTouches := pendingTouches[id := Location(currentTouches[id].surface, x, y)];
    }

    method OnFrame()
      modifies this
      ensures View() == Step(old(View()), Frame)
      ensures failures == old(failures) && latestSerial == old(latestSerial)
    {
      currentTouches := Erase(currentTouches, pendingUpTouches);
      currentTouches := Assign(currentTouches, pendingTouches);
      pendingUpTouches := {};
      pendingTouches := map[];
    }
  }
}
