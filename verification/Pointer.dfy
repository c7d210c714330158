/** The pointer half of Client::Impl (src/in_process_server.cpp): enter, leave, motion and
    button events change pending state, and the frame event makes it current and notifies,
    as the frame event of interface wl_pointer, Wayland core protocol, asks for.

    FAIL() records a failure and returns, so runs go on after bad events; everything here
    holds for arbitrary event streams. */
module Pointer {
  import opened Common

  datatype Press = Press(serial: nat, down: bool)

  datatype Event =
    | Enter(serial: nat, surface: Surface, x: int, y: int)
    | Leave(serial: nat, surface: Surface)
    | Motion(x: int, y: int)
    | Button(serial: nat, button: nat, down: bool)
    | Frame

  datatype Notice =
    | Entered(surface: Surface, x: int, y: int)
    | Left(surface: Surface)
    | Moved(x: int, y: int)
    | Pressed(serial: nat, button: nat, down: bool)

  datatype State = State(
    current: Option<Location>,
    pending: Option<Location>,
    leaving: bool,
    buttons: map<nat, Press>,
    serial: Option<nat>)

  const INITIAL := State(None, None, false, map[], None)

  // ------------------------------------------------------------- specification

  /** The events for which no failure is recorded. */
  predicate Accepted(s: State, e: Event) {
    match e
    case Enter(_, _, _, _) => s.current.None? || s.leaving
    case Leave(_, surface) => s.current.Some? && (surface == NULL || surface == s.current.value.surface)
    case Motion(_, _) => s.current.Some? || s.pending.Some?
    case Button(_, _, _) => true
    case Frame => !s.leaving || s.current.Some?
  }

  function Serial(s: State, e: Event): Option<nat> {
    if e.Motion? || e.Frame? then s.serial else Some(e.serial)
  }

  /** The location that the events so far, frame or not, have led to. */
  function Effective(s: State): Option<Location> {
    if s.pending.Some? then s.pending else if s.leaving then None else s.current
  }

  /** The surface a motion is taken to be on. */
  function MotionSurface(s: State): Surface
    requires Accepted(s, Motion(0, 0))
  {
    if s.pending.Some? then s.pending.value.surface else s.current.value.surface
  }

  predicate IsLeast(r: nat, ids: set<nat>) { r in ids && forall i :: i in ids ==> r <= i }

  lemma {:induction false} FindLeast(ids: set<nat>) returns (r: nat)
    requires ids != {}
    ensures IsLeast(r, ids)
  {
    var x :| x in ids;
    var rest := ids - {x};
    assert ids == rest + {x};
    r := x;
    if rest != {} {
      r := FindLeast(rest);
      r := if x < r then x else r;
    }
  }

  lemma LeastExists(ids: set<nat>)
    requires ids != {}
    ensures exists r :: IsLeast(r, ids)
  {
    var r := FindLeast(ids);
  }

  /** The first key in the order of std::map. */
  function Least(ids: set<nat>): (r: nat)
    requires ids != {}
    ensures IsLeast(r, ids)
  {
    LeastExists(ids);
    var r :| IsLeast(r, ids);
    r
  }

  /** One notice for each button, ascending, with its last state. */
  function Presses(buttons: map<nat, Press>): seq<Notice>
    decreases |buttons|
  {
    if buttons == map[] then [] else
    var b := Least(buttons.Keys);
    assert (buttons - {b}).Keys == buttons.Keys - {b};
    [Pressed(buttons[b].serial, b, buttons[b].down)] + Presses(buttons - {b})
  }

  /** What a frame tells about the location. */
  function Crossings(s: State): seq<Notice> {
    (if s.leaving && s.current.Some? then [Left(s.current.value.surface)] else []) +
    (if s.pending.None? then []
     else if s.current.None? || s.leaving then [Entered(s.pending.value.surface, s.pending.value.x, s.pending.value.y)]
     else [Moved(s.pending.value.x, s.pending.value.y)])
  }

  function Step(s: State, e: Event): State {
    var t := s.(serial := Serial(s, e));
    if !Accepted(s, e) then t else
    match e
    case Enter(_, surface, x, y) => t.(pending := Some(Location(surface, x, y)))
    case Leave(_, _) => t.(pending := None, leaving := true)
    case Motion(x, y) => t.(pending := Some(Location(MotionSurface(s), x, y)))
    case Button(serial, button, down) => t.(buttons := s.buttons[button := Press(serial, down)])
    case Frame => t.(current := Effective(s), pending := None, leaving := false, buttons := map[])
  }

  function Notices(s: State, e: Event): seq<Notice> {
    if e.Frame? && Accepted(s, e) then Crossings(s) + Presses(s.buttons) else []
  }

  function Run(es: seq<Event>): State {
    if es == [] then INITIAL else Step(Run(es[..|es| - 1]), es[|es| - 1])
  }

  function Emitted(es: seq<Event>): seq<Notice> {
    if es == [] then []
    else Emitted(es[..|es| - 1]) + Notices(Run(es[..|es| - 1]), es[|es| - 1])
  }

  // ------------------------------------------------------------------ invariant

  predicate Inv(s: State) {
    && (s.leaving ==> s.current.Some?)
    && (s.current.Some? && s.pending.Some? && !s.leaving ==> s.pending.value.surface == s.current.value.surface)
  }

  lemma {:induction false} RunInv(es: seq<Event>)
    ensures Inv(Run(es))
  {
    if es != [] {
      RunInv(es[..|es| - 1]);
    }
  }

  /** The check at the top of pointer_frame never fails. */
  lemma {:induction false} FrameIsAlwaysAccepted(es: seq<Event>)
    ensures Accepted(Run(es), Frame)
  {
    RunInv(es);
  }

  // -------------------------------------------------------------- the protocol

  /** The reference automaton: what a client that listens to the notices may conclude. It
      accepts enter(s) motion* leave(s) repeated, with presses anywhere, and knows the place. */
  datatype Focus = Outside | On(at: Location) | Violated

  function Hear(f: Focus, n: Notice): Focus {
    match n
    case Entered(surface, x, y) => if f.Outside? then On(Location(surface, x, y)) else Violated
    case Left(surface) => if f.On? && f.at.surface == surface then Outside else Violated
    case Moved(x, y) => if f.On? then On(Location(f.at.surface, x, y)) else Violated
    case Pressed(_, _, _) => f
  }

  function HearAll(f: Focus, ns: seq<Notice>): Focus {
    if ns == [] then f else Hear(HearAll(f, ns[..|ns| - 1]), ns[|ns| - 1])
  }

  lemma {:induction false} HearConcat(f: Focus, a: seq<Notice>, b: seq<Notice>)
    ensures HearAll(f, a + b) == HearAll(HearAll(f, a), b)
  {
    if b == [] {
      assert a + b == a;
    } else {
      HearConcat(f, a, b[..|b| - 1]);
      assert (a + b)[..|a + b| - 1] == a + b[..|b| - 1];
    }
  }

  lemma {:induction false} PressesAreNeutral(f: Focus, buttons: map<nat, Press>)
    ensures HearAll(f, Presses(buttons)) == f
    decreases |buttons|
  {
    if buttons != map[] {
      var b := Least(buttons.Keys);
      assert (buttons - {b}).Keys == buttons.Keys - {b};
      PressesAreNeutral(f, buttons - {b});
      var first := [Pressed(buttons[b].serial, b, buttons[b].down)];
      HearConcat(f, first, Presses(buttons - {b}));
      assert first[..0] == [];
      assert HearAll(f, first) == f;
    }
  }

  function FocusOf(s: State): Focus {
    if s.current.Some? then On(s.current.value) else Outside
  }

  lemma CrossingsAreHeard(s: State)
    requires Inv(s)
    ensures HearAll(FocusOf(s), Crossings(s)) == FocusOf(Step(s, Frame))
  {
    var left := if s.leaving then [Left(s.current.value.surface)] else [];
    var rest := if s.pending.None? then []
                else if s.current.None? || s.leaving
                then [Entered(s.pending.value.surface, s.pending.value.x, s.pending.value.y)]
                else [Moved(s.pending.value.x, s.pending.value.y)];
    HearConcat(FocusOf(s), left, rest);
    assert left != [] ==> left[..0] == [];
    assert rest != [] ==> rest[..0] == [];
  }

  /** For every event stream the notices form enter(s) motion* leave(s) repeated: an enter
      comes only outside, a leave names the surface last entered, and after each frame the
      listener and the client agree on the surface and on the coordinates. */
  lemma {:induction false} NoticesFollowTheProtocol(es: seq<Event>)
    ensures HearAll(Outside, Emitted(es)) == FocusOf(Run(es))
  {
    if es != [] {
      var front, e := es[..|es| - 1], es[|es| - 1];
      var s := Run(front);
      NoticesFollowTheProtocol(front);
      RunInv(front);
      HearConcat(Outside, Emitted(front), Notices(s, e));
      if e.Frame? {
        HearConcat(FocusOf(s), Crossings(s), Presses(s.buttons));
        CrossingsAreHeard(s);
        PressesAreNeutral(FocusOf(Step(s, e)), s.buttons);
      }
    }
  }

  /** Since the last frame a leave was accepted. */
  predicate LeftSince(es: seq<Event>) {
    es != [] && !es[|es| - 1].Frame? &&
    var front, e := es[..|es| - 1], es[|es| - 1];
    (e.Leave? && Accepted(Run(front), e)) || LeftSince(front)
  }

  /** Since the last frame, and since its last accepted leave, an enter or a motion was accepted. */
  predicate ArrivedSince(es: seq<Event>) {
    es != [] && !es[|es| - 1].Frame? &&
    var front, e := es[..|es| - 1], es[|es| - 1];
    if e.Button? || !Accepted(Run(front), e) then ArrivedSince(front) else !e.Leave?
  }

  lemma {:induction false} PendingIsSince(es: seq<Event>)
    ensures Run(es).leaving <==> LeftSince(es)
    ensures Run(es).pending.Some? <==> ArrivedSince(es)
  {
    if es != [] {
      PendingIsSince(es[..|es| - 1]);
      RunInv(es[..|es| - 1]);
    }
  }

  /** What a frame tells, and nothing else: one leave if one was accepted, then one enter or
      motion if one was accepted after it, then the buttons. */
  lemma {:induction false} FrameTellsOnce(es: seq<Event>)
    ensures var ns := Notices(Run(es), Frame);
            var n := (if LeftSince(es) then 1 else 0) + (if ArrivedSince(es) then 1 else 0);
            && |ns| >= n && ns[n..] == Presses(Run(es).buttons)
            && (LeftSince(es) ==> ns[0].Left?)
            && (ArrivedSince(es) ==> ns[n - 1].Entered? || ns[n - 1].Moved?)
  {
    FrameIsAlwaysAccepted(es);
    PendingIsSince(es);
  }

  /** Which events are accepted, by what the listeners have been told so far and what came since
      the last frame: an enter only outside or after a leave, a leave only of the surface last
      entered or of a destroyed one, a motion only on a surface or after an enter. */
  lemma {:induction false} AcceptedIff(es: seq<Event>, e: Event)
    ensures var told := HearAll(Outside, Emitted(es));
            Accepted(Run(es), e) <==>
            match e
            case Enter(_, _, _, _) => told.Outside? || LeftSince(es)
            case Leave(_, surface) => told.On? && (surface == NULL || surface == told.at.surface)
            case Motion(_, _) => told.On? || ArrivedSince(es)
            case Button(_, _, _) => true
            case Frame => true
  {
    NoticesFollowTheProtocol(es);
    PendingIsSince(es);
    RunInv(es);
  }

  /** The serial of the last event that has one, accepted or not. */
  function LastSerial(es: seq<Event>): Option<nat> {
    if es == [] then None
    else if es[|es| - 1].Motion? || es[|es| - 1].Frame? then LastSerial(es[..|es| - 1])
    else Some(es[|es| - 1].serial)
  }

  lemma {:induction false} SerialIsLast(es: seq<Event>)
    ensures Run(es).serial == LastSerial(es)
  {
    if es != [] {
      SerialIsLast(es[..|es| - 1]);
    }
  }

  // ------------------------------------------------------- immediate handling

  /** The reference: a client without frames, which handles each event at once and by itself
      decides which ones to accept. It knows only where the pointer is. */
  predicate AcceptedNow(at: Option<Location>, e: Event) {
    match e
    case Enter(_, _, _, _) => at.None?
    case Leave(_, surface) => at.Some? && (surface == NULL || surface == at.value.surface)
    case Motion(_, _) => at.Some?
    case Button(_, _, _) => true
    case Frame => true
  }

  function HandledNow(at: Option<Location>, e: Event): Option<Location> {
    if !AcceptedNow(at, e) then at else
    match e
    case Enter(_, surface, x, y) => Some(Location(surface, x, y))
    case Leave(_, _) => None
    case Motion(x, y) => Some(Location(at.value.surface, x, y))
    case Button(_, _, _) => at
    case Frame => at
  }

  function Immediate(es: seq<Event>): Option<Location> {
    if es == [] then None else HandledNow(Immediate(es[..|es| - 1]), es[|es| - 1])
  }

  /** An event on which batching shows, from a state on which it has not: a second enter of the
      frame to another place; a leave that only one of the two accepts, where the frame has
      already entered a surface; a motion after a leave. */
  predicate Divides(s: State, e: Event) {
    match e
    case Enter(_, surface, x, y) =>
      (s.current.None? || s.leaving) && s.pending.Some? && s.pending.value != Location(surface, x, y)
    case Leave(_, surface) =>
      var known := s.current.Some? && (surface == NULL || surface == s.current.value.surface);
      s.pending.Some? && known != (surface == NULL || surface == s.pending.value.surface)
    case Motion(_, _) => s.leaving && s.pending.None?
    case Button(_, _, _) => false
    case Frame => false
  }

  lemma DividesIff(s: State, e: Event)
    requires Inv(s)
    ensures Effective(Step(s, e)) == HandledNow(Effective(s), e) <==> !Divides(s, e)
  {
  }

  predicate Undivided(es: seq<Event>) {
    es == [] || (Undivided(es[..|es| - 1]) && !Divides(Run(es[..|es| - 1]), es[|es| - 1]))
  }

  /** After each event a frame would make current what immediate handling has. */
  predicate NeverShows(es: seq<Event>) {
    && Run(es + [Frame]).current == Immediate(es)
    && (es == [] || NeverShows(es[..|es| - 1]))
  }

  lemma {:induction false} FrameCommits(es: seq<Event>)
    ensures Run(es + [Frame]).current == Effective(Run(es))
  {
    RunInv(es);
    assert (es + [Frame])[..|es|] == es;
  }

  /** For every event stream: batching never shows in the location, wherever the frame events
      come, exactly if no event of the stream divides the two. */
  lemma {:induction false} BatchingShowsIff(es: seq<Event>)
    ensures NeverShows(es) <==> Undivided(es)
  {
    FrameCommits(es);
    if es != [] {
      var front := es[..|es| - 1];
      BatchingShowsIff(front);
      FrameCommits(front);
      RunInv(front);
      DividesIff(Run(front), es[|es| - 1]);
    }
  }

  // -------------------------------------------------------- correct compositors

  /** The stream of a compositor that keeps to the protocol: immediate handling accepts all. */
  predicate Follows(es: seq<Event>) {
    es == [] || (Follows(es[..|es| - 1]) && AcceptedNow(Immediate(es[..|es| - 1]), es[|es| - 1]))
  }

  /** The last enter or leave since the last frame is a leave that the client has refused. */
  predicate Lost(es: seq<Event>) {
    es != [] &&
    var front, e := es[..|es| - 1], es[|es| - 1];
    match e
    case Frame => false
    case Enter(_, _, _, _) => false
    case Leave(_, _) => !Accepted(Run(front), e)
    case _ => Lost(front)
  }

  /** At every frame so far the client had the location of immediate handling. */
  predicate FramesAgree(es: seq<Event>) {
    es == [] ||
    (FramesAgree(es[..|es| - 1]) && (es[|es| - 1].Frame? ==> Run(es).current == Immediate(es)))
  }

  predicate FramesKeep(es: seq<Event>) {
    es == [] || (FramesKeep(es[..|es| - 1]) && (es[|es| - 1].Frame? ==> !Lost(es[..|es| - 1])))
  }

  /** Inside a frame: the client is where the pointer is, or it is not aware of a leave. */
  predicate InFrame(s: State, at: Option<Location>, lost: bool) {
    && (at.Some? ==> Effective(s) == at && !lost)
    && (at.None? ==> (Effective(s).Some? <==> lost) && (s.current.None? || s.leaving))
  }

  lemma StaysInFrame(s: State, at: Option<Location>, lost: bool, e: Event)
    requires Inv(s) && InFrame(s, at, lost) && AcceptedNow(at, e) && !e.Frame?
    ensures InFrame(Step(s, e), HandledNow(at, e),
                    if e.Enter? then false else if e.Leave? then !Accepted(s, e) else lost)
  {
  }

  lemma {:induction false} AgreeingIsInFrame(es: seq<Event>)
    requires Follows(es) && FramesAgree(es)
    ensures InFrame(Run(es), Immediate(es), Lost(es))
  {
    if es != [] {
      var front, e := es[..|es| - 1], es[|es| - 1];
      AgreeingIsInFrame(front);
      RunInv(front);
      if !e.Frame? {
        StaysInFrame(Run(front), Immediate(front), Lost(front), e);
      }
    }
  }

  /** For every stream of a correct compositor: the client has the right location at every frame
      exactly if no frame ends with a leave that the client refuses, that is, a leave of a
      surface other than the one that was current when the frame began. */
  lemma {:induction false} FramesAgreeIff(es: seq<Event>)
    requires Follows(es)
    ensures FramesAgree(es) <==> FramesKeep(es)
  {
    if es != [] {
      var front := es[..|es| - 1];
      FramesAgreeIff(front);
      if FramesAgree(front) && es[|es| - 1].Frame? {
        AgreeingIsInFrame(front);
        RunInv(front);
      }
    }
  }

  /** Such a frame: the pointer passes over a surface, and the client leaves it there. */
  lemma PassingOverIsLost(surface: Surface, x: int, y: int)
    requires surface != NULL
    ensures var es := [Enter(1, surface, x, y), Leave(2, surface)];
            && Follows(es) && Lost(es) && Immediate(es) == None
            && Run(es + [Frame]).current == Some(Location(surface, x, y))
  {
    var one := [Enter(1, surface, x, y)];
    var es := [Enter(1, surface, x, y), Leave(2, surface)];
    assert one[..0] == [] && es[..1] == one;
    assert Run(one) == Step(INITIAL, one[0]) && Immediate(one) == Some(Location(surface, x, y));
    assert Follows(one);
    assert Run(one).current.None? && es[1] == Leave(2, surface);
    FrameCommits(es);
  }

  // ------------------------------------------------------------ frames commit

  /** What an event does to a location if the client with frames has accepted it. */
  function Immediately(at: Option<Location>, e: Event): Option<Location> {
    match e
    case Enter(_, surface, x, y) => Some(Location(surface, x, y))
    case Leave(_, _) => None
    case Motion(x, y) => if at.Some? then Some(Location(at.value.surface, x, y)) else None
    case Button(_, _, _) => at
    case Frame => at
  }

  /** Handling at once the events that the client with frames accepts, and no others. */
  function Replay(es: seq<Event>): Option<Location> {
    if es == [] then None
    else
      var front, e := es[..|es| - 1], es[|es| - 1];
      if Accepted(Run(front), e) then Immediately(Replay(front), e) else Replay(front)
  }

  /** Since the last accepted enter or leave, which was a leave, a motion came before the
      frame event. */
  predicate Strayed(es: seq<Event>) {
    es != [] &&
    var front, e := es[..|es| - 1], es[|es| - 1];
    if (e.Enter? || e.Leave?) && Accepted(Run(front), e) then false
    else Strayed(front) || (e.Motion? && Run(front).leaving && Run(front).pending.None?)
  }

  lemma {:induction false} EffectiveIsReplayIff(es: seq<Event>)
    ensures if Strayed(es) then Effective(Run(es)).Some? && Replay(es).None? else Effective(Run(es)) == Replay(es)
  {
    if es != [] {
      EffectiveIsReplayIff(es[..|es| - 1]);
      RunInv(es[..|es| - 1]);
    }
  }

  /** Of the events that the client accepts none is lost or misplaced, except for a motion that
      follows a leave: for every event stream the frame event makes current the location that
      these events lead to exactly if the stream has not strayed. */
  lemma {:induction false} FramesCommitReplay(es: seq<Event>)
    ensures Run(es + [Frame]).current == Replay(es) <==> !Strayed(es)
    ensures Strayed(es) ==> Run(es + [Frame]).current.Some? && Replay(es).None?
  {
    FrameCommits(es);
    EffectiveIsReplayIff(es);
  }

  /** Such a stream: the pointer is put back on the surface that it leaves. */
  lemma {:induction false} MotionAfterLeaveReenters(es: seq<Event>, serial: nat, x: int, y: int)
    requires Run(es).current.Some?
    ensures var more := es + [Leave(serial, NULL), Motion(x, y)];
            && Strayed(more)
            && Run(more + [Frame]).current == Some(Location(Run(es).current.value.surface, x, y))
  {
    var left := es + [Leave(serial, NULL)];
    var more := es + [Leave(serial, NULL), Motion(x, y)];
    assert left[..|es|] == es && more[..|left|] == left && (more + [Frame])[..|more|] == more;
    assert Run(left).leaving && Run(left).pending.None?;
    assert Run(left).current == Run(es).current;
  }

  // ------------------------------------------------------------------- buttons

  /** The state last sent for a button since the last frame. */
  function LastPress(es: seq<Event>, button: nat): Option<Press> {
    if es == [] || es[|es| - 1].Frame? then None
    else
      var e := es[|es| - 1];
      if e.Button? && e.button == button then Some(Press(e.serial, e.down))
      else LastPress(es[..|es| - 1], button)
  }

  lemma {:induction false} ButtonsAreLastPresses(es: seq<Event>, button: nat)
    ensures var s := Run(es);
            LastPress(es, button) == if button in s.buttons then Some(s.buttons[button]) else None
  {
    if es != [] {
      ButtonsAreLastPresses(es[..|es| - 1], button);
      RunInv(es[..|es| - 1]);
    }
  }

  lemma {:induction false} PressesAt(buttons: map<nat, Press>)
    ensures |Presses(buttons)| == |buttons|
    ensures forall k :: 0 <= k < |Presses(buttons)| ==>
              && Presses(buttons)[k].Pressed?
              && Presses(buttons)[k].button in buttons
              && Presses(buttons)[k].serial == buttons[Presses(buttons)[k].button].serial
              && Presses(buttons)[k].down == buttons[Presses(buttons)[k].button].down
    ensures forall i, j :: 0 <= i < j < |Presses(buttons)| ==> Presses(buttons)[i].button < Presses(buttons)[j].button
    decreases |buttons|
  {
    if buttons != map[] {
      var b := Least(buttons.Keys);
      assert (buttons - {b}).Keys == buttons.Keys - {b};
      PressesAt(buttons - {b});
    }
  }

  lemma {:induction false} PressesAll(buttons: map<nat, Press>, button: nat)
    requires button in buttons
    ensures Pressed(buttons[button].serial, button, buttons[button].down) in Presses(buttons)
    decreases |buttons|
  {
    var b := Least(buttons.Keys);
    assert (buttons - {b}).Keys == buttons.Keys - {b};
    if button != b {
      PressesAll(buttons - {b}, button);
    }
  }

  /** Per frame exactly the buttons pressed or released since the last frame are reported, each
      with the state it was given last, once, and in ascending order. */
  lemma {:induction false} FrameReportsLastPresses(es: seq<Event>, button: nat, p: Press)
    ensures Notices(Run(es), Frame) == Crossings(Run(es)) + Presses(Run(es).buttons)
    ensures Pressed(p.serial, button, p.down) in Presses(Run(es).buttons) <==> LastPress(es, button) == Some(p)
    ensures forall i, j :: 0 <= i < j < |Presses(Run(es).buttons)| ==>
              Presses(Run(es).buttons)[i].Pressed? && Presses(Run(es).buttons)[j].Pressed? &&
              Presses(Run(es).buttons)[i].button < Presses(Run(es).buttons)[j].button
  {
    var buttons := Run(es).buttons;
    FrameIsAlwaysAccepted(es);
    PressesAt(buttons);
    ButtonsAreLastPresses(es, button);
    if button in buttons {
      PressesAll(buttons, button);
    }
  }

  // ------------------------------------------------------------------ the class

  class PointerTracker {
    var current: Option<Location>
    var pending: Option<Location>
    var leaving: bool
    var buttons: map<nat, Press>
    var serial: Option<nat>
    var failures: nat

    function View(): State
      reads this
    {
      State(current, pending, leaving, buttons, serial)
    }

    constructor ()
      ensures View() == INITIAL && failures == 0
    {
      current, pending, leaving, buttons, serial, failures := None, None, false, map[], None, 0;
    }

    method OnEnter(serial: nat, surface: Surface, x: int, y: int)
      modifies this
      ensures View() == Step(old(View()), Enter(serial, surface, x, y))
      ensures failures == old(failures) + if Accepted(old(View()), Enter(serial, surface, x, y)) then 0 else 1
    {
      this.serial := Some(serial);
      if current.Some? && !leaving {
        failures := failures + 1;
        return;
      }
      pending := Some(Location(surface, x, y));
    }

    method OnLeave(serial: nat, surface: Surface)
      modifies this
      ensures View() == Step(old(View()), Leave(serial, surface))
      ensures failures == old(failures) + if Accepted(old(View()), Leave(serial, surface)) then 0 else 1
    {
      this.serial := Some(serial);
      if current.None? {
        failures := failures + 1;
        return;
      }
      if surface != NULL && surface != current.value.surface {
        failures := failures + 1;
        return;
      }
      pending := None;
      leaving := true;
    }

    method OnMotion(x: int, y: int)
      modifies this
      ensures View() == Step(old(View()), Motion(x, y))
      ensures failures == old(failures) + if Accepted(old(View()), Motion(x, y)) then 0 else 1
    {
      if current.None? && pending.None? {
        failures := failures + 1;
        return;
      }
      if pending.None? {
        pending := current;
      }
      pending := Some(pending.value.(x := x, y := y));
    }

    method OnButton(serial: nat, button: nat, down: bool)
      modifies this
      ensures View() == Step(old(View()), Button(serial, button, down))
      ensures failures == old(failures)
    {
      this.serial := Some(serial);
      buttons := buttons[button := Press(serial, down)];
    }

    /** Returns the notices in the order of the calls. */
    method OnFrame() returns (notices: seq<Notice>)
      modifies this
      ensures View() == Step(old(View()), Frame)
      ensures notices == Notices(old(View()), Frame)
      ensures failures == old(failures) + if Accepted(old(View()), Frame) then 0 else 1
    {
      notices := [];
      if leaving {
        if current.None? {
          failures := failures + 1;
          return;
        }
        var oldSurface := current.value.surface;
        current := None;
        leaving := false;
        notices := notices + [Left(oldSurface)];
      }
      if pending.Some? {
        var oldLocation := current;
        current := pending;
        pending := None;
        if oldLocation.None? {
          notices := notices + [Entered(current.value.surface, current.value.x, current.value.y)];
        } else {
          notices := notices + [Moved(current.value.x, current.value.y)];
        }
      }
      if buttons != map[] {
        notices := notices + Presses(buttons);
        buttons := map[];
      }
    }
  }
}
