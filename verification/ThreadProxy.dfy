/** The thread proxy (src/thread_proxy.h) as a step system: any number of caller threads,
    the message_serialiser mutex, the two directions of the socket, the handler table and
    the event loop. A run is a sequence of labels, each enabled where it is taken.

    The specification is the direct call of NullProxy: a thunk is its handler. Handlers may
    change the server, of type World, but they return and do not call thunks. */
module ThreadProxy {
  import opened Common
  import opened Wire

  /** The compositor under test: whatever the handlers act on. */
  type World(!new)

  // ------------------------------------------------------------------ handlers

  /** An entry of the handler table. Entry 0 is the destructor's; the others come from
      register_op. `sizes` are the sizes of the parameter types. */
  datatype Handler =
    | Destructor
    | VoidOp(sizes: seq<nat>, act: (World, seq<Bytes>) -> World)
    | ValueOp(sizes: seq<nat>, size: nat, run: (World, seq<Bytes>) -> (World, Bytes))

  /** What the type system and the static_asserts of register_op guarantee. */
  ghost predicate Registrable(h: Handler) {
    && !h.Destructor?
    && Sum(h.sizes) < MAX_ARGUMENTS_SIZE
    && (h.ValueOp? ==> h.size < MAX_MESSAGE_SIZE && forall w, args :: |h.run(w, args).1| == h.size)
  }

  /** How the loop calls a handler: the server afterwards and the value (none for void). */
  function Invoke(h: Handler, w: World, args: seq<Bytes>): (World, Bytes) {
    match h
    case Destructor => (w, [])
    case VoidOp(_, act) => (act(w, args), [])
    case ValueOp(_, _, run) => run(w, args)
  }

  /** What the receive functor sends back: the value, or one dummy byte. */
  function ReplyMessage(h: Handler, value: Bytes): Bytes {
    if h.ValueOp? then value else [0]
  }

  datatype Outcome = Value(bytes: Bytes) | ShortReply

  /** wait_for_reply: a reply shorter than the expected type is an error. */
  function ReadReply(h: Handler, message: Bytes): Outcome {
    var expected := if h.ValueOp? then h.size else 1;
    if |message| < expected then ShortReply
    else Value(if h.ValueOp? then message[..expected] else [])
  }

  predicate Fits(h: Handler, value: Bytes) {
    if h.ValueOp? then |value| == h.size else value == []
  }

  // --------------------------------------------------------------------- state

  datatype Call = Call(thunk: nat, args: seq<Bytes>)

  /** Where a thread that is inside a thunk stands. Threads outside have no entry. */
  datatype Phase =
    | Blocked(call: Call)
    | Locked(call: Call)
    | Sent(call: Call)
    | Received(call: Call, outcome: Outcome)

  datatype Server = Polling | Unpacking(buffer: Bytes) | Replying(reply: Bytes) | Stopped | Undefined

  /** The socket pair and the event loop's end of it. */
  datatype Link = Link(requests: seq<Bytes>, replies: seq<Bytes>, server: Server)

  datatype Request = Request(thread: nat, call: Call)
  datatype Ran = Ran(call: Call, value: Bytes, reply: Bytes)
  datatype Return = Return(thread: nat, call: Call, outcome: Outcome)

  datatype State = State(
    handlers: seq<Handler>,
    owner: bool,               // the shared pointer of the thread context
    thunks: set<nat>,          // thunks alive, each with a shared pointer
    destroyed: bool,
    callers: map<nat, Phase>,
    lock: Option<nat>,
    link: Link,
    world: World,
    // history
    sent: seq<Bytes>,
    locked: seq<Request>,      // calls in the order in which they took the lock
    ran: seq<Ran>,             // handler runs, by the opcode and arguments the loop unpacked
    returned: seq<Return>)

  function Init(w: World): State {
    State([Destructor], true, {}, false, map[], None, Link([], [], Polling), w, [], [], [], [])
  }

  datatype Label =
    | Register(h: Handler)
    | Begin(t: nat, call: Call)
    | Acquire(t: nat)
    | Send(t: nat)
    | Receive(tail: Bytes)
    | Execute
    | Reply
    | Recv(t: nat)
    | Release(t: nat)
    | DropThunk(thunk: nat)
    | DropOwner
    | Destroy

  /** A call the type system admits: a thunk of the table and arguments of its types. */
  predicate WellTyped(handlers: seq<Handler>, call: Call) {
    && 1 <= call.thunk < |handlers|
    && !handlers[call.thunk].Destructor?
    && Sizes(call.args) == handlers[call.thunk].sizes
  }

  ghost predicate Enabled(s: State, l: Label) {
    match l
    case Register(h) => s.owner && Registrable(h)
    case Begin(t, call) => t !in s.callers && call.thunk in s.thunks && WellTyped(s.handlers, call)
    case Acquire(t) => t in s.callers && s.callers[t].Blocked? && s.lock.None?
    case Send(t) => t in s.callers && s.callers[t].Locked?
    case Receive(tail) =>
      && s.link.server.Polling?
      && s.link.requests != []
      && |s.link.requests[0]| + |tail| == MAX_MESSAGE_SIZE
    case Execute => s.link.server.Unpacking?
    case Reply => s.link.server.Replying?
    case Recv(t) => t in s.callers && s.callers[t].Sent? && s.link.replies != []
    case Release(t) => t in s.callers && s.callers[t].Received?
    case DropThunk(i) => i in s.thunks && forall t :: t in s.callers ==> s.callers[t].call.thunk != i
    case DropOwner => s.owner
    case Destroy => !s.owner && s.thunks == {} && !s.destroyed
  }

  function Answer(s: State, opcode: nat, args: seq<Bytes>): State
    requires opcode < |s.handlers|
  {
    var h := s.handlers[opcode];
    var (w, value) := Invoke(h, s.world, args);
    var reply := ReplyMessage(h, value);
    s.(world := w,
       ran := s.ran + [Ran(Call(opcode, args), value, reply)],
       link := s.link.(server := Replying(reply)))
  }

  /** socket_readable on a filled buffer: look up the handler, unpack, call. Reading
      past the table or the buffer would be undefined. */
  function RunHandler(s: State, buffer: Bytes): State {
    if |buffer| < OPCODE_SIZE then s.(link := s.link.(server := Undefined)) else
    var opcode := DecodeOpcode(buffer);
    if opcode >= |s.handlers| then s.(link := s.link.(server := Undefined)) else
    var h := s.handlers[opcode];
    if h.Destructor? then s.(link := s.link.(server := Stopped)) else
    if Sum(h.sizes) > |buffer| - OPCODE_SIZE then s.(link := s.link.(server := Undefined)) else
    var args := TupleFromBuffer(buffer[OPCODE_SIZE..], h.sizes);
    Answer(s, opcode, args)
  }

  function Packed(call: Call): Bytes { Message(Truncate(call.thunk), call.args) }

  function Push(s: State, message: Bytes): State {
    s.(link := s.link.(requests := s.link.requests + [message]), sent := s.sent + [message])
  }

  ghost function Apply(s: State, l: Label): State
    requires Enabled(s, l)
  {
    match l
    case Register(h) => s.(handlers := s.handlers + [h], thunks := s.thunks + {|s.handlers|})
    case Begin(t, call) => s.(callers := s.callers[t := Blocked(call)])
    case Acquire(t) =>
      var call := s.callers[t].call;
      s.(callers := s.callers[t := Locked(call)], lock := Some(t), locked := s.locked + [Request(t, call)])
    case Send(t) =>
      var call := s.callers[t].call;
      Push(s, Packed(call)).(callers := s.callers[t := Sent(call)])
    case Receive(tail) =>
      s.(link := s.link.(requests := s.link.requests[1..], server := Unpacking(s.link.requests[0] + tail)))
    case Execute => RunHandler(s, s.link.server.buffer)
    case Reply => s.(link := s.link.(server := Polling, replies := s.link.replies + [s.link.server.reply]))
    case Recv(t) =>
      var call := s.callers[t].call;
      var outcome :=
        if call.thunk < |s.handlers| then ReadReply(s.handlers[call.thunk], s.link.replies[0]) else ShortReply;
      s.(callers := s.callers[t := Received(call, outcome)], link := s.link.(replies := s.link.replies[1..]))
    case Release(t) =>
      s.(callers := s.callers - {t}, lock := None,
         returned := s.returned + [Return(t, s.callers[t].call, s.callers[t].outcome)])
    case DropThunk(i) => s.(thunks := s.thunks - {i})
    case DropOwner => s.(owner := false)
    case Destroy => Push(s, Message(0, [])).(destroyed := true)
  }

  /** `s` comes from `p` by `l`. */
  ghost predicate Next(p: State, l: Label, s: State) {
    Enabled(p, l) && s == Apply(p, l)
  }

  /** `ss` are the states that the labels `ls` lead through. */
  ghost predicate Path(ls: seq<Label>, ss: seq<State>) {
    && |ss| == |ls| + 1
    && (ls != [] ==> Next(ss[0], ls[0], ss[1]) && Path(ls[1..], ss[1..]))
  }

  /** A run from the beginning, with the server `w`. */
  ghost predicate Execution(w: World, ls: seq<Label>, ss: seq<State>) {
    Path(ls, ss) && ss[0] == Init(w)
  }

  // -------------------------------------------------------------- specification

  ghost predicate AllWellTyped(handlers: seq<Handler>, calls: seq<Call>) {
    forall i :: 0 <= i < |calls| ==> WellTyped(handlers, calls[i])
  }

  /** NullProxy: the calls made directly, one after the other; the server afterwards and
      the value of each. */
  ghost function Direct(handlers: seq<Handler>, w: World, calls: seq<Call>): (r: (World, seq<Bytes>))
    requires AllWellTyped(handlers, calls)
    ensures |r.1| == |calls|
  {
    if calls == [] then (w, []) else
    var (w1, values) := Direct(handlers, w, calls[..|calls| - 1]);
    var last := calls[|calls| - 1];
    assert WellTyped(handlers, last);
    var h := handlers[last.thunk];
    if h.VoidOp? then (h.act(w1, last.args), values + [[]])
    else var (w2, value) := h.run(w1, last.args); (w2, values + [value])
  }

  /** One more direct call: the handler of that thunk acts on the server as the calls before
      left it, with the arguments given, and its value is the call's. */
  lemma DirectCallsItsHandler(handlers: seq<Handler>, w: World, calls: seq<Call>, c: Call)
    requires AllWellTyped(handlers, calls) && WellTyped(handlers, c)
    ensures AllWellTyped(handlers, calls + [c])
    ensures var (before, values) := Direct(handlers, w, calls);
            var h := handlers[c.thunk];
            Direct(handlers, w, calls + [c]) ==
            if h.VoidOp? then (h.act(before, c.args), values + [[]])
            else (h.run(before, c.args).0, values + [h.run(before, c.args).1])
  {
    assert (calls + [c])[..|calls|] == calls;
  }

  /** A longer table gives the same direct calls: an opcode keeps its handler for ever. */
  lemma {:induction false} DirectIgnoresLaterOps(
      handlers: seq<Handler>, h: Handler, w: World, calls: seq<Call>)
    requires AllWellTyped(handlers, calls)
    ensures AllWellTyped(handlers + [h], calls)
    ensures Direct(handlers + [h], w, calls) == Direct(handlers, w, calls)
  {
    forall i | 0 <= i < |calls|
      ensures WellTyped(handlers + [h], calls[i])
    {
      assert WellTyped(handlers, calls[i]);
    }
    if calls != [] {
      DirectIgnoresLaterOps(handlers, h, w, calls[..|calls| - 1]);
    }
  }

  function RanCalls(rs: seq<Ran>): (cs: seq<Call>)
    ensures |cs| == |rs|
    ensures forall i :: 0 <= i < |rs| ==> cs[i] == rs[i].call
  {
    seq(|rs|, i requires 0 <= i < |rs| => rs[i].call)
  }

  function RanValues(rs: seq<Ran>): (vs: seq<Bytes>)
    ensures |vs| == |rs|
    ensures forall i :: 0 <= i < |rs| ==> vs[i] == rs[i].value
  {
    seq(|rs|, i requires 0 <= i < |rs| => rs[i].value)
  }

  // ----------------------------------------------------- invariant 1: the types

  ghost predicate TableOk(handlers: seq<Handler>) {
    && 1 <= |handlers| <= OPCODE_LIMIT
    && handlers[0].Destructor?
    && forall i :: 1 <= i < |handlers| ==> Registrable(handlers[i])
  }

  ghost predicate CallersTyped(handlers: seq<Handler>, thunks: set<nat>, callers: map<nat, Phase>) {
    forall t :: t in callers ==> callers[t].call.thunk in thunks && WellTyped(handlers, callers[t].call)
  }

  ghost predicate LockedTyped(handlers: seq<Handler>, locked: seq<Request>) {
    forall k :: 0 <= k < |locked| ==> WellTyped(handlers, locked[k].call)
  }

  /** Every call in progress or recorded is one that the type system admits, and goes
      through a thunk that is alive. */
  ghost predicate Typed(s: State) {
    && TableOk(s.handlers)
    && (forall i :: i in s.thunks ==> 1 <= i < |s.handlers|)
    && CallersTyped(s.handlers, s.thunks, s.callers)
    && LockedTyped(s.handlers, s.locked)
    && (s.destroyed ==> !s.owner && s.thunks == {})
  }

  lemma RegisterKeepsTyped(s: State, h: Handler)
    requires Typed(s) && Enabled(s, Register(h)) && |s.handlers| < OPCODE_LIMIT
    ensures Typed(Apply(s, Register(h)))
  {
    var s' := Apply(s, Register(h));
    forall call | WellTyped(s.handlers, call)
      ensures WellTyped(s'.handlers, call)
    {
    }
    assert TableOk(s'.handlers);
  }

  /** register_op gives out a thunk of its own, bound to the handler registered. */
  lemma RegisterBindsNewThunk(s: State, h: Handler)
    requires Typed(s) && Enabled(s, Register(h))
    ensures var s', thunk := Apply(s, Register(h)), |s.handlers|;
            && thunk !in s.thunks && s'.thunks == s.thunks + {thunk}
            && s'.handlers[thunk] == h
            && forall i :: i in s.thunks ==> s'.handlers[i] == s.handlers[i]
  {
  }

  lemma RunHandlerFrame(s: State, buffer: Bytes)
    ensures var s' := RunHandler(s, buffer);
            s' == s.(world := s'.world, ran := s'.ran, link := s'.link)
  {
  }

  lemma BeginKeepsTyped(s: State, t: nat, call: Call)
    requires Typed(s) && Enabled(s, Begin(t, call))
    ensures Typed(Apply(s, Begin(t, call)))
  {
  }

  lemma CallerMoves(
      handlers: seq<Handler>, thunks: set<nat>, callers: map<nat, Phase>, t: nat, p: Phase)
    requires CallersTyped(handlers, thunks, callers) && t in callers && p.call == callers[t].call
    ensures CallersTyped(handlers, thunks, callers[t := p]) && CallersTyped(handlers, thunks, callers - {t})
  {
  }

  lemma CallerKeepsTyped(s: State, l: Label)
    requires Typed(s) && Enabled(s, l) && (l.Acquire? || l.Send? || l.Recv? || l.Release?)
    ensures Typed(Apply(s, l))
  {
    var callers := Apply(s, l).callers;
    CallerMoves(s.handlers, s.thunks, s.callers, l.t, if l.t in callers then callers[l.t] else s.callers[l.t]);
  }

  lemma DropKeepsTyped(s: State, l: Label)
    requires Typed(s) && Enabled(s, l) && (l.DropThunk? || l.DropOwner? || l.Destroy?)
    ensures Typed(Apply(s, l))
  {
  }

  lemma LoopKeepsTyped(s: State, l: Label)
    requires Typed(s) && Enabled(s, l) && (l.Receive? || l.Execute? || l.Reply?)
    ensures Typed(Apply(s, l))
  {
    if l.Execute? {
      RunHandlerFrame(s, s.link.server.buffer);
    }
  }

  lemma StepKeepsTyped(s: State, l: Label)
    requires Typed(s) && Enabled(s, l) && |Apply(s, l).handlers| <= OPCODE_LIMIT
    ensures Typed(Apply(s, l))
  {
    match l
    case Register(h) => RegisterKeepsTyped(s, h);
    case Begin(t, call) => BeginKeepsTyped(s, t, call);
    case Acquire(_) => CallerKeepsTyped(s, l);
    case Send(_) => CallerKeepsTyped(s, l);
    case Recv(_) => CallerKeepsTyped(s, l);
    case Release(_) => CallerKeepsTyped(s, l);
    case Receive(_) => LoopKeepsTyped(s, l);
    case Execute => LoopKeepsTyped(s, l);
    case Reply => LoopKeepsTyped(s, l);
    case DropThunk(_) => DropKeepsTyped(s, l);
    case DropOwner => DropKeepsTyped(s, l);
    case Destroy => DropKeepsTyped(s, l);
  }

  // --------------------------------------------------- invariant 2: the lock

  ghost predicate LockOk(callers: map<nat, Phase>, lock: Option<nat>) {
    && (forall t :: t in callers && !callers[t].Blocked? ==> lock == Some(t))
    && (lock.Some? ==> lock.value in callers && !callers[lock.value].Blocked?)
  }

  predicate Carries(link: Link, message: Bytes) {
    || link == Link([message], [], Polling)
    || (&& link.requests == [] && link.replies == [] && link.server.Unpacking?
        && |link.server.buffer| == MAX_MESSAGE_SIZE && message <= link.server.buffer)
  }

  predicate Answers(link: Link, reply: Bytes) {
    link == Link([], [], Replying(reply)) || link == Link([], [reply], Polling)
  }

  /** Where the n-th call is while its caller, in phase `p`, holds the lock. */
  ghost predicate Flight(link: Link, sent: seq<Bytes>, ran: seq<Ran>, n: nat, p: Phase) {
    match p
    case Blocked(_) => false
    case Locked(_) => link == Link([], [], Polling) && |ran| == n == |sent|
    case Received(_, _) => link == Link([], [], Polling) && |ran| == n + 1 == |sent|
    case Sent(_) =>
      && |sent| == n + 1
      && if |ran| == n then Carries(link, sent[n]) else |ran| == n + 1 && Answers(link, ran[n].reply)
  }

  /** The socket while nobody holds the lock. */
  ghost predicate Rest(destroyed: bool, link: Link, sent: seq<Bytes>, n: nat) {
    if destroyed
    then |sent| == n + 1 && sent[n] == Message(0, []) && (link == Link([], [], Stopped) || Carries(link, sent[n]))
    else |sent| == n && link == Link([], [], Polling)
  }

  /** The n-th message is the call of the n-th lock holder. */
  ghost predicate SentOk(sent: seq<Bytes>, locked: seq<Request>) {
    forall k :: 0 <= k < |sent| && k < |locked| ==> sent[k] == Packed(locked[k].call)
  }

  ghost predicate Serial(s: State) {
    var n := |s.returned|;
    && LockOk(s.callers, s.lock)
    && SentOk(s.sent, s.locked)
    && if s.lock.Some? then
         && !s.destroyed
         && |s.locked| == n + 1
         && s.locked[n] == Request(s.lock.value, s.callers[s.lock.value].call)
         && Flight(s.link, s.sent, s.ran, n, s.callers[s.lock.value])
       else
         && |s.locked| == |s.ran| == n
         && Rest(s.destroyed, s.link, s.sent, n)
  }

  lemma AcquireKeepsSerial(s: State, t: nat)
    requires Typed(s) && Serial(s) && Enabled(s, Acquire(t))
    ensures Serial(Apply(s, Acquire(t)))
  {
  }

  lemma SentOneMore(sent: seq<Bytes>, locked: seq<Request>)
    requires SentOk(sent, locked) && |locked| == |sent| + 1
    ensures SentOk(sent + [Packed(locked[|sent|].call)], locked)
  {
  }

  lemma SendKeepsSerial(s: State, t: nat)
    requires Serial(s) && Enabled(s, Send(t))
    ensures Serial(Apply(s, Send(t)))
  {
    var s' := Apply(s, Send(t));
    assert s.lock == Some(t);
    SentOneMore(s.sent, s.locked);
    assert LockOk(s'.callers, s'.lock);
    assert s'.link.requests == [s'.sent[|s.returned|]];
  }

  lemma ReceiveKeepsSerial(s: State, tail: Bytes)
    requires Serial(s) && Enabled(s, Receive(tail))
    ensures Serial(Apply(s, Receive(tail)))
  {
  }

  /** What the loop does with a packed call: exactly that call. */
  lemma RunPacked(s: State, call: Call, buffer: Bytes)
    requires TableOk(s.handlers) && WellTyped(s.handlers, call)
    requires |buffer| == MAX_MESSAGE_SIZE && Packed(call) <= buffer
    ensures RunHandler(s, buffer) == Answer(s, call.thunk, call.args)
  {
    var tail := buffer[|Packed(call)|..];
    assert buffer == Packed(call) + tail;
    MessageRoundTrip(call.thunk, call.args, tail);
    assert Registrable(s.handlers[call.thunk]);
  }

  lemma RunDestructor(s: State, buffer: Bytes)
    requires TableOk(s.handlers)
    requires |buffer| == MAX_MESSAGE_SIZE && Message(0, []) <= buffer
    ensures RunHandler(s, buffer) == s.(link := s.link.(server := Stopped))
  {
    var tail := buffer[|Message(0, [])|..];
    assert buffer == Message(0, []) + tail;
    MessageRoundTrip(0, [], tail);
  }

  /** The buffer that the loop has just read holds the call that took the lock last. */
  lemma ExecuteStep(s: State)
    requires Typed(s) && Serial(s) && Enabled(s, Execute)
    ensures s.lock.Some? ==>
              && |s.ran| < |s.locked|
              && (var call := s.locked[|s.ran|].call;
                  WellTyped(s.handlers, call) && Apply(s, Execute) == Answer(s, call.thunk, call.args))
    ensures s.lock.None? ==> Apply(s, Execute) == s.(link := s.link.(server := Stopped))
  {
    var n := |s.returned|;
    if s.lock.Some? {
      assert s.sent[n] == Packed(s.locked[n].call);
      RunPacked(s, s.locked[n].call, s.link.server.buffer);
    } else {
      RunDestructor(s, s.link.server.buffer);
    }
  }

  lemma ExecuteKeepsSerial(s: State)
    requires Typed(s) && Serial(s) && Enabled(s, Execute)
    ensures Serial(Apply(s, Execute))
  {
    ExecuteStep(s);
  }

  lemma ReplyKeepsSerial(s: State)
    requires Serial(s) && Enabled(s, Reply)
    ensures Serial(Apply(s, Reply))
  {
  }

  lemma RecvKeepsSerial(s: State, t: nat)
    requires Serial(s) && Enabled(s, Recv(t))
    ensures Serial(Apply(s, Recv(t)))
  {
  }

  lemma ReleaseKeepsSerial(s: State, t: nat)
    requires Serial(s) && Enabled(s, Release(t))
    ensures Serial(Apply(s, Release(t)))
  {
  }

  lemma DestroyKeepsSerial(s: State)
    requires Typed(s) && Serial(s) && Enabled(s, Destroy)
    ensures Serial(Apply(s, Destroy))
  {
  }

  lemma OtherKeepsSerial(s: State, l: Label)
    requires Serial(s) && Enabled(s, l) && (l.Register? || l.Begin? || l.DropThunk? || l.DropOwner?)
    ensures Serial(Apply(s, l))
  {
    assert LockOk(Apply(s, l).callers, s.lock);
  }

  lemma StepKeepsSerial(s: State, l: Label)
    requires Typed(s) && Serial(s) && Enabled(s, l)
    ensures Serial(Apply(s, l))
  {
    match l
    case Register(_) => OtherKeepsSerial(s, l);
    case Begin(_, _) => OtherKeepsSerial(s, l);
    case Acquire(t) => AcquireKeepsSerial(s, t);
    case Send(t) => SendKeepsSerial(s, t);
    case Receive(tail) => ReceiveKeepsSerial(s, tail);
    case Execute => ExecuteKeepsSerial(s);
    case Reply => ReplyKeepsSerial(s);
    case Recv(t) => RecvKeepsSerial(s, t);
    case Release(t) => ReleaseKeepsSerial(s, t);
    case DropThunk(_) => OtherKeepsSerial(s, l);
    case DropOwner => OtherKeepsSerial(s, l);
    case Destroy => DestroyKeepsSerial(s);
  }

  // -------------------------------------------- invariant 3: the values returned

  /** The handler runs so far are the direct calls, in the same order. */
  ghost predicate ServedOk(handlers: seq<Handler>, w: World, ran: seq<Ran>, world: World) {
    AllWellTyped(handlers, RanCalls(ran)) && Direct(handlers, w, RanCalls(ran)) == (world, RanValues(ran))
  }

  /** A recorded run answers the call of its place in the lock order. */
  ghost predicate RanOk(handlers: seq<Handler>, call: Call, r: Ran) {
    && r.call == call
    && call.thunk < |handlers|
    && Fits(handlers[call.thunk], r.value)
    && r.reply == ReplyMessage(handlers[call.thunk], r.value)
  }

  ghost predicate OrderOk(handlers: seq<Handler>, locked: seq<Request>, ran: seq<Ran>, returned: seq<Return>) {
    && |returned| <= |ran| <= |locked|
    && (forall k :: 0 <= k < |ran| ==> RanOk(handlers, locked[k].call, ran[k]))
    && (forall k :: 0 <= k < |returned| ==>
         returned[k] == Return(locked[k].thread, locked[k].call, Value(ran[k].value)))
  }

  /** A caller that has its reply was given the value of its own run. */
  ghost predicate ReceivedOk(callers: map<nat, Phase>, ran: seq<Ran>, n: nat) {
    forall t :: t in callers && callers[t].Received? ==> n < |ran| && callers[t].outcome == Value(ran[n].value)
  }

  ghost predicate Faithful(s: State, w: World) {
    && ServedOk(s.handlers, w, s.ran, s.world)
    && OrderOk(s.handlers, s.locked, s.ran, s.returned)
    && ReceivedOk(s.callers, s.ran, |s.returned|)
  }

  lemma RegisterKeepsFaithful(s: State, w: World, h: Handler)
    requires Faithful(s, w) && Enabled(s, Register(h))
    ensures Faithful(Apply(s, Register(h)), w)
  {
    DirectIgnoresLaterOps(s.handlers, h, w, RanCalls(s.ran));
    forall k | 0 <= k < |s.ran|
      ensures RanOk(s.handlers + [h], s.locked[k].call, s.ran[k])
    {
      assert RanOk(s.handlers, s.locked[k].call, s.ran[k]);
    }
  }

  /** One more handler run is one more direct call. */
  lemma ServedOneMore(
      handlers: seq<Handler>, w: World, ran: seq<Ran>, world: World, call: Call, reply: Bytes)
    requires ServedOk(handlers, w, ran, world) && WellTyped(handlers, call)
    ensures var (w', value) := Invoke(handlers[call.thunk], world, call.args);
            ServedOk(handlers, w, ran + [Ran(call, value, reply)], w')
  {
    var (w', value) := Invoke(handlers[call.thunk], world, call.args);
    var more := ran + [Ran(call, value, reply)];
    assert RanCalls(more)[..|ran|] == RanCalls(ran);
    assert RanValues(more) == RanValues(ran) + [value];
  }

  lemma OrderOneMore(
      handlers: seq<Handler>, locked: seq<Request>, ran: seq<Ran>, returned: seq<Return>, w: World)
    requires TableOk(handlers) && OrderOk(handlers, locked, ran, returned)
    requires |ran| < |locked| && WellTyped(handlers, locked[|ran|].call)
    ensures var call := locked[|ran|].call;
            var value := Invoke(handlers[call.thunk], w, call.args).1;
            OrderOk(handlers, locked, ran + [Ran(call, value, ReplyMessage(handlers[call.thunk], value))], returned)
  {
  }

  lemma ExecuteKeepsFaithful(s: State, w: World)
    requires Typed(s) && Serial(s) && Faithful(s, w) && Enabled(s, Execute)
    ensures Faithful(Apply(s, Execute), w)
  {
    ExecuteStep(s);
    if s.lock.Some? {
      var s' := Apply(s, Execute);
      var call := s.locked[|s.ran|].call;
      assert s'.callers == s.callers;
      ServedOneMore(s.handlers, w, s.ran, s.world, call, s'.ran[|s.ran|].reply);
      OrderOneMore(s.handlers, s.locked, s.ran, s.returned, s.world);
    }
  }

  /** The caller reads back the handler's value. */
  lemma ReplyRoundTrip(h: Handler, value: Bytes)
    requires Fits(h, value)
    ensures ReadReply(h, ReplyMessage(h, value)) == Value(value)
    ensures |ReplyMessage(h, value)| == if h.ValueOp? then h.size else 1
  {
  }

  lemma RecvKeepsFaithful(s: State, w: World, t: nat)
    requires Serial(s) && Faithful(s, w) && Enabled(s, Recv(t))
    ensures Faithful(Apply(s, Recv(t)), w)
  {
    var n := |s.returned|;
    assert s.lock == Some(t) && |s.ran| == n + 1;
    assert RanOk(s.handlers, s.locked[n].call, s.ran[n]);
    ReplyRoundTrip(s.handlers[s.locked[n].call.thunk], s.ran[n].value);
  }

  lemma ReturnedOneMore(
      handlers: seq<Handler>, locked: seq<Request>, ran: seq<Ran>, returned: seq<Return>)
    requires OrderOk(handlers, locked, ran, returned) && |returned| < |ran|
    ensures var r := locked[|returned|];
            OrderOk(handlers, locked, ran, returned + [Return(r.thread, r.call, Value(ran[|returned|].value))])
  {
  }

  lemma ReleaseKeepsFaithful(s: State, w: World, t: nat)
    requires Serial(s) && Faithful(s, w) && Enabled(s, Release(t))
    ensures Faithful(Apply(s, Release(t)), w)
  {
    assert s.lock == Some(t);
    var s', n := Apply(s, Release(t)), |s.returned|;
    ReturnedOneMore(s.handlers, s.locked, s.ran, s.returned);
    assert s'.returned == s.returned + [Return(t, s.locked[n].call, Value(s.ran[n].value))];
    assert ReceivedOk(s'.callers, s'.ran, n + 1);
  }

  lemma AcquireKeepsFaithful(s: State, w: World, t: nat)
    requires Faithful(s, w) && Enabled(s, Acquire(t))
    ensures Faithful(Apply(s, Acquire(t)), w)
  {
  }

  /** The other steps change neither the table nor what has been run or returned. */
  lemma OtherStepKeepsFaithful(s: State, w: World, l: Label)
    requires Faithful(s, w) && Enabled(s, l)
    requires l.Begin? || l.Send? || l.Receive? || l.Reply? || l.DropThunk? || l.DropOwner? || l.Destroy?
    ensures Faithful(Apply(s, l), w)
  {
    var s' := Apply(s, l);
    assert s'.handlers == s.handlers && s'.ran == s.ran && s'.world == s.world;
    assert s'.locked == s.locked && s'.returned == s.returned;
    assert ReceivedOk(s'.callers, s.ran, |s.returned|);
  }

  lemma StepKeepsFaithful(s: State, w: World, l: Label)
    requires Typed(s) && Serial(s) && Faithful(s, w) && Enabled(s, l)
    ensures Faithful(Apply(s, l), w)
  {
    if l.Register? {
      RegisterKeepsFaithful(s, w, l.h);
    } else if l.Acquire? {
      AcquireKeepsFaithful(s, w, l.t);
    } else if l.Execute? {
      ExecuteKeepsFaithful(s, w);
    } else if l.Recv? {
      RecvKeepsFaithful(s, w, l.t);
    } else if l.Release? {
      ReleaseKeepsFaithful(s, w, l.t);
    } else {
      OtherStepKeepsFaithful(s, w, l);
    }
  }

  // ------------------------------------------------------------------ every run

  lemma TableGrows(s: State, l: Label)
    requires Enabled(s, l)
    ensures s.handlers <= Apply(s, l).handlers
    ensures !l.Register? ==> Apply(s, l).handlers == s.handlers
  {
  }

  /** An opcode stays bound to its handler: the table of an earlier state is a prefix. */
  lemma {:induction false} TableIsAppendOnly(ls: seq<Label>, ss: seq<State>, i: nat, j: nat)
    requires Path(ls, ss) && i <= j < |ss|
    ensures ss[i].handlers <= ss[j].handlers
    decreases |ls|
  {
    if i > 0 {
      TableIsAppendOnly(ls[1..], ss[1..], i - 1, j - 1);
    } else if j > 0 {
      TableGrows(ss[0], ls[0]);
      TableIsAppendOnly(ls[1..], ss[1..], 0, j - 1);
    }
  }

  /** A run whose table never outgrows the opcodes. */
  ghost predicate Bounded(ss: seq<State>) {
    ss != [] && |ss[|ss| - 1].handlers| <= OPCODE_LIMIT
  }

  ghost predicate Inv(s: State, w: World) { Typed(s) && Serial(s) && Faithful(s, w) }

  lemma NextKeepsInv(p: State, l: Label, s: State, w: World)
    requires Inv(p, w) && Next(p, l, s) && |s.handlers| <= OPCODE_LIMIT
    ensures Inv(s, w)
  {
    StepKeepsTyped(p, l);
    StepKeepsSerial(p, l);
    StepKeepsFaithful(p, w, l);
  }

  ghost predicate Small(ss: seq<State>) {
    ss != [] ==> |ss[0].handlers| <= OPCODE_LIMIT && Small(ss[1..])
  }

  lemma {:induction false} BoundedIsSmall(ls: seq<Label>, ss: seq<State>)
    requires Path(ls, ss) && Bounded(ss)
    ensures Small(ss)
    decreases |ls|
  {
    TableIsAppendOnly(ls, ss, 0, |ls|);
    if ls != [] {
      BoundedIsSmall(ls[1..], ss[1..]);
    }
  }

  lemma {:induction false} PathKeepsInv(ls: seq<Label>, ss: seq<State>, i: nat, w: World)
    requires Path(ls, ss) && Small(ss) && i < |ss| && Inv(ss[0], w)
    ensures Inv(ss[i], w)
    decreases |ls|
  {
    if i > 0 {
      NextKeepsInv(ss[0], ls[0], ss[1], w);
      PathKeepsInv(ls[1..], ss[1..], i - 1, w);
    }
  }

  lemma InitInv(w: World)
    ensures Inv(Init(w), w)
  {
  }

  lemma ExecutionInv(w: World, ls: seq<Label>, ss: seq<State>, i: nat)
    requires Execution(w, ls, ss) && Bounded(ss) && i < |ss|
    ensures Inv(ss[i], w)
  {
    InitInv(w);
    BoundedIsSmall(ls, ss);
    PathKeepsInv(ls, ss, i, w);
  }

  function Asked(rs: seq<Request>): (cs: seq<Call>)
    ensures |cs| == |rs|
    ensures forall i :: 0 <= i < |rs| ==> cs[i] == rs[i].call
  {
    seq(|rs|, i requires 0 <= i < |rs| => rs[i].call)
  }

  lemma {:induction false} DirectPrefix(handlers: seq<Handler>, w: World, calls: seq<Call>, n: nat)
    requires AllWellTyped(handlers, calls) && n <= |calls|
    ensures Direct(handlers, w, calls[..n]).1 == Direct(handlers, w, calls).1[..n]
    decreases |calls|
  {
    if n < |calls| {
      var front := calls[..|calls| - 1];
      DirectPrefix(handlers, w, front, n);
      assert front[..n] == calls[..n];
    } else {
      assert calls[..n] == calls;
    }
  }

  /** The values of the runs are those of the direct calls in lock order. */
  lemma RunsAreDirectCalls(s: State, w: World)
    requires Inv(s, w)
    ensures AllWellTyped(s.handlers, Asked(s.locked)) && |s.ran| <= |s.locked|
    ensures RanValues(s.ran) == Direct(s.handlers, w, Asked(s.locked)).1[..|s.ran|]
    ensures |s.ran| == |s.locked| ==> s.world == Direct(s.handlers, w, Asked(s.locked)).0
  {
    var calls, n := Asked(s.locked), |s.ran|;
    forall k | 0 <= k < n
      ensures RanCalls(s.ran)[k] == calls[k]
    {
      assert RanOk(s.handlers, s.locked[k].call, s.ran[k]);
    }
    assert RanCalls(s.ran) == calls[..n];
    assert AllWellTyped(s.handlers, calls);
    DirectPrefix(s.handlers, w, calls, n);
    assert n == |calls| ==> calls[..n] == calls;
  }

  /** The main result: for any number of threads and any interleaving, handlers run one at
      a time in lock order, and every call that returned was given what its own handler
      yields on its own arguments, exactly as in the same series of direct calls. */
  lemma ProxyRefinesDirectCalls(w: World, ls: seq<Label>, ss: seq<State>, i: nat)
    requires Execution(w, ls, ss) && Bounded(ss) && i < |ss|
    ensures AllWellTyped(ss[i].handlers, Asked(ss[i].locked))
    ensures var s := ss[i];
            var (world, values) := Direct(s.handlers, w, Asked(s.locked));
            && |s.locked| - 1 <= |s.returned| <= |s.ran| <= |s.locked|
            && (forall k :: 0 <= k < |s.ran| ==> s.ran[k].call == s.locked[k].call && s.ran[k].value == values[k])
            && (forall k :: 0 <= k < |s.returned| ==>
                 s.returned[k] == Return(s.locked[k].thread, s.locked[k].call, Value(values[k])))
            && (s.lock.None? ==> |s.returned| == |s.locked| && s.world == world)
            && !s.link.server.Undefined?
  {
    var s := ss[i];
    ExecutionInv(w, ls, ss, i);
    RunsAreDirectCalls(s, w);
    var values := Direct(s.handlers, w, Asked(s.locked)).1;
    forall k | 0 <= k < |s.ran|
      ensures s.ran[k].call == s.locked[k].call && s.ran[k].value == values[k]
    {
      assert RanOk(s.handlers, s.locked[k].call, s.ran[k]);
      assert RanValues(s.ran)[k] == values[k];
    }
  }

  predicate Busy(server: Server) { server.Unpacking? || server.Replying? }

  function InFlight(link: Link): nat {
    |link.requests| + |link.replies| + (if Busy(link.server) then 1 else 0)
  }

  lemma SerialOneInFlight(s: State)
    requires Typed(s) && Serial(s)
    ensures InFlight(s.link) <= 1
    ensures !s.destroyed ==> (InFlight(s.link) == 1 <==> exists t :: t in s.callers && s.callers[t].Sent?)
    ensures s.destroyed ==> s.callers == map[] && s.lock.None?
  {
  }

  /** At most one request, handler run or reply exists; until the proxy is destroyed there
      is one exactly while some caller waits, and that caller alone holds the lock. */
  lemma OneInFlight(w: World, ls: seq<Label>, ss: seq<State>, i: nat)
    requires Execution(w, ls, ss) && Bounded(ss) && i < |ss|
    ensures var s := ss[i];
            && InFlight(s.link) <= 1
            && (!s.destroyed ==> (InFlight(s.link) == 1 <==> exists t :: t in s.callers && s.callers[t].Sent?))
            && (forall t :: t in s.callers && !s.callers[t].Blocked? ==> s.lock == Some(t))
            && (s.destroyed ==> s.callers == map[] && s.lock.None?)
  {
    ExecutionInv(w, ls, ss, i);
    SerialOneInFlight(ss[i]);
  }

  lemma PackedOpcode(call: Call)
    requires call.thunk < OPCODE_LIMIT
    ensures |Packed(call)| >= OPCODE_SIZE && DecodeOpcode(Packed(call)) == call.thunk
  {
    var opcode := Truncate(call.thunk);
    assert opcode == call.thunk;
    MessageOpcode(opcode, call.args);
  }

  lemma OpcodeOfSent(s: State, k: nat)
    requires Typed(s) && Serial(s) && k < |s.sent|
    ensures |s.sent[k]| >= OPCODE_SIZE
    ensures DecodeOpcode(s.sent[k]) == 0 <==> s.destroyed && k == |s.sent| - 1
  {
    if k < |s.locked| {
      var call := s.locked[k].call;
      assert WellTyped(s.handlers, call);
      PackedOpcode(call);
    } else {
      MessageOpcode(0, []);
    }
  }

  lemma {:induction false} PathSuffix(ls: seq<Label>, ss: seq<State>, i: nat)
    requires Path(ls, ss) && i <= |ls|
    ensures Path(ls[i..], ss[i..])
    decreases |ls|
  {
    if i == 0 {
      assert ls[0..] == ls && ss[0..] == ss;
    } else {
      PathSuffix(ls[1..], ss[1..], i - 1);
      assert ls[1..][i - 1..] == ls[i..] && ss[1..][i - 1..] == ss[i..];
    }
  }

  lemma DestroyedStep(s: State, l: Label, s': State)
    requires Typed(s) && s.destroyed && Next(s, l, s')
    ensures s'.destroyed && s'.sent == s.sent && Typed(s')
  {
  }

  lemma {:induction false} NothingSentAfterDestroy(ls: seq<Label>, ss: seq<State>, j: nat)
    requires Path(ls, ss) && j < |ss| && Typed(ss[0]) && ss[0].destroyed
    ensures ss[j].destroyed && ss[j].sent == ss[0].sent
    decreases |ls|
  {
    if j > 0 {
      DestroyedStep(ss[0], ls[0], ss[1]);
      NothingSentAfterDestroy(ls[1..], ss[1..], j - 1);
    }
  }

  /** The destructor's message is the last one of a run: a message carries opcode 0 exactly
      if it is the final one of a destroyed proxy, and none is sent after it. */
  lemma DestructorMessageIsLast(w: World, ls: seq<Label>, ss: seq<State>, i: nat, j: nat, k: nat)
    requires Execution(w, ls, ss) && Bounded(ss) && i <= j < |ss| && k < |ss[i].sent|
    ensures |ss[i].sent[k]| >= OPCODE_SIZE
    ensures DecodeOpcode(ss[i].sent[k]) == 0 <==> ss[i].destroyed && k == |ss[i].sent| - 1
    ensures ss[i].destroyed ==> ss[j].destroyed && ss[j].sent == ss[i].sent
  {
    ExecutionInv(w, ls, ss, i);
    OpcodeOfSent(ss[i], k);
    if ss[i].destroyed {
      PathSuffix(ls, ss, i);
      NothingSentAfterDestroy(ls[i..], ss[i..], j - i);
    }
  }

  // ------------------------------------------------------------------- progress

  /** The steps that carry calls on, as opposed to those that start or prepare them. */
  predicate Internal(l: Label) {
    l.Acquire? || l.Send? || l.Receive? || l.Execute? || l.Reply? || l.Recv? || l.Release?
  }

  predicate AllInternal(ls: seq<Label>) {
    ls != [] ==> Internal(ls[0]) && AllInternal(ls[1..])
  }

  function Waiting(callers: map<nat, Phase>): set<nat> {
    set t | t in callers && callers[t].Blocked?
  }

  function LinkRank(link: Link): nat {
    if link.requests != [] then 5
    else if link.server.Unpacking? then 4
    else if link.server.Replying? then 3
    else if link.replies != [] then 2
    else 0
  }

  /** How far the call of the lock holder, or the destructor's message, is from its end. */
  function Rank(s: State): nat {
    if s.lock.Some? && s.lock.value in s.callers then
      match s.callers[s.lock.value]
      case Blocked(_) => 0
      case Locked(_) => 6
      case Sent(_) => LinkRank(s.link)
      case Received(_, _) => 1
    else if s.destroyed then LinkRank(s.link)
    else 0
  }

  function Measure(s: State): nat { 7 * |Waiting(s.callers)| + Rank(s) }

  lemma AcquireDecreases(s: State, t: nat)
    requires Serial(s) && Enabled(s, Acquire(t)) && !s.destroyed
    ensures Measure(Apply(s, Acquire(t))) < Measure(s)
  {
    var s' := Apply(s, Acquire(t));
    assert Waiting(s'.callers) == Waiting(s.callers) - {t};
    assert s'.callers[t].Locked?;
    assert Rank(s') == 6;
  }

  lemma CallerStepDecreases(s: State, l: Label)
    requires Serial(s) && Enabled(s, l) && (l.Send? || l.Recv? || l.Release?)
    ensures Measure(Apply(s, l)) < Measure(s)
  {
    var s' := Apply(s, l);
    assert s.lock == Some(l.t);
    assert Waiting(s'.callers) == Waiting(s.callers);
  }

  lemma ExecuteDecreases(s: State)
    requires Typed(s) && Serial(s) && Enabled(s, Execute)
    ensures Measure(Apply(s, Execute)) < Measure(s)
  {
    ExecuteStep(s);
  }

  lemma LoopStepDecreases(s: State, l: Label)
    requires Serial(s) && Enabled(s, l) && (l.Receive? || l.Reply?)
    ensures Measure(Apply(s, l)) < Measure(s)
  {
    assert Apply(s, l).callers == s.callers;
  }

  /** Every internal step brings all started calls nearer to their end. */
  lemma InternalStepDecreases(s: State, l: Label)
    requires Typed(s) && Serial(s) && Enabled(s, l) && Internal(l)
    ensures Measure(Apply(s, l)) < Measure(s)
  {
    if l.Acquire? {
      assert s.callers[l.t].call.thunk in s.thunks;
      AcquireDecreases(s, l.t);
    } else if l.Send? || l.Recv? || l.Release? {
      CallerStepDecreases(s, l);
    } else if l.Execute? {
      ExecuteDecreases(s);
    } else {
      LoopStepDecreases(s, l);
    }
  }

  /** A waiting message always fits the receive buffer. */
  lemma MessageFits(s: State)
    requires Typed(s) && Serial(s) && s.lock.Some? && s.link.requests != []
    ensures |s.link.requests[0]| <= MAX_MESSAGE_SIZE
  {
    var call := s.locked[|s.returned|].call;
    assert s.link.requests[0] == s.sent[|s.returned|] == Packed(call);
    MessageRoundTrip(call.thunk, call.args, []);
    FlattenSize(call.args);
    assert WellTyped(s.handlers, call) && Registrable(s.handlers[call.thunk]);
  }

  /** While a thread is inside a thunk some internal step is enabled: no deadlock. */
  lemma NeverStuck(s: State) returns (l: Label)
    requires Typed(s) && Serial(s) && s.callers != map[]
    ensures Internal(l) && Enabled(s, l)
  {
    if s.lock.None? {
      var t :| t in s.callers;
      l := Acquire(t);
    } else {
      var t := s.lock.value;
      var p := s.callers[t];
      if p.Locked? {
        l := Send(t);
      } else if p.Received? {
        l := Release(t);
      } else if s.link.requests != [] {
        MessageFits(s);
        l := Receive(seq(MAX_MESSAGE_SIZE - |s.link.requests[0]|, _ => 0));
      } else if s.link.server.Unpacking? {
        l := Execute;
      } else if s.link.server.Replying? {
        l := Reply;
      } else {
        l := Recv(t);
      }
    }
  }

  lemma InternalStep(s: State, l: Label, s': State)
    requires Typed(s) && Serial(s) && Next(s, l, s') && Internal(l)
    ensures Typed(s') && Serial(s') && Measure(s') < Measure(s)
  {
    InternalStepDecreases(s, l);
    TableGrows(s, l);
    StepKeepsTyped(s, l);
    StepKeepsSerial(s, l);
  }

  lemma SomeStep(s: State, w: World) returns (l: Label, s': State)
    requires Inv(s, w) && s.callers != map[]
    ensures Internal(l) && Next(s, l, s') && Inv(s', w) && Measure(s') < Measure(s)
  {
    l := NeverStuck(s);
    s' := Apply(s, l);
    InternalStep(s, l, s');
    StepKeepsFaithful(s, w, l);
  }

  /** From every reachable state all calls can be carried to their return, in at most as
      many internal steps as the measure says. */
  lemma {:induction false} CallsComplete(s: State, w: World) returns (ls: seq<Label>, ss: seq<State>)
    requires Inv(s, w)
    ensures Path(ls, ss) && ss[0] == s && ss[|ls|].callers == map[]
    ensures |ls| <= Measure(s) && AllInternal(ls)
    decreases Measure(s)
  {
    if s.callers == map[] {
      ls, ss := [], [s];
    } else {
      var l, s' := SomeStep(s, w);
      var ls', ss' := CallsComplete(s', w);
      ls, ss := [l] + ls', [s] + ss';
      assert ls[1..] == ls' && ss[1..] == ss';
    }
  }

  /** And no schedule can do otherwise: without new calls or registrations a run of any
      order has at most that many steps. */
  lemma {:induction false} InternalRunsAreBounded(ls: seq<Label>, ss: seq<State>)
    requires Path(ls, ss) && AllInternal(ls) && Typed(ss[0]) && Serial(ss[0])
    ensures |ls| <= Measure(ss[0])
    decreases |ls|
  {
    if ls != [] {
      InternalStep(ss[0], ls[0], ss[1]);
      InternalRunsAreBounded(ls[1..], ss[1..]);
    }
  }
}
