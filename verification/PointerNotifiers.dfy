/** The pointer and its notifiers together (src/in_process_server.cpp): the client keeps one
    list for each kind of notification, and pointer events and registrations come in any
    order. */
module PointerNotifiers {
  import opened Common
  import opened Notifiers
  import Pointer

  datatype Kind = Enters | Leaves | Motions | Buttons

  function KindOf(n: Pointer.Notice): Kind {
    match n
    case Entered(_, _, _) => Enters
    case Left(_) => Leaves
    case Moved(_, _) => Motions
    case Pressed(_, _, _) => Buttons
  }

  datatype Item = Register(kind: Kind, keep: seq<Event> -> bool) | Arrives(e: Pointer.Event)

  /** The notices of one kind, as the arguments of the calls. */
  function OfKind(kind: Kind, ns: seq<Pointer.Notice>): seq<Event> {
    if ns == [] then []
    else if KindOf(ns[0]) == kind then [Noticed(ns[0])] + OfKind(kind, ns[1..])
    else OfKind(kind, ns[1..])
  }

  /** What happens to the list of one kind: a registration adds to it, and an event that the
      client handles in state `s` makes one round for each of its notices of that kind. */
  function ItemOps(kind: Kind, s: Pointer.State, i: Item): seq<Op> {
    match i
    case Register(k, keep) => if k == kind then [Add(keep)] else []
    case Arrives(e) => Rounds(OfKind(kind, Pointer.Notices(s, e)))
  }

  function Next(s: Pointer.State, i: Item): Pointer.State {
    if i.Arrives? then Pointer.Step(s, i.e) else s
  }

  function Ops(kind: Kind, s: Pointer.State, items: seq<Item>): seq<Op>
    decreases |items|
  {
    if items == [] then []
    else ItemOps(kind, s, items[0]) + Ops(kind, Next(s, items[0]), items[1..])
  }

  function StateAfter(s: Pointer.State, items: seq<Item>): Pointer.State
    decreases |items|
  {
    if items == [] then s else StateAfter(Next(s, items[0]), items[1..])
  }

  function ItemNotices(s: Pointer.State, i: Item): seq<Pointer.Notice> {
    if i.Arrives? then Pointer.Notices(s, i.e) else []
  }

  function EmittedFrom(s: Pointer.State, items: seq<Item>): seq<Pointer.Notice>
    decreases |items|
  {
    if items == [] then [] else ItemNotices(s, items[0]) + EmittedFrom(Next(s, items[0]), items[1..])
  }

  /** The pointer events alone. */
  function ItemEvents(i: Item): seq<Pointer.Event> { if i.Arrives? then [i.e] else [] }

  function Arrivals(items: seq<Item>): seq<Pointer.Event> {
    if items == [] then [] else ItemEvents(items[0]) + Arrivals(items[1..])
  }

  // ------------------------------------------------------------ concatenations

  lemma {:induction false} OfKindConcat(kind: Kind, a: seq<Pointer.Notice>, b: seq<Pointer.Notice>)
    ensures OfKind(kind, a + b) == OfKind(kind, a) + OfKind(kind, b)
  {
    if a == [] {
      assert a + b == b;
    } else {
      OfKindConcat(kind, a[1..], b);
      HeadOfConcat(a, b);
      Associate([Noticed(a[0])], OfKind(kind, a[1..]), OfKind(kind, b));
    }
  }

  /** Which notices each kind holds; with OfKindConcat, all of them and in order. */
  lemma KindsHold(n: Pointer.Notice)
    ensures OfKind(Enters, [n]) == if n.Entered? then [Noticed(n)] else []
    ensures OfKind(Leaves, [n]) == if n.Left? then [Noticed(n)] else []
    ensures OfKind(Motions, [n]) == if n.Moved? then [Noticed(n)] else []
    ensures OfKind(Buttons, [n]) == if n.Pressed? then [Noticed(n)] else []
  {
    assert [n][1..] == [];
  }

  lemma {:induction false} EventsOfRounds(es: seq<Event>, ops: seq<Op>)
    ensures Events(Rounds(es) + ops) == es + Events(ops)
  {
    if es == [] {
      assert Rounds(es) + ops == ops;
    } else {
      EventsOfRounds(es[1..], ops);
      HeadOfConcat(Rounds(es), ops);
      assert Rounds(es)[1..] == Rounds(es[1..]) && [es[0]] + es[1..] == es;
      Associate([es[0]], es[1..], Events(ops));
    }
  }

  lemma {:induction false} EventsOfItem(kind: Kind, s: Pointer.State, i: Item, ops: seq<Op>)
    ensures Events(ItemOps(kind, s, i) + ops) == OfKind(kind, ItemNotices(s, i)) + Events(ops)
  {
    match i
    case Register(k, keep) =>
      if k == kind {
        assert ([Add(keep)] + ops)[1..] == ops;
      } else {
        assert [] + ops == ops;
      }
    case Arrives(e) => EventsOfRounds(OfKind(kind, Pointer.Notices(s, e)), ops);
  }

  /** The rounds that a list goes through are the notices of its kind. */
  lemma {:induction false} EventsOfOps(kind: Kind, s: Pointer.State, items: seq<Item>)
    ensures Events(Ops(kind, s, items)) == OfKind(kind, EmittedFrom(s, items))
    decreases |items|
  {
    if items != [] {
      var next := Next(s, items[0]);
      EventsOfOps(kind, next, items[1..]);
      EventsOfItem(kind, s, items[0], Ops(kind, next, items[1..]));
      OfKindConcat(kind, ItemNotices(s, items[0]), EmittedFrom(next, items[1..]));
    }
  }

  lemma {:induction false} OpsConcat(kind: Kind, s: Pointer.State, a: seq<Item>, b: seq<Item>)
    ensures Ops(kind, s, a + b) == Ops(kind, s, a) + Ops(kind, StateAfter(s, a), b)
    decreases |a|
  {
    if a == [] {
      assert a + b == b;
    } else {
      var next := Next(s, a[0]);
      OpsConcat(kind, next, a[1..], b);
      HeadOfConcat(a, b);
      Associate(ItemOps(kind, s, a[0]), Ops(kind, next, a[1..]), Ops(kind, StateAfter(next, a[1..]), b));
    }
  }

  lemma {:induction false} OneItem(past: seq<Pointer.Event>, i: Item)
    ensures Pointer.Emitted(past + ItemEvents(i)) == Pointer.Emitted(past) + ItemNotices(Pointer.Run(past), i)
    ensures Pointer.Run(past + ItemEvents(i)) == Next(Pointer.Run(past), i)
  {
    if i.Arrives? {
      assert (past + [i.e])[..|past|] == past;
    } else {
      assert past + [] == past;
    }
  }

  lemma {:induction false} RunSince(past: seq<Pointer.Event>, items: seq<Item>)
    ensures Pointer.Run(past + Arrivals(items)) == StateAfter(Pointer.Run(past), items)
    decreases |items|
  {
    if items == [] {
      assert past + [] == past;
    } else {
      var now := past + ItemEvents(items[0]);
      OneItem(past, items[0]);
      RunSince(now, items[1..]);
      Associate(past, ItemEvents(items[0]), Arrivals(items[1..]));
    }
  }

  /** What is emitted from a state on is what the whole stream emits beyond its past. */
  lemma {:induction false} EmittedSince(past: seq<Pointer.Event>, items: seq<Item>)
    ensures Pointer.Emitted(past + Arrivals(items)) == Pointer.Emitted(past) + EmittedFrom(Pointer.Run(past), items)
    decreases |items|
  {
    if items == [] {
      assert past + [] == past;
    } else {
      var s, now := Pointer.Run(past), past + ItemEvents(items[0]);
      OneItem(past, items[0]);
      EmittedSince(now, items[1..]);
      Associate(past, ItemEvents(items[0]), Arrivals(items[1..]));
      Associate(Pointer.Emitted(past), ItemNotices(s, items[0]), EmittedFrom(Next(s, items[0]), items[1..]));
    }
  }

  // ---------------------------------------------------------------- the theorem

  lemma {:induction false} SplitAtRegistration(
      before: seq<Item>, kind: Kind, keep: seq<Event> -> bool, after: seq<Item>)
    ensures var s := StateAfter(Pointer.INITIAL, before);
            Ops(kind, Pointer.INITIAL, before + [Register(kind, keep)] + after) ==
            Ops(kind, Pointer.INITIAL, before) + [Add(keep)] + Ops(kind, s, after)
  {
    var s, rest := StateAfter(Pointer.INITIAL, before), [Register(kind, keep)] + after;
    assert before + [Register(kind, keep)] + after == before + rest;
    OpsConcat(kind, Pointer.INITIAL, before, rest);
    assert rest[1..] == after && Ops(kind, s, rest) == [Add(keep)] + Ops(kind, s, after);
  }

  lemma {:induction false} SinceRegistration(before: seq<Item>, after: seq<Item>)
    ensures var past, all := Pointer.Emitted(Arrivals(before)), Pointer.Emitted(Arrivals(before) + Arrivals(after));
            past <= all && all[|past|..] == EmittedFrom(StateAfter(Pointer.INITIAL, before), after)
  {
    assert [] + Arrivals(before) == Arrivals(before);
    RunSince([], before);
    EmittedSince(Arrivals(before), after);
  }

  /** Over every interleaving of pointer events, valid or not, and registrations: a notifier of
      some kind is called, in order, with exactly the notices of that kind that the client emits
      after its registration, up to and including the first to which it answers false. */
  lemma {:induction false} HearsItsNotices(before: seq<Item>, kind: Kind, keep: seq<Event> -> bool, after: seq<Item>)
    ensures var items := before + [Register(kind, keep)] + after;
            var past, all := Pointer.Emitted(Arrivals(before)), Pointer.Emitted(Arrivals(before) + Arrivals(after));
            && past <= all
            && CallsTo(Log(Ops(kind, Pointer.INITIAL, items)), |Ops(kind, Pointer.INITIAL, before)|) ==
               Heard(keep, [], OfKind(kind, all[|past|..]))
  {
    var s := StateAfter(Pointer.INITIAL, before);
    var ops, at := Ops(kind, Pointer.INITIAL, before), |Ops(kind, Pointer.INITIAL, before)|;
    SplitAtRegistration(before, kind, keep, after);
    var all := ops + [Add(keep)] + Ops(kind, s, after);
    assert all[at] == Add(keep) && all[at + 1..] == Ops(kind, s, after);
    EachHearsUntilFalse(all, at);
    EventsOfOps(kind, s, after);
    SinceRegistration(before, after);
  }
}
