/** The notifier lists of Client::Impl and ShmBuffer::Impl (src/in_process_server.cpp). A
    notifier is called for each event and stays in its list while it returns true. It may
    keep state of its own: its answer depends on everything it has been called with. It
    does not re-enter dispatch or add notifiers while it is being called. */
module Notifiers {
  import opened Common
  import Pointer

  /** The arguments of one notification: those of a pointer event, or none. */
  datatype Event = Noticed(notice: Pointer.Notice) | Released

  /** A notifier in a list: the index of the operation that registered it, its answer to
      the events it has been called with, and those events. */
  datatype Listener = Listener(at: nat, keep: seq<Event> -> bool, seen: seq<Event>) {
    function Called(e: Event): Listener { this.(seen := seen + [e]) }
    predicate Wanted() { keep(seen) }
  }

  datatype Call = Call(at: nat, e: Event)

  datatype Op = Add(keep: seq<Event> -> bool) | Notify(e: Event)

  // ------------------------------------------------------------- specification

  /** Calls everyone, in order, and keeps those that answered true. */
  function Filter(list: seq<Listener>, e: Event): seq<Listener> {
    if list == [] then []
    else
      var l, rest := list[0].Called(e), Filter(list[1..], e);
      if l.Wanted() then [l] + rest else rest
  }

  function CallsOf(list: seq<Listener>, e: Event): seq<Call> {
    if list == [] then [] else [Call(list[0].at, e)] + CallsOf(list[1..], e)
  }

  /** One operation, the n-th of the run. */
  function Step(list: seq<Listener>, n: nat, op: Op): seq<Listener> {
    match op
    case Add(keep) => list + [Listener(n, keep, [])]
    case Notify(e) => Filter(list, e)
  }

  function RunFrom(list: seq<Listener>, n: nat, ops: seq<Op>): seq<Listener>
    decreases |ops|
  {
    if ops == [] then list else RunFrom(Step(list, n, ops[0]), n + 1, ops[1..])
  }

  /** All calls of the run, in order. */
  function LogFrom(list: seq<Listener>, n: nat, ops: seq<Op>): seq<Call>
    decreases |ops|
  {
    if ops == [] then []
    else
      var rest := LogFrom(Step(list, n, ops[0]), n + 1, ops[1..]);
      if ops[0].Notify? then CallsOf(list, ops[0].e) + rest else rest
  }

  function Run(ops: seq<Op>): seq<Listener> { RunFrom([], 0, ops) }

  function Log(ops: seq<Op>): seq<Call> { LogFrom([], 0, ops) }

  function CallsTo(log: seq<Call>, at: nat): seq<Event> {
    if log == [] then []
    else
      var rest := CallsTo(log[1..], at);
      if log[0].at == at then [log[0].e] + rest else rest
  }

  // --------------------------------------------- what each notifier should see

  function Events(ops: seq<Op>): seq<Event> {
    if ops == [] then []
    else
      var rest := Events(ops[1..]);
      if ops[0].Notify? then [ops[0].e] + rest else rest
  }

  /** After `seen`, it answers true to all of these events. */
  predicate Stays(keep: seq<Event> -> bool, seen: seq<Event>, es: seq<Event>)
    decreases |es|
  {
    es == [] || (keep(seen + [es[0]]) && Stays(keep, seen + [es[0]], es[1..]))
  }

  /** The events up to and including the first to which it answers false. */
  function Heard(keep: seq<Event> -> bool, seen: seq<Event>, es: seq<Event>): seq<Event>
    decreases |es|
  {
    if es == [] then []
    else if keep(seen + [es[0]]) then [es[0]] + Heard(keep, seen + [es[0]], es[1..])
    else [es[0]]
  }

  /** The members of a list that answer true to all of these events. */
  function Staying(list: seq<Listener>, es: seq<Event>): seq<Listener> {
    if list == [] then []
    else
      var l, rest := list[0], Staying(list[1..], es);
      if Stays(l.keep, l.seen, es) then [l.(seen := l.seen + es)] + rest else rest
  }

  /** The notifiers registered by these operations that answer true to all events since, in
      the order of registration; the first operation is the n-th of the run. */
  function Registered(n: nat, ops: seq<Op>): seq<Listener>
    decreases |ops|
  {
    if ops == [] then []
    else
      var rest, es := Registered(n + 1, ops[1..]), Events(ops[1..]);
      if ops[0].Add? && Stays(ops[0].keep, [], es) then [Listener(n, ops[0].keep, es)] + rest else rest
  }

  lemma {:induction false} StayingNothing(list: seq<Listener>)
    ensures Staying(list, []) == list
  {
    if list != [] {
      StayingNothing(list[1..]);
      assert list[0].seen + [] == list[0].seen;
    }
  }

  lemma {:induction false} StayingConcat(a: seq<Listener>, b: seq<Listener>, es: seq<Event>)
    ensures Staying(a + b, es) == Staying(a, es) + Staying(b, es)
  {
    if a == [] {
      assert a + b == b;
    } else {
      StayingConcat(a[1..], b, es);
      var l := a[0].(seen := a[0].seen + es);
      HeadOfConcat(a, b);
      Associate([l], Staying(a[1..], es), Staying(b, es));
    }
  }

  lemma {:induction false} StayingThroughFilter(list: seq<Listener>, e: Event, es: seq<Event>)
    ensures Staying(Filter(list, e), es) == Staying(list, [e] + es)
  {
    if list != [] {
      StayingThroughFilter(list[1..], e, es);
      var l := list[0].Called(e);
      assert ([e] + es)[1..] == es;
      assert l.seen + es == list[0].seen + ([e] + es);
      if l.Wanted() {
        assert Filter(list, e)[1..] == Filter(list[1..], e);
      }
    }
  }

  lemma {:induction false} StayingOne(l: Listener, es: seq<Event>)
    requires l.seen == []
    ensures Staying([l], es) == if Stays(l.keep, [], es) then [l.(seen := es)] else []
  {
    assert [l][1..] == [] && [] + es == es;
  }

  lemma AddStays(list: seq<Listener>, n: nat, ops: seq<Op>)
    requires ops != [] && ops[0].Add?
    ensures Staying(Step(list, n, ops[0]), Events(ops[1..])) + Registered(n + 1, ops[1..]) ==
            Staying(list, Events(ops)) + Registered(n, ops)
  {
    var l, es := Listener(n, ops[0].keep, []), Events(ops[1..]);
    var rest := Registered(n + 1, ops[1..]);
    StayingConcat(list, [l], es);
    StayingOne(l, es);
    assert Registered(n, ops) == Staying([l], es) + rest;
    Associate(Staying(list, es), Staying([l], es), rest);
  }

  lemma NotifyStays(list: seq<Listener>, n: nat, ops: seq<Op>)
    requires ops != [] && ops[0].Notify?
    ensures Staying(Step(list, n, ops[0]), Events(ops[1..])) + Registered(n + 1, ops[1..]) ==
            Staying(list, Events(ops)) + Registered(n, ops)
  {
    StayingThroughFilter(list, ops[0].e, Events(ops[1..]));
  }

  lemma {:induction false} RunIsStaying(list: seq<Listener>, n: nat, ops: seq<Op>)
    ensures RunFrom(list, n, ops) == Staying(list, Events(ops)) + Registered(n, ops)
    decreases |ops|
  {
    if ops == [] {
      StayingNothing(list);
    } else {
      RunIsStaying(Step(list, n, ops[0]), n + 1, ops[1..]);
      if ops[0].Notify? {
        NotifyStays(list, n, ops);
      } else {
        AddStays(list, n, ops);
      }
    }
  }

  /** Over a whole run the list holds exactly the notifiers that answered true to every event
      since their registration, in the order of registration. */
  lemma {:induction false} ListIsThoseStaying(ops: seq<Op>)
    ensures Run(ops) == Registered(0, ops)
  {
    RunIsStaying([], 0, ops);
  }

  // ------------------------------------------------------ the calls of each one

  predicate Absent(list: seq<Listener>, at: nat) {
    list == [] || (list[0].at != at && Absent(list[1..], at))
  }

  /** Registration numbers below n, each once. */
  predicate Distinct(list: seq<Listener>, n: nat) {
    list == [] || (list[0].at < n && Absent(list[1..], list[0].at) && Distinct(list[1..], n))
  }

  lemma {:induction false} NotRegisteredYet(list: seq<Listener>, n: nat, at: nat)
    requires Distinct(list, n) && n <= at
    ensures Absent(list, at)
  {
    if list != [] {
      NotRegisteredYet(list[1..], n, at);
    }
  }

  lemma {:induction false} FilterAbsent(list: seq<Listener>, e: Event, at: nat)
    requires Absent(list, at)
    ensures Absent(Filter(list, e), at)
  {
    if list != [] {
      FilterAbsent(list[1..], e, at);
    }
  }

  lemma {:induction false} AbsentConcat(list: seq<Listener>, l: Listener, at: nat)
    requires Absent(list, at) && l.at != at
    ensures Absent(list + [l], at)
  {
    if list == [] {
      assert list + [l] == [l] && [l][1..] == [];
    } else {
      AbsentConcat(list[1..], l, at);
      assert (list + [l])[1..] == list[1..] + [l];
    }
  }

  lemma {:induction false} FilterDistinct(list: seq<Listener>, e: Event, n: nat)
    requires Distinct(list, n)
    ensures Distinct(Filter(list, e), n + 1)
  {
    if list != [] {
      FilterDistinct(list[1..], e, n);
      FilterAbsent(list[1..], e, list[0].at);
    }
  }

  lemma {:induction false} AddDistinct(list: seq<Listener>, l: Listener)
    requires Distinct(list, l.at)
    ensures Distinct(list + [l], l.at + 1)
  {
    if list == [] {
      assert list + [l] == [l] && [l][1..] == [];
    } else {
      AddDistinct(list[1..], l);
      AbsentConcat(list[1..], l, list[0].at);
      assert (list + [l])[1..] == list[1..] + [l];
    }
  }

  lemma StepDistinct(list: seq<Listener>, n: nat, op: Op)
    requires Distinct(list, n)
    ensures Distinct(Step(list, n, op), n + 1)
  {
    match op
    case Add(keep) => AddDistinct(list, Listener(n, keep, []));
    case Notify(e) => FilterDistinct(list, e, n);
  }

  /** What the run will still tell the notifier registered as `at`, given the list now. */
  function Due(list: seq<Listener>, at: nat, es: seq<Event>): seq<Event> {
    if list == [] then []
    else if list[0].at == at then Heard(list[0].keep, list[0].seen, es)
    else Due(list[1..], at, es)
  }

  lemma {:induction false} CallsToConcat(a: seq<Call>, b: seq<Call>, at: nat)
    ensures CallsTo(a + b, at) == CallsTo(a, at) + CallsTo(b, at)
  {
    if a == [] {
      assert a + b == b;
    } else {
      CallsToConcat(a[1..], b, at);
      var e := a[0].e;
      HeadOfConcat(a, b);
      Associate([e], CallsTo(a[1..], at), CallsTo(b, at));
    }
  }

  lemma {:induction false} DueNothing(list: seq<Listener>, at: nat)
    ensures Due(list, at, []) == []
  {
    if list != [] {
      DueNothing(list[1..], at);
    }
  }

  lemma {:induction false} DueConcat(list: seq<Listener>, l: Listener, at: nat, es: seq<Event>)
    requires Absent(list, l.at)
    ensures Due(list + [l], at, es) ==
            if l.at == at then Heard(l.keep, l.seen, es) else Due(list, at, es)
  {
    if list == [] {
      assert list + [l] == [l] && [l][1..] == [];
    } else {
      DueConcat(list[1..], l, at, es);
      assert (list + [l])[1..] == list[1..] + [l];
    }
  }

  lemma {:induction false} DueUnknown(list: seq<Listener>, at: nat, es: seq<Event>)
    requires Absent(list, at)
    ensures Due(list, at, es) == []
  {
    if list != [] {
      DueUnknown(list[1..], at, es);
    }
  }

  lemma {:induction false} CallsToUnknown(list: seq<Listener>, e: Event, at: nat)
    requires Absent(list, at)
    ensures CallsTo(CallsOf(list, e), at) == []
  {
    if list != [] {
      CallsToUnknown(list[1..], e, at);
      assert CallsOf(list, e)[1..] == CallsOf(list[1..], e);
    }
  }

  lemma {:induction false} OneRoundHead(list: seq<Listener>, e: Event, at: nat, es: seq<Event>)
    requires list != [] && list[0].at == at && Absent(list[1..], at)
    ensures CallsTo(CallsOf(list, e), at) == [e]
    ensures [e] + Due(Filter(list, e), at, es) == Due(list, at, [e] + es)
  {
    var l, tail := list[0].Called(e), list[1..];
    assert CallsOf(list, e)[1..] == CallsOf(tail, e);
    CallsToUnknown(tail, e, at);
    assert ([e] + es)[1..] == es;
    if !l.Wanted() {
      FilterAbsent(tail, e, at);
      DueUnknown(Filter(tail, e), at, es);
    }
  }

  lemma {:induction false} SkipHead(list: seq<Listener>, e: Event, at: nat, es: seq<Event>)
    requires list != [] && list[0].at != at
    ensures CallsTo(CallsOf(list, e), at) == CallsTo(CallsOf(list[1..], e), at)
    ensures Due(Filter(list, e), at, es) == Due(Filter(list[1..], e), at, es)
  {
    assert CallsOf(list, e)[1..] == CallsOf(list[1..], e);
    if list[0].Called(e).Wanted() {
      assert Filter(list, e)[1..] == Filter(list[1..], e);
    }
  }

  /** One round of calls delivers the next event to each notifier that is due one. */
  lemma {:induction false} OneRound(list: seq<Listener>, n: nat, e: Event, at: nat, es: seq<Event>)
    requires Distinct(list, n)
    ensures CallsTo(CallsOf(list, e), at) + Due(Filter(list, e), at, es) == Due(list, at, [e] + es)
  {
    if list != [] {
      if list[0].at == at {
        OneRoundHead(list, e, at, es);
      } else {
        SkipHead(list, e, at, es);
        OneRound(list[1..], n, e, at, es);
      }
    }
  }

  /** One operation of a run delivers what is due by it. */
  lemma {:induction false} OneOp(list: seq<Listener>, n: nat, ops: seq<Op>, at: nat)
    requires Distinct(list, n) && ops != [] && at != n
    ensures var calls := if ops[0].Notify? then CallsOf(list, ops[0].e) else [];
            CallsTo(calls, at) + Due(Step(list, n, ops[0]), at, Events(ops[1..])) == Due(list, at, Events(ops))
  {
    if ops[0].Notify? {
      OneRound(list, n, ops[0].e, at, Events(ops[1..]));
    } else {
      NotRegisteredYet(list, n, n);
      DueConcat(list, Listener(n, ops[0].keep, []), at, Events(ops[1..]));
    }
  }

  lemma LogStep(list: seq<Listener>, n: nat, ops: seq<Op>, at: nat)
    requires ops != []
    ensures var calls := if ops[0].Notify? then CallsOf(list, ops[0].e) else [];
            CallsTo(LogFrom(list, n, ops), at) ==
            CallsTo(calls, at) + CallsTo(LogFrom(Step(list, n, ops[0]), n + 1, ops[1..]), at)
  {
    if ops[0].Notify? {
      CallsToConcat(CallsOf(list, ops[0].e), LogFrom(Step(list, n, ops[0]), n + 1, ops[1..]), at);
    }
  }

  lemma {:induction false} CallsAreDue(list: seq<Listener>, n: nat, ops: seq<Op>, at: nat)
    requires Distinct(list, n) && at < n
    ensures CallsTo(LogFrom(list, n, ops), at) == Due(list, at, Events(ops))
    decreases |ops|
  {
    if ops == [] {
      DueNothing(list, at);
    } else {
      StepDistinct(list, n, ops[0]);
      CallsAreDue(Step(list, n, ops[0]), n + 1, ops[1..], at);
      OneOp(list, n, ops, at);
      LogStep(list, n, ops, at);
    }
  }

  lemma {:induction false} NewRegistration(list: seq<Listener>, n: nat, ops: seq<Op>)
    requires Distinct(list, n) && ops != [] && ops[0].Add?
    ensures CallsTo(LogFrom(list, n, ops), n) == Heard(ops[0].keep, [], Events(ops[1..]))
  {
    StepDistinct(list, n, ops[0]);
    CallsAreDue(Step(list, n, ops[0]), n + 1, ops[1..], n);
    NotRegisteredYet(list, n, n);
    DueConcat(list, Listener(n, ops[0].keep, []), n, Events(ops[1..]));
  }

  /** An operation before the registration does not call the notifier. */
  lemma NotYetCalled(list: seq<Listener>, n: nat, ops: seq<Op>, at: nat)
    requires Distinct(list, n) && ops != [] && n < at
    ensures CallsTo(LogFrom(list, n, ops), at) == CallsTo(LogFrom(Step(list, n, ops[0]), n + 1, ops[1..]), at)
  {
    LogStep(list, n, ops, at);
    if ops[0].Notify? {
      NotRegisteredYet(list, n, at);
      CallsToUnknown(list, ops[0].e, at);
    }
  }

  lemma {:induction false} LaterRegistration(list: seq<Listener>, n: nat, ops: seq<Op>, k: nat)
    requires Distinct(list, n) && k < |ops| && ops[k].Add?
    ensures CallsTo(LogFrom(list, n, ops), n + k) == Heard(ops[k].keep, [], Events(ops[k + 1..]))
    decreases |ops|
  {
    if k == 0 {
      NewRegistration(list, n, ops);
    } else {
      NotYetCalled(list, n, ops, n + k);
      StepDistinct(list, n, ops[0]);
      LaterRegistration(Step(list, n, ops[0]), n + 1, ops[1..], k - 1);
      assert ops[1..][k..] == ops[k + 1..];
    }
  }

  /** Over a whole run each notifier is called, in order, with every event since its
      registration up to and including the first to which it answers false, and with nothing
      later. */
  lemma {:induction false} EachHearsUntilFalse(ops: seq<Op>, at: nat)
    requires at < |ops| && ops[at].Add?
    ensures CallsTo(Log(ops), at) == Heard(ops[at].keep, [], Events(ops[at + 1..]))
  {
    LaterRegistration([], 0, ops, at);
  }

  lemma {:induction false} FilterSnoc(list: seq<Listener>, l: Listener, e: Event)
    ensures Filter(list + [l], e) ==
            if l.Called(e).Wanted() then Filter(list, e) + [l.Called(e)] else Filter(list, e)
  {
    if list == [] {
      assert list + [l] == [l] && [l][1..] == [];
    } else {
      FilterSnoc(list[1..], l, e);
      assert (list + [l])[0] == list[0] && (list + [l])[1..] == list[1..] + [l];
    }
  }

  lemma {:induction false} CallsSnoc(list: seq<Listener>, l: Listener, e: Event)
    ensures CallsOf(list + [l], e) == CallsOf(list, e) + [Call(l.at, e)]
  {
    if list == [] {
      assert list + [l] == [l] && [l][1..] == [];
    } else {
      CallsSnoc(list[1..], l, e);
      assert (list + [l])[0] == list[0] && (list + [l])[1..] == list[1..] + [l];
    }
  }

  // ------------------------------------------------------- collect, then erase

  function Asked(list: seq<Listener>, e: Event): (r: seq<Listener>)
    ensures |r| == |list|
    ensures forall i :: 0 <= i < |list| ==> r[i] == list[i].Called(e)
  {
    seq(|list|, i requires 0 <= i < |list| => list[i].Called(e))
  }

  /** The positions of the notifiers that answered false, ascending. */
  function Expired(asked: seq<Listener>): seq<nat> {
    if asked == [] then []
    else
      var n := |asked| - 1;
      if asked[n].Wanted() then Expired(asked[..n]) else Expired(asked[..n]) + [n]
  }

  function Wanted(asked: seq<Listener>): seq<Listener> {
    if asked == [] then []
    else
      var n := |asked| - 1;
      if asked[n].Wanted() then Wanted(asked[..n]) + [asked[n]] else Wanted(asked[..n])
  }

  function Erase(list: seq<Listener>, p: nat): seq<Listener>
    requires p < |list|
  {
    list[..p] + list[p + 1..]
  }

  function EraseAt(list: seq<Listener>, positions: seq<nat>): Option<seq<Listener>>
    decreases |positions|
  {
    if positions == [] then Some(list)
    else if positions[0] < |list| then EraseAt(Erase(list, positions[0]), positions[1..])
    else None
  }

  lemma {:induction false} ExpiredAscend(asked: seq<Listener>)
    ensures forall k :: 0 <= k < |Expired(asked)| ==>
              Expired(asked)[k] < |asked| && !asked[Expired(asked)[k]].Wanted()
    ensures forall j, k :: 0 <= j < k < |Expired(asked)| ==> Expired(asked)[j] < Expired(asked)[k]
  {
    if asked != [] {
      ExpiredAscend(asked[..|asked| - 1]);
    }
  }

  lemma {:induction false} NoneExpired(asked: seq<Listener>)
    requires Expired(asked) == []
    ensures Wanted(asked) == asked
  {
    if asked != [] {
      NoneExpired(asked[..|asked| - 1]);
    }
  }

  lemma {:induction false} OneExpired(asked: seq<Listener>)
    requires |Expired(asked)| == 1
    ensures Expired(asked)[0] < |asked| && Wanted(asked) == Erase(asked, Expired(asked)[0])
  {
    var n := |asked| - 1;
    var front := asked[..n];
    if asked[n].Wanted() {
      OneExpired(front);
      var p := Expired(front)[0];
      assert Erase(front, p) + [asked[n]] == Erase(asked, p);
    } else {
      NoneExpired(front);
      assert Erase(asked, n) == front;
    }
  }

  lemma {:induction false} WantedAreWanted(asked: seq<Listener>, i: nat)
    requires i < |Wanted(asked)|
    ensures Wanted(asked)[i].Wanted()
  {
    var n := |asked| - 1;
    if i < |Wanted(asked[..n])| {
      WantedAreWanted(asked[..n], i);
    }
  }

  /** Erasing behind an element leaves it where it is. */
  lemma {:induction false} ErasingBehind(list: seq<Listener>, positions: seq<nat>, i: nat)
    requires i < |list| && forall k :: 0 <= k < |positions| ==> positions[k] > i
    ensures EraseAt(list, positions).Some? ==>
              i < |EraseAt(list, positions).value| && EraseAt(list, positions).value[i] == list[i]
    decreases |positions|
  {
    if positions != [] && positions[0] < |list| {
      ErasingBehind(Erase(list, positions[0]), positions[1..], i);
    }
  }

  /** on_release keeps exactly the notifiers that answered true if and only if at most one
      answered false. With two or more the second one stays in the list, since the first
      erasure has moved it in front of the position that was remembered for it. */
  lemma {:induction false} ReleaseKeepsWantedIff(asked: seq<Listener>)
    ensures EraseAt(asked, Expired(asked)) == Some(Wanted(asked)) <==> |Expired(asked)| <= 1
  {
    var ps := Expired(asked);
    ExpiredAscend(asked);
    if ps == [] {
      NoneExpired(asked);
    } else if |ps| == 1 {
      OneExpired(asked);
      assert EraseAt(Erase(asked, ps[0]), ps[1..]) == Some(Erase(asked, ps[0]));
    } else if |ps| >= 2 {
      var first := Erase(asked, ps[0]);
      var second := ps[1] - 1;
      assert first[second] == asked[ps[1]];
      ErasingBehind(first, ps[1..], second);
      if EraseAt(asked, ps) == Some(Wanted(asked)) {
        WantedAreWanted(asked, second);
        assert false;
      }
    }
  }

  lemma {:induction false} FilterIsWanted(list: seq<Listener>, e: Event)
    ensures Filter(list, e) == Wanted(Asked(list, e))
  {
    if list != [] {
      var n := |list| - 1;
      FilterIsWanted(list[..n], e);
      FilterSnoc(list[..n], list[n], e);
      assert list[..n] + [list[n]] == list;
      assert Asked(list, e)[..n] == Asked(list[..n], e);
    }
  }

  /** So with at most one expiry it is the filter of the other lists. */
  lemma {:induction false} ReleaseRefinesFilter(list: seq<Listener>, e: Event)
    ensures var asked := Asked(list, e);
            EraseAt(asked, Expired(asked)) == Some(Filter(list, e)) <==> |Expired(asked)| <= 1
  {
    FilterIsWanted(list, e);
    ReleaseKeepsWantedIff(Asked(list, e));
  }

  lemma {:induction false} ExpiredPair(l: Listener, m: Listener, more: seq<Listener>)
    requires !l.Wanted() && !m.Wanted() && (more == [] || (|more| == 1 && more[0].Wanted()))
    ensures Expired([l, m] + more) == [0, 1]
  {
    var all := [l, m] + more;
    assert all[..2] == [l, m] && [l, m][..1] == [l] && [l][..0] == [];
    assert Expired([l]) == [0];
    assert Expired([l, m]) == [0, 1];
    if more == [] {
      assert all == [l, m];
    }
  }

  lemma WantedLast(l: Listener, m: Listener, k: Listener)
    requires !l.Wanted() && !m.Wanted() && k.Wanted()
    ensures Wanted([l, m, k]) == [k]
  {
    assert [l, m, k][..2] == [l, m] && [l, m][..1] == [l] && [l][..0] == [];
    assert Wanted([l]) == Wanted([l][..0]) == [];
    assert Wanted([l, m]) == Wanted([l, m][..1]);
    assert [] + [k] == [k];
  }

  /** Two that have answered false and no more: the second erasure is beyond the end. With one
      behind them that answered true, that one goes and the second of the two stays. */
  lemma TwoExpiriesGoWrong(l: Listener, m: Listener, k: Listener)
    requires !l.Wanted() && !m.Wanted() && k.Wanted()
    ensures EraseAt([l, m], Expired([l, m])) == None
    ensures EraseAt([l, m, k], Expired([l, m, k])) == Some([m]) && Wanted([l, m, k]) == [k]
  {
    ExpiredPair(l, m, []);
    ExpiredPair(l, m, [k]);
    assert [l, m] + [] == [l, m] && [l, m] + [k] == [l, m, k];
    var positions: seq<nat> := [0, 1];
    var tail := positions[1..];
    assert tail == [1] && tail[1..] == [];
    assert Erase([l, m], 0) == [m] && Erase([l, m, k], 0) == [m, k] && Erase([m, k], 1) == [m];
    assert EraseAt([m, k], tail) == EraseAt([m], tail[1..]);
    WantedLast(l, m, k);
  }

  // ------------------------------------------------------------------- in place

  /** One round for each of these events. */
  function Rounds(es: seq<Event>): seq<Op> {
    if es == [] then [] else [Notify(es[0])] + Rounds(es[1..])
  }

  lemma {:induction false} OneOfRounds(list: seq<Listener>, n: nat, es: seq<Event>, i: nat, calls: seq<Call>)
    requires i < |es|
    ensures RunFrom(list, n, Rounds(es[i..])) == RunFrom(Filter(list, es[i]), n + 1, Rounds(es[i + 1..]))
    ensures calls + LogFrom(list, n, Rounds(es[i..])) ==
            calls + CallsOf(list, es[i]) + LogFrom(Filter(list, es[i]), n + 1, Rounds(es[i + 1..]))
  {
    var ops := Rounds(es[i..]);
    assert es[i..][1..] == es[i + 1..];
    assert ops[0] == Notify(es[i]) && ops[1..] == Rounds(es[i + 1..]);
  }

  lemma {:induction false} OneKept(was: seq<Listener>, list: seq<Listener>, e: Event, kept: nat, next: nat)
    requires kept <= next < |list| == |was|
    requires list[..kept] == Filter(was[..next], e) && list[next..] == was[next..]
    ensures var l := list[next].Called(e);
            && CallsOf(was[..next + 1], e) == CallsOf(was[..next], e) + [Call(l.at, e)]
            && list[next + 1..] == was[next + 1..]
            && if l.Wanted()
               then
                 && list[kept := l][..kept + 1] == Filter(was[..next + 1], e)
                 && list[kept := l][next + 1..] == was[next + 1..]
               else list[..kept] == Filter(was[..next + 1], e)
  {
    var l := list[next].Called(e);
    assert list[next] == list[next..][0] == was[next];
    assert list[next + 1..] == list[next..][1..] == was[next + 1..];
    assert was[..next + 1] == was[..next] + [was[next]];
    FilterSnoc(was[..next], was[next], e);
    CallsSnoc(was[..next], was[next], e);
    assert list[kept := l][..kept + 1] == list[..kept] + [l];
  }

  lemma OneAsked(was: seq<Listener>, list: seq<Listener>, e: Event, i: nat)
    requires i < |list| == |was| && list[i..] == was[i..] && list[..i] == Asked(was[..i], e)
    ensures var l := list[i].Called(e);
            var next := list[i := l];
            && next[i + 1..] == was[i + 1..]
            && next[..i + 1] == Asked(was[..i + 1], e)
            && Expired(next[..i + 1]) == if l.Wanted() then Expired(list[..i]) else Expired(list[..i]) + [i]
  {
    var l := list[i].Called(e);
    var next := list[i := l];
    assert list[i] == list[i..][0] == was[i];
    assert next[i + 1..] == list[i..][1..] == was[i + 1..];
    assert next[..i + 1] == list[..i] + [l];
    assert next[..i + 1][..i] == list[..i];
    forall k | 0 <= k < i
      ensures next[k] == was[..i + 1][k].Called(e)
    {
      assert list[..i][k] == was[..i][k].Called(e);
    }
  }

  class NotifierList {
    var listeners: seq<Listener>

    constructor ()
      ensures listeners == []
    {
      listeners := [];
    }

    method Add(at: nat, keep: seq<Event> -> bool)
      modifies this
      ensures listeners == old(listeners) + [Listener(at, keep, [])]
    {
      listeners := listeners + [Listener(at, keep, [])];
    }

    /** erase(remove_if(...)): survivors move to the front in place, the rest is cut off. */
    method Notify(e: Event) returns (calls: seq<Call>)
      modifies this
      ensures listeners == Filter(old(listeners), e)
      ensures calls == CallsOf(old(listeners), e)
    {
      calls := [];
      var kept, next := 0, 0;
      ghost var was := listeners;
      while next < |listeners|
        invariant 0 <= kept <= next <= |listeners| == |was|
        invariant listeners[..kept] == Filter(was[..next], e)
        invariant listeners[next..] == was[next..]
        invariant calls == CallsOf(was[..next], e)
      {
        OneKept(was, listeners, e, kept, next);
        var l := listeners[next].Called(e);
        calls := calls + [Call(l.at, e)];
        if l.Wanted() {
          listeners := listeners[kept := l];
          kept := kept + 1;
        }
        next := next + 1;
      }
      assert was[..next] == was;
      listeners := listeners[..kept];
    }

    /** notify_of_pointer_buttons: one round for each button, in the order given; `n` operations
        came before. */
    method NotifyEach(ghost n: nat, es: seq<Event>) returns (calls: seq<Call>)
      modifies this
      ensures listeners == RunFrom(old(listeners), n, Rounds(es))
      ensures calls == LogFrom(old(listeners), n, Rounds(es))
    {
      calls := [];
      ghost var was := listeners;
      for i := 0 to |es|
        invariant RunFrom(was, n, Rounds(es)) == RunFrom(listeners, n + i, Rounds(es[i..]))
        invariant LogFrom(was, n, Rounds(es)) == calls + LogFrom(listeners, n + i, Rounds(es[i..]))
      {
        OneOfRounds(listeners, n + i, es, i, calls);
        var more := Notify(es[i]);
        calls := calls + more;
      }
    }

    /** The first loop of on_release: call everyone and remember the positions of those
        that answered false. */
    method Collect(e: Event) returns (positions: seq<nat>)
      modifies this
      ensures listeners == Asked(old(listeners), e)
      ensures positions == Expired(listeners)
    {
      ghost var was := listeners;
      positions := [];
      for i := 0 to |listeners|
        invariant |listeners| == |was|
        invariant listeners[i..] == was[i..]
        invariant listeners[..i] == Asked(was[..i], e)
        invariant positions == Expired(listeners[..i])
      {
        ghost var before := listeners;
        var l := listeners[i].Called(e);
        listeners := listeners[i := l];
        OneAsked(was, before, e, i);
        if !l.Wanted() {
          positions := positions + [i];
        }
      }
      assert was[..|was|] == was && listeners[..|was|] == listeners;
    }

    /** ShmBuffer::Impl::on_release: collect, then erase at the remembered positions, in the
        same order. Not defined where a position lies beyond the end by then. */
    method OnRelease(e: Event) returns (defined: bool)
      modifies this
      ensures var asked := Asked(old(listeners), e);
              match EraseAt(asked, Expired(asked))
              case None => !defined
              case Some(rest) => defined && listeners == rest
    {
      var positions := Collect(e);
      ghost var asked := listeners;
      defined := true;
      for k := 0 to |positions|
        invariant EraseAt(asked, positions) == if defined then EraseAt(listeners, positions[k..]) else None
      {
        if defined {
          assert positions[k..][1..] == positions[k + 1..];
          if positions[k] < |listeners| {
            listeners := Erase(listeners, positions[k]);
          } else {
            defined := false;
          }
        }
      }
    }
  }
}
