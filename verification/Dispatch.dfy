/** Client::Impl::dispatch_until (src/in_process_server.cpp): wait for a condition or a
    deadline, with the read intents of libwayland. Time is in nanoseconds of a clock that
    does not go back. What the outside answers is an input: one Round for each turn of the
    outer loop, for as long as the call is observed. */
module Dispatch {
  import opened Common

  /** The answers of one turn: the predicate; the result of wl_display_dispatch_pending each
      time wl_display_prepare_read failed, before it succeeds; the clock before poll; the
      result of poll and the clock after it; wl_display_read_events; and the final dispatch. */
  datatype Round = Round(
    predicateHolds: bool, spins: seq<int>, now: nat, poll: int, after: nat, read: int, dispatch: int)

  datatype Outcome =
    | Returned          // normally
    | DeadlinePassed    // Timeout, before poll
    | PollTimedOut      // Timeout, after poll
    | PollFailed
    | WaylandError
    | Running           // the observation ends first

  const MILLISECOND: nat := 1_000_000
  const SECOND: nat := 1_000_000_000
  const INT_MAX: int := 0x7fff_ffff

  // ---------------------------------------------------------------- the wait

  /** What poll is asked to wait, in milliseconds: the time left, truncated, plus one, and
      converted to an int. */
  function WaitFor(left: nat): int { Wrap(left / MILLISECOND + 1) }

  /** The argument of poll lasts past the deadline, and by at most one millisecond, exactly
      while the time left in milliseconds fits an int. */
  lemma WaitIsExact(left: nat)
    ensures left / MILLISECOND + 1 <= INT_MAX ==>
              left < WaitFor(left) * MILLISECOND <= left + MILLISECOND
    ensures WaitFor(left) == left / MILLISECOND + 1 <==> left / MILLISECOND + 1 <= INT_MAX
  {
  }

  /** Beyond that the conversion wraps: with 2^31 milliseconds to wait, poll is given a
      negative number, which means for ever. */
  lemma WaitWraps()
    ensures WaitFor(INT_MAX * MILLISECOND) == -INT_MAX - 1
  {
  }

  // ------------------------------------------------------------ how a call ends

  predicate Spins(spins: seq<int>) { forall k :: 0 <= k < |spins| ==> spins[k] >= 0 }

  /** How a turn ends the call, if it does; in the order of the checks. */
  function Ends(end: int, r: Round): Option<Outcome> {
    if r.predicateHolds then Some(Returned)
    else if !Spins(r.spins) then Some(WaylandError)
    else if r.now > end then Some(DeadlinePassed)
    else if r.poll < 0 then Some(PollFailed)
    else if r.poll == 0 then Some(PollTimedOut)
    else if r.read < 0 || r.dispatch < 0 then Some(WaylandError)
    else None
  }

  /** The number of turns that ended at no exit. */
  function Turns(end: int, rounds: seq<Round>): (n: nat)
    ensures n <= |rounds|
  {
    if rounds == [] || Ends(end, rounds[0]).Some? then 0 else 1 + Turns(end, rounds[1..])
  }

  /** How the whole call ends. */
  function EndOf(end: int, rounds: seq<Round>): Outcome {
    var n := Turns(end, rounds);
    if n == |rounds| || Ends(end, rounds[n]).None? then Running else Ends(end, rounds[n]).value
  }

  /** The predicate is asked once more after each turn and never again once it holds: the
      call stops at the first turn that has an exit, and returns normally exactly if the
      predicate holds there. */
  lemma {:induction false} ReturnsAtFirstTrue(end: int, rounds: seq<Round>)
    ensures var n := Turns(end, rounds);
            && (forall k :: 0 <= k < n ==> !rounds[k].predicateHolds && Ends(end, rounds[k]).None?)
            && (n < |rounds| ==> Ends(end, rounds[n]).Some?)
            && (EndOf(end, rounds) == Returned <==> n < |rounds| && rounds[n].predicateHolds)
  {
    if rounds != [] && Ends(end, rounds[0]).None? {
      ReturnsAtFirstTrue(end, rounds[1..]);
      var n := Turns(end, rounds);
      forall k | 0 <= k < n
        ensures !rounds[k].predicateHolds && Ends(end, rounds[k]).None?
      {
        if k > 0 {
          assert rounds[k] == rounds[1..][k - 1];
        }
      }
    }
  }

  /** A turn after which the loop goes round again: every answer is good. */
  predicate GoesOn(end: int, r: Round) {
    && !r.predicateHolds && r.now <= end && r.poll > 0 && r.read >= 0 && r.dispatch >= 0
    && forall k :: 0 <= k < |r.spins| ==> r.spins[k] >= 0
  }

  /** The call goes on past a turn exactly if that and all before it go on. */
  lemma {:induction false} GoesOnIff(end: int, rounds: seq<Round>, k: nat)
    requires k < |rounds|
    ensures k < Turns(end, rounds) <==> forall j :: 0 <= j <= k ==> GoesOn(end, rounds[j])
  {
    if Ends(end, rounds[0]).None? && k > 0 {
      GoesOnIff(end, rounds[1..], k - 1);
      assert forall j :: 0 < j <= k ==> rounds[j] == rounds[1..][j - 1];
      assert forall j :: 0 <= j <= k - 1 ==> rounds[1..][j] == rounds[j + 1];
    }
  }

  /** Some answer of libwayland is an error, and the turn gets as far as asking for it. */
  predicate Errs(end: int, r: Round) {
    && !r.predicateHolds
    && (|| (exists k :: 0 <= k < |r.spins| && r.spins[k] < 0)
        || (r.now <= end && r.poll > 0 && (r.read < 0 || r.dispatch < 0)))
  }

  /** How the call ends, by the answers of its last turn. */
  lemma OutcomeIff(end: int, rounds: seq<Round>)
    requires Turns(end, rounds) < |rounds|
    ensures var r, outcome := rounds[Turns(end, rounds)], EndOf(end, rounds);
            var asked := !r.predicateHolds && forall k :: 0 <= k < |r.spins| ==> r.spins[k] >= 0;
            && !GoesOn(end, r)
            && (outcome == Returned <==> r.predicateHolds)
            && (outcome == DeadlinePassed <==> asked && r.now > end)
            && (outcome == PollFailed <==> asked && r.now <= end && r.poll < 0)
            && (outcome == PollTimedOut <==> asked && r.now <= end && r.poll == 0)
            && (outcome == WaylandError <==> Errs(end, r))
  {
    ReturnsAtFirstTrue(end, rounds);
  }

  // ------------------------------------------------------- the calls it makes

  /** The calls into libwayland and poll, in order. */
  datatype Call = PrepareRead(ok: bool) | DispatchPending | Flush | Poll(wait: int) | CancelRead | ReadEvents

  /** wl_display_prepare_read fails and the queue is dispatched, once for each of `spins`, up
      to a failing dispatch. */
  function SpinCalls(spins: seq<int>): seq<Call> {
    if spins == [] then []
    else [PrepareRead(false), DispatchPending] + if spins[0] < 0 then [] else SpinCalls(spins[1..])
  }

  /** After poll: an intent is given up at each of the two exits on its result, and used
      otherwise. */
  function SettlingCalls(r: Round): seq<Call> {
    if r.poll < 0 then [CancelRead]
    else if r.poll == 0 then [CancelRead]
    else if r.read < 0 then [ReadEvents]
    else [ReadEvents, DispatchPending]
  }

  function ReadingCalls(end: int, r: Round): seq<Call> {
    [PrepareRead(true), Flush] +
    if r.now > end then [] else [Poll(WaitFor(end - r.now))] + SettlingCalls(r)
  }

  function TurnCalls(end: int, r: Round): seq<Call> {
    if r.predicateHolds then []
    else SpinCalls(r.spins) + if Spins(r.spins) then ReadingCalls(end, r) else []
  }

  /** The calls of each of the first n turns. */
  function LogOf(end: int, rounds: seq<Round>, n: nat): (log: seq<seq<Call>>)
    requires n <= |rounds|
    ensures |log| == n
  {
    if n == 0 then [] else LogOf(end, rounds, n - 1) + [TurnCalls(end, rounds[n - 1])]
  }

  /** The number of turns, the last one included. */
  function AllTurns(end: int, rounds: seq<Round>): (n: nat)
    ensures n <= |rounds|
  {
    if Turns(end, rounds) < |rounds| then Turns(end, rounds) + 1 else |rounds|
  }

  function Log(end: int, rounds: seq<Round>): seq<seq<Call>> { LogOf(end, rounds, AllTurns(end, rounds)) }

  lemma {:induction false} OneTurn(end: int, rounds: seq<Round>, i: nat)
    requires i < |rounds|
    ensures Turns(end, rounds[i..]) == if Ends(end, rounds[i]).Some? then 0 else 1 + Turns(end, rounds[i + 1..])
  {
    assert rounds[i..][1..] == rounds[i + 1..];
  }

  lemma OneSpin(calls: seq<Call>, spins: seq<int>, k: nat)
    requires k < |spins|
    ensures calls + SpinCalls(spins[k..]) ==
            calls + [PrepareRead(false), DispatchPending] + if spins[k] < 0 then [] else SpinCalls(spins[k + 1..])
  {
    assert spins[k..][1..] == spins[k + 1..];
  }

  /** The inner loop, up to the wl_display_prepare_read that succeeds. */
  method Prepare(spins: seq<int>) returns (ok: bool, calls: seq<Call>)
    ensures ok == Spins(spins)
    ensures calls == SpinCalls(spins)
  {
    calls := [];
    for k := 0 to |spins|
      invariant forall i :: 0 <= i < k ==> spins[i] >= 0
      invariant SpinCalls(spins) == calls + SpinCalls(spins[k..])
    {
      OneSpin(calls, spins, k);
      calls := calls + [PrepareRead(false), DispatchPending];
      if spins[k] < 0 {
        return false, calls;
      }
    }
    ok := true;
  }

  /** The rest of a turn, from the wl_display_prepare_read that succeeded on. */
  method WaitAndRead(end: int, r: Round) returns (exit: Option<Outcome>, calls: seq<Call>)
    requires !r.predicateHolds && Spins(r.spins)
    ensures exit == Ends(end, r)
    ensures calls == ReadingCalls(end, r)
  {
    calls := [PrepareRead(true), Flush];
    var left := end - r.now;
    if left < 0 {
      return Some(DeadlinePassed), calls;
    }
    calls := calls + [Poll(WaitFor(left))];
    if r.poll < 0 {
      calls := calls + [CancelRead];
      return Some(PollFailed), calls;
    }
    if r.poll == 0 {
      calls := calls + [CancelRead];
      return Some(PollTimedOut), calls;
    }
    calls := calls + [ReadEvents];
    if r.read < 0 {
      return Some(WaylandError), calls;
    }
    calls := calls + [DispatchPending];
    exit := if r.dispatch < 0 then Some(WaylandError) else None;
  }

  /** One turn of the outer loop; None if it goes round again. */
  method Turn(end: int, r: Round) returns (exit: Option<Outcome>, calls: seq<Call>)
    ensures exit == Ends(end, r)
    ensures calls == TurnCalls(end, r)
  {
    if r.predicateHolds {
      return Some(Returned), [];
    }
    var prepared;
    prepared, calls := Prepare(r.spins);
    if !prepared {
      return Some(WaylandError), calls;
    }
    var more;
    exit, more := WaitAndRead(end, r);
    calls := calls + more;
  }

  /** The whole call. */
  method DispatchUntil(start: nat, timeout: int, rounds: seq<Round>)
    returns (outcome: Outcome, log: seq<seq<Call>>)
    ensures outcome == EndOf(start + timeout * SECOND, rounds)
    ensures log == Log(start + timeout * SECOND, rounds)
  {
    var end := start + timeout * SECOND;
    log := [];
    for i := 0 to |rounds|
      invariant Turns(end, rounds) == i + Turns(end, rounds[i..])
      invariant log == LogOf(end, rounds, i)
    {
      OneTurn(end, rounds, i);
      var exit, calls := Turn(end, rounds[i]);
      log := log + [calls];
      if exit.Some? {
        return exit.value, log;
      }
    }
    outcome := Running;
  }

  // ------------------------------------------------------------- read intents

  /** The rule of libwayland: a thread announces that it will read, sends what it has to send,
      and only then polls; then it reads or cancels. */
  datatype Intent = Closed | Open(flushed: bool) | Misused

  function After(i: Intent, c: Call): Intent {
    match c
    case PrepareRead(ok) => if i.Closed? then (if ok then Open(false) else Closed) else Misused
    case Poll(_) => if i == Open(true) then i else Misused
    case CancelRead => if i.Open? then Closed else Misused
    case ReadEvents => if i.Open? then Closed else Misused
    case DispatchPending => i
    case Flush => if i.Open? then Open(true) else i
  }

  function AfterAll(i: Intent, calls: seq<Call>): Intent
    decreases |calls|
  {
    if calls == [] then i else AfterAll(After(i, calls[0]), calls[1..])
  }

  lemma {:induction false} AfterFirst(i: Intent, c: Call, rest: seq<Call>)
    ensures AfterAll(i, [c] + rest) == AfterAll(After(i, c), rest)
  {
    assert ([c] + rest)[1..] == rest;
  }

  lemma {:induction false} AfterConcat(i: Intent, a: seq<Call>, b: seq<Call>)
    ensures AfterAll(i, a + b) == AfterAll(AfterAll(i, a), b)
    decreases |a|
  {
    if a == [] {
      assert a + b == b;
    } else {
      AfterConcat(After(i, a[0]), a[1..], b);
      assert (a + b)[1..] == a[1..] + b;
    }
  }

  lemma {:induction false} SpinningIsClosed(spins: seq<int>)
    ensures AfterAll(Closed, SpinCalls(spins)) == Closed
  {
    if spins != [] {
      var rest := if spins[0] < 0 then [] else SpinCalls(spins[1..]);
      assert SpinCalls(spins) == [PrepareRead(false)] + ([DispatchPending] + rest);
      AfterFirst(Closed, PrepareRead(false), [DispatchPending] + rest);
      AfterFirst(Closed, DispatchPending, rest);
      if spins[0] >= 0 {
        SpinningIsClosed(spins[1..]);
      }
    }
  }

  lemma SettlingCloses(r: Round)
    ensures AfterAll(Open(true), SettlingCalls(r)) == Closed
  {
    var calls := SettlingCalls(r);
    assert calls[1..] == [] || calls[1..] == [DispatchPending];
    assert [DispatchPending][1..] == [];
  }

  /** A turn that finds the deadline passed. */
  predicate Overdue(end: int, r: Round) { !r.predicateHolds && Spins(r.spins) && r.now > end }

  lemma ReadingClosesInTime(end: int, r: Round)
    ensures AfterAll(Closed, ReadingCalls(end, r)) == if r.now > end then Open(true) else Closed
  {
    var rest := if r.now > end then [] else [Poll(WaitFor(end - r.now))] + SettlingCalls(r);
    assert ReadingCalls(end, r) == [PrepareRead(true)] + ([Flush] + rest);
    AfterFirst(Closed, PrepareRead(true), [Flush] + rest);
    AfterFirst(Open(false), Flush, rest);
    if r.now <= end {
      AfterFirst(Open(true), Poll(WaitFor(end - r.now)), SettlingCalls(r));
      SettlingCloses(r);
    }
  }

  lemma TurnClosesUnlessOverdue(end: int, r: Round)
    ensures AfterAll(Closed, TurnCalls(end, r)) == if Overdue(end, r) then Open(true) else Closed
  {
    if !r.predicateHolds {
      SpinningIsClosed(r.spins);
      AfterConcat(Closed, SpinCalls(r.spins), if Spins(r.spins) then ReadingCalls(end, r) else []);
      ReadingClosesInTime(end, r);
    }
  }

  function AfterTurns(i: Intent, log: seq<seq<Call>>): Intent {
    if log == [] then i else AfterAll(AfterTurns(i, log[..|log| - 1]), log[|log| - 1])
  }

  lemma {:induction false} AfterOneMore(i: Intent, log: seq<seq<Call>>, calls: seq<Call>)
    ensures AfterTurns(i, log + [calls]) == AfterAll(AfterTurns(i, log), calls)
  {
    assert (log + [calls])[..|log|] == log;
  }

  lemma {:induction false} EarlierTurnsClose(end: int, rounds: seq<Round>, k: nat)
    requires k <= |rounds| && forall j :: 0 <= j < k ==> Ends(end, rounds[j]).None?
    ensures AfterTurns(Closed, LogOf(end, rounds, k)) == Closed
  {
    if k > 0 {
      EarlierTurnsClose(end, rounds, k - 1);
      TurnClosesUnlessOverdue(end, rounds[k - 1]);
      AfterOneMore(Closed, LogOf(end, rounds, k - 1), TurnCalls(end, rounds[k - 1]));
    }
  }

  /** The last turn finds the deadline passed, with the predicate false and the queue dispatched. */
  predicate EndsOverdue(end: int, rounds: seq<Round>) {
    Turns(end, rounds) < |rounds| && Overdue(end, rounds[Turns(end, rounds)])
  }

  /** For every call: the rule is never broken, so poll only ever follows a flush, and an intent
      stays open exactly if the last turn finds the deadline passed. */
  lemma IntentOpenIff(end: int, rounds: seq<Round>)
    ensures AfterTurns(Closed, Log(end, rounds)) == if EndsOverdue(end, rounds) then Open(true) else Closed
  {
    var n := Turns(end, rounds);
    ReturnsAtFirstTrue(end, rounds);
    EarlierTurnsClose(end, rounds, n);
    if n < |rounds| {
      TurnClosesUnlessOverdue(end, rounds[n]);
      AfterOneMore(Closed, LogOf(end, rounds, n), TurnCalls(end, rounds[n]));
    }
  }

  /** How often a call is made. */
  function Count(log: seq<seq<Call>>, c: Call): nat {
    if log == [] then 0 else Count(log[..|log| - 1], c) + multiset(log[|log| - 1])[c]
  }

  function Pending(i: Intent): nat { if i.Open? then 1 else 0 }

  lemma OneCallMore(calls: seq<Call>, c: Call)
    requires calls != []
    ensures multiset(calls)[c] == multiset(calls[1..])[c] + if calls[0] == c then 1 else 0
  {
    assert calls == [calls[0]] + calls[1..];
  }

  lemma {:induction false} CallsBalance(i: Intent, calls: seq<Call>)
    requires !AfterAll(i, calls).Misused?
    ensures !i.Misused?
    ensures multiset(calls)[PrepareRead(true)] + Pending(i) ==
            multiset(calls)[ReadEvents] + multiset(calls)[CancelRead] + Pending(AfterAll(i, calls))
    decreases |calls|
  {
    if calls != [] {
      CallsBalance(After(i, calls[0]), calls[1..]);
      OneCallMore(calls, PrepareRead(true));
      OneCallMore(calls, ReadEvents);
      OneCallMore(calls, CancelRead);
    }
  }

  lemma {:induction false} LogBalances(log: seq<seq<Call>>)
    requires !AfterTurns(Closed, log).Misused?
    ensures Count(log, PrepareRead(true)) ==
            Count(log, ReadEvents) + Count(log, CancelRead) + Pending(AfterTurns(Closed, log))
  {
    if log != [] {
      CallsBalance(AfterTurns(Closed, log[..|log| - 1]), log[|log| - 1]);
      LogBalances(log[..|log| - 1]);
    }
  }

  /** So each successful wl_display_prepare_read is matched by one read or one cancel, but for
      one that stays open in a call that ends overdue. */
  lemma PreparedIsSettled(end: int, rounds: seq<Round>)
    ensures var log := Log(end, rounds);
            Count(log, PrepareRead(true)) ==
            Count(log, ReadEvents) + Count(log, CancelRead) + if EndsOverdue(end, rounds) then 1 else 0
  {
    IntentOpenIff(end, rounds);
    LogBalances(Log(end, rounds));
  }

  /** Such a call: the first look at the clock is a nanosecond late. */
  lemma LateCallLeavesIntentOpen(start: nat, timeout: nat)
    ensures var end := start + timeout * SECOND;
            AfterTurns(Closed, Log(end, [Round(false, [], end + 1, 1, end + 1, 0, 0)])) == Open(true)
  {
    var end := start + timeout * SECOND;
    IntentOpenIff(end, [Round(false, [], end + 1, 1, end + 1, 0, 0)]);
  }

  // --------------------------------------------------------- each call of a turn

  /** Each failed wl_display_prepare_read is followed by a dispatch, up to the one that fails. */
  lemma {:induction false} SpinsAreDispatched(spins: seq<int>)
    ensures var n := |SpinCalls(spins)| / 2;
            && |SpinCalls(spins)| == 2 * n && n <= |spins|
            && (forall k :: 0 <= k < n ==>
                 SpinCalls(spins)[2 * k] == PrepareRead(false) && SpinCalls(spins)[2 * k + 1] == DispatchPending)
            && (forall k :: 0 <= k < n - 1 ==> spins[k] >= 0)
            && (n < |spins| ==> n > 0 && spins[n - 1] < 0)
  {
    if spins != [] && spins[0] >= 0 {
      var tail := SpinCalls(spins[1..]);
      SpinsAreDispatched(spins[1..]);
      forall k | 0 < k < |tail| / 2 + 1
        ensures SpinCalls(spins)[2 * k] == PrepareRead(false) && SpinCalls(spins)[2 * k + 1] == DispatchPending
      {
        assert SpinCalls(spins)[2 * k] == tail[2 * (k - 1)];
        assert SpinCalls(spins)[2 * k + 1] == tail[2 * (k - 1) + 1];
      }
    }
  }

  lemma {:induction false} NothingElseInSpins(spins: seq<int>, c: Call)
    requires c.Poll? || c.ReadEvents? || c.CancelRead?
    ensures c !in SpinCalls(spins)
  {
    if spins != [] {
      NothingElseInSpins(spins[1..], c);
    }
  }

  /** A turn that gets as far as poll. */
  predicate Polls(end: int, r: Round) { !r.predicateHolds && Spins(r.spins) && r.now <= end }

  /** poll is called exactly in these, for the time left by the clock just read. */
  lemma PollsForTimeLeft(end: int, r: Round, wait: int)
    ensures Poll(wait) in TurnCalls(end, r) <==> Polls(end, r) && wait == WaitFor(end - r.now)
  {
    NothingElseInSpins(r.spins, Poll(wait));
    if Polls(end, r) {
      assert Poll(wait) !in SettlingCalls(r);
      assert ReadingCalls(end, r)[2] == Poll(WaitFor(end - r.now));
    }
  }

  predicate EndsWith(calls: seq<Call>, last: seq<Call>) {
    |last| <= |calls| && calls[|calls| - |last|..] == last
  }

  lemma ReadingEndsWith(end: int, r: Round)
    requires r.now <= end
    ensures EndsWith(ReadingCalls(end, r), SettlingCalls(r))
  {
  }

  lemma EndsWithToo(a: seq<Call>, b: seq<Call>, last: seq<Call>)
    requires EndsWith(b, last)
    ensures EndsWith(a + b, last)
  {
    var all := a + b;
    assert all[|all| - |last|..] == b[|b| - |last|..];
  }

  lemma SettledIn(end: int, r: Round, c: Call)
    requires c.ReadEvents? || c.CancelRead?
    ensures c in TurnCalls(end, r) <==> Polls(end, r) && c in SettlingCalls(r)
  {
    NothingElseInSpins(r.spins, c);
    if Polls(end, r) {
      var calls := ReadingCalls(end, r);
      assert calls == [PrepareRead(true), Flush, Poll(WaitFor(end - r.now))] + SettlingCalls(r);
      assert c in calls <==> c in SettlingCalls(r);
    }
  }

  /** The read is made exactly in those whose poll found something, and given up exactly in
      those whose poll did not; both come last, but for the dispatch of what was read. */
  lemma ReadsOrCancels(end: int, r: Round)
    ensures ReadEvents in TurnCalls(end, r) <==> Polls(end, r) && r.poll > 0
    ensures CancelRead in TurnCalls(end, r) <==> Polls(end, r) && r.poll <= 0
    ensures Polls(end, r) ==>
              var last := if r.poll <= 0 then [CancelRead]
                          else if r.read < 0 then [ReadEvents] else [ReadEvents, DispatchPending];
              EndsWith(TurnCalls(end, r), last)
  {
    SettledIn(end, r, ReadEvents);
    SettledIn(end, r, CancelRead);
    var last := SettlingCalls(r);
    assert last[0] == if r.poll > 0 then ReadEvents else CancelRead;
    if Polls(end, r) {
      ReadingEndsWith(end, r);
      EndsWithToo(SpinCalls(r.spins), ReadingCalls(end, r), last);
    }
  }

  // ------------------------------------------------------------------ deadlines

  /** poll returns 0 only after the time it was asked to wait, and a negative time is for ever. */
  predicate PollHonest(end: int, r: Round) {
    r.now <= end && r.poll == 0 ==>
      var wait := WaitFor(end - r.now);
      wait >= 0 && r.after >= r.now + wait * MILLISECOND
  }

  predicate Honest(start: nat, end: int, rounds: seq<Round>) {
    forall k :: 0 <= k < |rounds| ==> start <= rounds[k].now && PollHonest(end, rounds[k])
  }

  predicate TimesOut(end: int, rounds: seq<Round>) {
    EndOf(end, rounds) == DeadlinePassed || EndOf(end, rounds) == PollTimedOut
  }

  /** The clock when a call times out. */
  function LastClock(end: int, rounds: seq<Round>): nat
    requires TimesOut(end, rounds)
  {
    var r := rounds[Turns(end, rounds)];
    if EndOf(end, rounds) == DeadlinePassed then r.now else r.after
  }

  /** The longest timeout, in seconds, for which no wait wraps to a shorter one. */
  const MAX_TIMEOUT: int := 4_294_967

  /** While the wait stays below 2^32 milliseconds poll is asked for too long or for ever,
      never for too little. */
  lemma WaitIsNeverShort(left: nat)
    requires left / MILLISECOND + 1 < 0x1_0000_0000
    ensures WaitFor(left) < 0 || left < WaitFor(left) * MILLISECOND
  {
  }

  lemma PollTimesOutLate(start: nat, timeout: int, r: Round)
    requires timeout <= MAX_TIMEOUT && start <= r.now <= start + timeout * SECOND && r.poll == 0
    requires PollHonest(start + timeout * SECOND, r)
    ensures r.after > start + timeout * SECOND
  {
    var left := start + timeout * SECOND - r.now;
    assert left / MILLISECOND <= timeout * 1000;
    WaitIsNeverShort(left);
  }

  lemma TurnTimesOutLate(start: nat, timeout: int, r: Round)
    requires timeout <= MAX_TIMEOUT && start <= r.now && PollHonest(start + timeout * SECOND, r)
    ensures var end := start + timeout * SECOND;
            && (Ends(end, r) == Some(DeadlinePassed) ==> r.now > end)
            && (Ends(end, r) == Some(PollTimedOut) ==> r.after > end)
  {
    if Ends(start + timeout * SECOND, r) == Some(PollTimedOut) {
      PollTimesOutLate(start, timeout, r);
    }
  }

  /** The whole call: a Timeout means that the clock is strictly past the deadline. */
  lemma TimeoutMeansPastDeadline(start: nat, timeout: int, rounds: seq<Round>)
    requires timeout <= MAX_TIMEOUT && Honest(start, start + timeout * SECOND, rounds)
    ensures var end := start + timeout * SECOND; TimesOut(end, rounds) ==> LastClock(end, rounds) > end
  {
    var end := start + timeout * SECOND;
    if TimesOut(end, rounds) {
      TurnTimesOutLate(start, timeout, rounds[Turns(end, rounds)]);
    }
  }

  /** Every Timeout is past the deadline. */
  ghost predicate Punctual(start: nat, timeout: int) {
    var end := start + timeout * SECOND;
    forall rounds | Honest(start, end, rounds) && TimesOut(end, rounds) ::
      LastClock(end, rounds) > end
  }

  /** With a longer timeout some wait wraps to zero and times out at once. */
  lemma LongWaitTimesOutEarly(start: nat, timeout: int) returns (rounds: seq<Round>)
    requires timeout > MAX_TIMEOUT
    ensures var end := start + timeout * SECOND;
            Honest(start, end, rounds) && TimesOut(end, rounds) && LastClock(end, rounds) < end
  {
    var end := start + timeout * SECOND;
    var left: nat := 0xffff_ffff * MILLISECOND;
    assert WaitFor(left) == 0;
    var r := Round(false, [], end - left, 0, end - left, 0, 0);
    assert PollHonest(end, r) && Ends(end, r) == Some(PollTimedOut);
    rounds := [r];
    assert Turns(end, rounds) == 0 && rounds[0] == r;
  }

  /** So every Timeout is past the deadline exactly for timeouts up to 4294967 seconds. */
  lemma PunctualIff(start: nat, timeout: int)
    ensures Punctual(start, timeout) <==> timeout <= MAX_TIMEOUT
  {
    var end := start + timeout * SECOND;
    if timeout <= MAX_TIMEOUT {
      forall rounds | Honest(start, end, rounds) && TimesOut(end, rounds)
        ensures LastClock(end, rounds) > end
      {
        TimeoutMeansPastDeadline(start, timeout, rounds);
      }
    } else {
      var rounds := LongWaitTimesOutEarly(start, timeout);
    }
  }
}
