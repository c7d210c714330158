/** The frame callbacks of Surface::Impl (src/in_process_server.cpp): a static list of
    pending callbacks, each with its surface, a heap-allocated closure and a wl_callback.

    A callback fires in two steps, since its closure may do anything in between: add
    callbacks, destroy surfaces, its own included, or dispatch other callbacks. */
module FrameCallbacks {

  datatype Entry = Entry(surface: nat, callback: nat)

  /** What is freed: the closure of a callback, or its wl_callback. */
  datatype Kind = Closure | Proxy
  datatype Free = Free(kind: Kind, callback: nat)

  datatype State = State(
    live: set<nat>,           // surfaces
    pending: seq<Entry>,      // pending_callbacks
    firing: seq<nat>,         // callbacks whose closures are running, innermost last
    // history
    added: seq<nat>,          // the surface of callback 0, 1, ...
    fired: set<nat>,
    freed: seq<Free>)

  const INITIAL := State({}, [], [], [], {}, [])

  datatype Label =
    | Create(surface: nat)
    | Add(surface: nat)
    | Begin(callback: nat)
    | End
    | Destroy(surface: nat)

  /** Surfaces and callbacks are distinct objects, and a done event comes at most once, for
      a wl_callback that has not been destroyed. */
  predicate Enabled(s: State, l: Label) {
    match l
    case Create(surface) => surface !in s.live && surface !in s.added
    case Add(surface) => surface in s.live
    case Begin(callback) =>
      callback < |s.added| && callback !in s.fired && Free(Proxy, callback) !in s.freed
    case End => s.firing != []
    case Destroy(surface) => surface in s.live
  }

  function Callbacks(es: seq<Entry>): seq<nat> {
    if es == [] then [] else [es[0].callback] + Callbacks(es[1..])
  }

  function Of(es: seq<Entry>, surface: nat): seq<Entry> {
    if es == [] then []
    else if es[0].surface == surface then [es[0]] + Of(es[1..], surface)
    else Of(es[1..], surface)
  }

  function NotOf(es: seq<Entry>, surface: nat): seq<Entry> {
    if es == [] then []
    else if es[0].surface == surface then NotOf(es[1..], surface)
    else [es[0]] + NotOf(es[1..], surface)
  }

  /** Without the first entry of this callback. */
  function Without(es: seq<Entry>, callback: nat): seq<Entry> {
    if es == [] then []
    else if es[0].callback == callback then es[1..]
    else [es[0]] + Without(es[1..], callback)
  }

  /** The destructor frees the closure of each of these first and then its wl_callback. */
  function FreesOf(es: seq<Entry>): seq<Free> {
    if es == [] then [] else [Free(Closure, es[0].callback), Free(Proxy, es[0].callback)] + FreesOf(es[1..])
  }

  lemma {:induction false} ClosureGoesFirst(es: seq<Entry>, k: nat)
    requires k < |es|
    ensures |FreesOf(es)| == 2 * |es|
    ensures FreesOf(es)[2 * k] == Free(Closure, es[k].callback)
    ensures FreesOf(es)[2 * k + 1] == Free(Proxy, es[k].callback)
  {
    if |es| > 1 {
      ClosureGoesFirst(es[1..], if k > 0 then k - 1 else 0);
    }
  }

  function Apply(s: State, l: Label): State
    requires Enabled(s, l)
  {
    match l
    case Create(surface) => s.(live := s.live + {surface})
    case Add(surface) => s.(pending := s.pending + [Entry(surface, |s.added|)], added := s.added + [surface])
    case Begin(callback) =>
      s.(pending := Without(s.pending, callback), firing := s.firing + [callback], fired := s.fired + {callback})
    case End =>
      var callback := s.firing[|s.firing| - 1];
      s.(firing := s.firing[..|s.firing| - 1], freed := s.freed + [Free(Proxy, callback), Free(Closure, callback)])
    case Destroy(surface) =>
      s.(live := s.live - {surface}, pending := NotOf(s.pending, surface),
         freed := s.freed + FreesOf(Of(s.pending, surface)))
  }

  predicate Valid(s: State, ls: seq<Label>)
    decreases |ls|
  {
    ls != [] ==> Enabled(s, ls[0]) && Valid(Apply(s, ls[0]), ls[1..])
  }

  function After(s: State, ls: seq<Label>): State
    requires Valid(s, ls)
    decreases |ls|
  {
    if ls == [] then s else After(Apply(s, ls[0]), ls[1..])
  }

  // ---------------------------------------------------------------- conservation

  function Upto(n: nat): multiset<nat> {
    if n == 0 then multiset{} else Upto(n - 1) + multiset{n - 1}
  }

  lemma {:induction false} UptoCounts(n: nat, k: nat)
    ensures Upto(n)[k] == if k < n then 1 else 0
  {
    if n > 0 {
      UptoCounts(n - 1, k);
    }
  }

  function FreedAs(kind: Kind, fs: seq<Free>): seq<nat> {
    if fs == [] then []
    else if fs[0].kind == kind then [fs[0].callback] + FreedAs(kind, fs[1..])
    else FreedAs(kind, fs[1..])
  }

  lemma {:induction false} FreesConcat(kind: Kind, a: seq<Free>, b: seq<Free>)
    ensures FreedAs(kind, a + b) == FreedAs(kind, a) + FreedAs(kind, b)
  {
    if a == [] {
      assert a + b == b;
    } else {
      FreesConcat(kind, a[1..], b);
      assert (a + b)[1..] == a[1..] + b;
    }
  }

  /** In whichever order the two are freed, each is freed once. */
  lemma {:induction false} BothFreed(kind: Kind, first: Kind, second: Kind, callback: nat)
    requires first != second
    ensures FreedAs(kind, [Free(first, callback), Free(second, callback)]) == [callback]
  {
    var fs := [Free(first, callback), Free(second, callback)];
    assert fs[1..] == [Free(second, callback)] && fs[1..][1..] == [];
    assert FreedAs(kind, fs[1..]) == if second == kind then [callback] else [];
  }

  lemma {:induction false} FreesOfAll(kind: Kind, es: seq<Entry>)
    ensures FreedAs(kind, FreesOf(es)) == Callbacks(es)
  {
    if es != [] {
      FreesOfAll(kind, es[1..]);
      BothFreed(kind, Closure, Proxy, es[0].callback);
      FreesConcat(kind, [Free(Closure, es[0].callback), Free(Proxy, es[0].callback)], FreesOf(es[1..]));
    }
  }

  lemma {:induction false} FreedIsListed(kind: Kind, fs: seq<Free>, callback: nat)
    ensures Free(kind, callback) in fs <==> callback in FreedAs(kind, fs)
  {
    if fs != [] {
      FreedIsListed(kind, fs[1..], callback);
    }
  }

  predicate Balanced(freed: seq<nat>, pending: seq<Entry>, firing: seq<nat>, n: nat) {
    multiset(freed) + multiset(Callbacks(pending)) + multiset(firing) == Upto(n)
  }

  /** Each closure and each wl_callback ever made is in exactly one place, once. */
  predicate Conserved(s: State) {
    && Balanced(FreedAs(Closure, s.freed), s.pending, s.firing, |s.added|)
    && Balanced(FreedAs(Proxy, s.freed), s.pending, s.firing, |s.added|)
  }

  lemma {:induction false} CallbacksSnoc(es: seq<Entry>, e: Entry)
    ensures Callbacks(es + [e]) == Callbacks(es) + [e.callback]
  {
    if es == [] {
      assert es + [e] == [e] && [e][1..] == [];
    } else {
      CallbacksSnoc(es[1..], e);
      assert (es + [e])[1..] == es[1..] + [e];
    }
  }

  lemma {:induction false} SplitBySurface(es: seq<Entry>, surface: nat)
    ensures multiset(Callbacks(Of(es, surface))) + multiset(Callbacks(NotOf(es, surface))) == multiset(Callbacks(es))
  {
    if es != [] {
      SplitBySurface(es[1..], surface);
      var rest := if es[0].surface == surface then Of(es[1..], surface) else NotOf(es[1..], surface);
      assert ([es[0]] + rest)[1..] == rest;
    }
  }

  lemma {:induction false} WithoutOne(es: seq<Entry>, callback: nat)
    requires callback in Callbacks(es)
    ensures multiset(Callbacks(Without(es, callback))) + multiset{callback} == multiset(Callbacks(es))
  {
    if es[0].callback != callback {
      WithoutOne(es[1..], callback);
      var rest := Without(es[1..], callback);
      assert ([es[0]] + rest)[1..] == rest;
    }
  }

  // -------------------------------------------------------- the pending callbacks

  /** The unfired callbacks, from the k-th on, of surfaces that are alive, in the order in
      which they were added. */
  function Unfired(s: State, k: nat): seq<Entry>
    requires k <= |s.added|
    decreases |s.added| - k
  {
    if k == |s.added| then []
    else if k !in s.fired && s.added[k] in s.live then [Entry(s.added[k], k)] + Unfired(s, k + 1)
    else Unfired(s, k + 1)
  }

  predicate Listed(s: State) {
    && s.pending == Unfired(s, 0)
    && (forall k :: k in s.fired ==> k < |s.added|)
  }

  lemma {:induction false} UnfiredIgnores(s: State, t: State, k: nat)
    requires k <= |s.added| && t.added == s.added && t.fired == s.fired
    requires forall i :: k <= i < |s.added| ==> (s.added[i] in s.live <==> s.added[i] in t.live)
    ensures Unfired(t, k) == Unfired(s, k)
    decreases |s.added| - k
  {
    if k < |s.added| {
      UnfiredIgnores(s, t, k + 1);
    }
  }

  lemma {:induction false} UnfiredAdd(s: State, surface: nat, k: nat)
    requires k <= |s.added| && surface in s.live && |s.added| !in s.fired
    ensures Unfired(s.(added := s.added + [surface]), k) == Unfired(s, k) + [Entry(surface, |s.added|)]
    decreases |s.added| - k
  {
    var t := s.(added := s.added + [surface]);
    if k < |s.added| {
      UnfiredAdd(s, surface, k + 1);
      assert t.added[k] == s.added[k];
    } else {
      assert Unfired(t, k + 1) == [];
    }
  }

  lemma {:induction false} WithoutAbsent(s: State, callback: nat, k: nat)
    requires callback < k <= |s.added|
    ensures Without(Unfired(s, k), callback) == Unfired(s, k)
    decreases |s.added| - k
  {
    if k < |s.added| {
      WithoutAbsent(s, callback, k + 1);
      if k !in s.fired && s.added[k] in s.live {
        assert Unfired(s, k)[1..] == Unfired(s, k + 1);
      }
    }
  }

  lemma {:induction false} UnfiredFire(s: State, callback: nat, k: nat)
    requires k <= |s.added|
    ensures callback < k ==> Unfired(s.(fired := s.fired + {callback}), k) == Unfired(s, k)
    ensures callback >= k ==> Unfired(s.(fired := s.fired + {callback}), k) == Without(Unfired(s, k), callback)
    decreases |s.added| - k
  {
    if k < |s.added| {
      UnfiredFire(s, callback, k + 1);
      if k !in s.fired && s.added[k] in s.live {
        assert Unfired(s, k)[1..] == Unfired(s, k + 1);
      } else if k == callback {
        WithoutAbsent(s, callback, k + 1);
      }
    }
  }

  lemma {:induction false} UnfiredDestroy(s: State, surface: nat, k: nat)
    requires k <= |s.added|
    ensures Unfired(s.(live := s.live - {surface}), k) == NotOf(Unfired(s, k), surface)
    decreases |s.added| - k
  {
    if k < |s.added| {
      UnfiredDestroy(s, surface, k + 1);
      if k !in s.fired && s.added[k] in s.live {
        assert Unfired(s, k)[1..] == Unfired(s, k + 1);
      }
    }
  }

  // ------------------------------------------------------------- each step

  predicate Inv(s: State) { Conserved(s) && Listed(s) && forall k :: k in s.firing ==> k in s.fired }

  /** A callback that the compositor may still fire is in the list. */
  lemma FiringFindsItsEntry(s: State, callback: nat)
    requires Inv(s) && Enabled(s, Begin(callback))
    ensures callback in Callbacks(s.pending)
  {
    UptoCounts(|s.added|, callback);
    FreedIsListed(Proxy, s.freed, callback);
    assert multiset(FreedAs(Proxy, s.freed))[callback] == 0;
    assert multiset(s.firing)[callback] == 0;
    assert multiset(Callbacks(s.pending))[callback] == 1;
  }

  lemma AddBalances(freed: seq<nat>, pending: seq<Entry>, firing: seq<nat>, n: nat, surface: nat)
    requires Balanced(freed, pending, firing, n)
    ensures Balanced(freed, pending + [Entry(surface, n)], firing, n + 1)
  {
    CallbacksSnoc(pending, Entry(surface, n));
  }

  lemma {:induction false} BeginBalances(freed: seq<nat>, pending: seq<Entry>, firing: seq<nat>, n: nat, callback: nat)
    requires Balanced(freed, pending, firing, n) && callback in Callbacks(pending)
    ensures Balanced(freed, Without(pending, callback), firing + [callback], n)
  {
    WithoutOne(pending, callback);
  }

  lemma EndBalances(freed: seq<nat>, pending: seq<Entry>, firing: seq<nat>, n: nat)
    requires Balanced(freed, pending, firing, n) && firing != []
    ensures Balanced(freed + [firing[|firing| - 1]], pending, firing[..|firing| - 1], n)
  {
    assert firing == firing[..|firing| - 1] + [firing[|firing| - 1]];
  }

  lemma {:induction false} DestroyBalances(freed: seq<nat>, pending: seq<Entry>, firing: seq<nat>, n: nat, surface: nat)
    requires Balanced(freed, pending, firing, n)
    ensures Balanced(freed + Callbacks(Of(pending, surface)), NotOf(pending, surface), firing, n)
  {
    SplitBySurface(pending, surface);
  }

  /** What a step frees of each kind. */
  function FreedBy(s: State, l: Label): seq<nat>
    requires Enabled(s, l)
  {
    match l
    case End => [s.firing[|s.firing| - 1]]
    case Destroy(surface) => Callbacks(Of(s.pending, surface))
    case _ => []
  }

  lemma {:induction false} FreedByStep(kind: Kind, s: State, l: Label)
    requires Enabled(s, l)
    ensures FreedAs(kind, Apply(s, l).freed) == FreedAs(kind, s.freed) + FreedBy(s, l)
  {
    if l.End? {
      var callback := s.firing[|s.firing| - 1];
      BothFreed(kind, Proxy, Closure, callback);
      FreesConcat(kind, s.freed, [Free(Proxy, callback), Free(Closure, callback)]);
    } else if l.Destroy? {
      FreesOfAll(kind, Of(s.pending, l.surface));
      FreesConcat(kind, s.freed, FreesOf(Of(s.pending, l.surface)));
    }
  }

  lemma BeginStepBalances(freed: seq<nat>, s: State, callback: nat)
    requires Inv(s) && Enabled(s, Begin(callback)) && Balanced(freed, s.pending, s.firing, |s.added|)
    ensures var t := Apply(s, Begin(callback)); Balanced(freed, t.pending, t.firing, |t.added|)
  {
    FiringFindsItsEntry(s, callback);
    BeginBalances(freed, s.pending, s.firing, |s.added|, callback);
  }

  lemma AddStepBalances(freed: seq<nat>, s: State, l: Label)
    requires Enabled(s, l) && (l.Create? || l.Add?) && Balanced(freed, s.pending, s.firing, |s.added|)
    ensures var t := Apply(s, l); Balanced(freed, t.pending, t.firing, |t.added|)
  {
    if l.Add? {
      AddBalances(freed, s.pending, s.firing, |s.added|, l.surface);
    }
  }

  lemma FreeStepBalances(freed: seq<nat>, s: State, l: Label)
    requires Enabled(s, l) && (l.End? || l.Destroy?) && Balanced(freed, s.pending, s.firing, |s.added|)
    ensures var t := Apply(s, l); Balanced(freed + FreedBy(s, l), t.pending, t.firing, |t.added|)
  {
    if l.End? {
      EndBalances(freed, s.pending, s.firing, |s.added|);
    } else {
      DestroyBalances(freed, s.pending, s.firing, |s.added|, l.surface);
    }
  }

  lemma StepBalances(freed: seq<nat>, s: State, l: Label)
    requires Inv(s) && Enabled(s, l) && Balanced(freed, s.pending, s.firing, |s.added|)
    ensures var t := Apply(s, l); Balanced(freed + FreedBy(s, l), t.pending, t.firing, |t.added|)
  {
    if l.End? || l.Destroy? {
      FreeStepBalances(freed, s, l);
    } else {
      assert freed + FreedBy(s, l) == freed;
      if l.Begin? {
        BeginStepBalances(freed, s, l.callback);
      } else {
        AddStepBalances(freed, s, l);
      }
    }
  }

  lemma StepKeepsConserved(s: State, l: Label)
    requires Inv(s) && Enabled(s, l)
    ensures Conserved(Apply(s, l))
  {
    FreedByStep(Closure, s, l);
    StepBalances(FreedAs(Closure, s.freed), s, l);
    FreedByStep(Proxy, s, l);
    StepBalances(FreedAs(Proxy, s.freed), s, l);
  }

  lemma StepKeepsListed(s: State, l: Label)
    requires Inv(s) && Enabled(s, l)
    ensures Listed(Apply(s, l))
  {
    var t := Apply(s, l);
    match l
    case Create(_) => UnfiredIgnores(s, t, 0);
    case Add(surface) =>
      UnfiredAdd(s, surface, 0);
      UnfiredIgnores(s.(added := s.added + [surface]), t, 0);
    case Begin(callback) =>
      UnfiredFire(s, callback, 0);
      UnfiredIgnores(s.(fired := s.fired + {callback}), t, 0);
    case End => UnfiredIgnores(s, t, 0);
    case Destroy(surface) =>
      UnfiredDestroy(s, surface, 0);
      UnfiredIgnores(s.(live := s.live - {surface}), t, 0);
  }

  lemma StepKeepsInv(s: State, l: Label)
    requires Inv(s) && Enabled(s, l)
    ensures Inv(Apply(s, l))
  {
    StepKeepsConserved(s, l);
    StepKeepsListed(s, l);
  }

  lemma {:induction false} RunKeepsInv(s: State, ls: seq<Label>)
    requires Inv(s) && Valid(s, ls)
    ensures Inv(After(s, ls))
    decreases |ls|
  {
    if ls != [] {
      StepKeepsInv(s, ls[0]);
      RunKeepsInv(Apply(s, ls[0]), ls[1..]);
    }
  }

  /** How often a callback is freed, in one of the two ways, pending or running. */
  function Places(freed: seq<nat>, s: State, callback: nat): nat {
    multiset(freed)[callback] + multiset(Callbacks(s.pending))[callback] + multiset(s.firing)[callback]
  }

  lemma PlacesCount(freed: seq<nat>, s: State, callback: nat)
    requires Balanced(freed, s.pending, s.firing, |s.added|)
    ensures Places(freed, s, callback) == if callback < |s.added| then 1 else 0
  {
    UptoCounts(|s.added|, callback);
    var all := multiset(freed) + multiset(Callbacks(s.pending)) + multiset(s.firing);
    assert all[callback] == Upto(|s.added|)[callback];
  }

  /** Over every interleaving of adding, firing and destroying: the list is exactly the
      unfired callbacks of live surfaces in the order of adding; the closure of each callback
      that was added is pending, running or freed, and in one of these places once, and so is
      its wl_callback; and a callback that fires is always found. */
  lemma {:induction false} EachFreedOnce(ls: seq<Label>, callback: nat)
    requires Valid(INITIAL, ls)
    ensures var s := After(INITIAL, ls);
            && s.pending == Unfired(s, 0)
            && Places(FreedAs(Closure, s.freed), s, callback) == (if callback < |s.added| then 1 else 0)
            && Places(FreedAs(Proxy, s.freed), s, callback) == (if callback < |s.added| then 1 else 0)
            && (Enabled(s, Begin(callback)) ==> callback in Callbacks(s.pending))
  {
    RunKeepsInv(INITIAL, ls);
    var s := After(INITIAL, ls);
    PlacesCount(FreedAs(Closure, s.freed), s, callback);
    PlacesCount(FreedAs(Proxy, s.freed), s, callback);
    if Enabled(s, Begin(callback)) {
      FiringFindsItsEntry(s, callback);
    }
  }

  lemma {:induction false} NoneAlive(s: State, k: nat)
    requires k <= |s.added| && s.live == {}
    ensures Unfired(s, k) == []
    decreases |s.added| - k
  {
    if k < |s.added| {
      NoneAlive(s, k + 1);
    }
  }

  /** Nothing leaks: when no surface is alive and no closure is running, the closure and the
      wl_callback of every callback ever added have been freed exactly once. */
  lemma {:induction false} NothingLeaks(ls: seq<Label>)
    requires Valid(INITIAL, ls)
    ensures var s := After(INITIAL, ls);
            s.live == {} && s.firing == [] ==>
              && s.pending == []
              && multiset(FreedAs(Closure, s.freed)) == Upto(|s.added|)
              && multiset(FreedAs(Proxy, s.freed)) == Upto(|s.added|)
  {
    RunKeepsInv(INITIAL, ls);
    var s := After(INITIAL, ls);
    if s.live == {} {
      NoneAlive(s, 0);
    }
  }

  lemma FiringIsNotFreed(s: State, callback: nat)
    requires Inv(s) && callback in s.firing
    ensures Free(Closure, callback) !in s.freed && Free(Proxy, callback) !in s.freed
  {
    PlacesCount(FreedAs(Closure, s.freed), s, callback);
    PlacesCount(FreedAs(Proxy, s.freed), s, callback);
    FreedIsListed(Closure, s.freed, callback);
    FreedIsListed(Proxy, s.freed, callback);
    assert multiset(s.firing)[callback] >= 1;
  }

  /** Destroying a surface from inside its own firing callback frees neither the closure that
      runs nor its wl_callback; both are freed after the closure has returned. */
  lemma DestroyInsideOwnCallback(s: State, callback: nat)
    requires Inv(s) && Enabled(s, Begin(callback)) && s.added[callback] in s.live
    ensures var inside := Apply(s, Begin(callback));
            && Enabled(inside, Destroy(s.added[callback]))
            && var gone := Apply(inside, Destroy(s.added[callback]));
               && Free(Closure, callback) !in gone.freed && Free(Proxy, callback) !in gone.freed
               && gone.firing[|gone.firing| - 1] == callback
               && Apply(gone, End).freed == gone.freed + [Free(Proxy, callback), Free(Closure, callback)]
  {
    var inside := Apply(s, Begin(callback));
    StepKeepsInv(s, Begin(callback));
    var gone := Apply(inside, Destroy(s.added[callback]));
    StepKeepsInv(inside, Destroy(s.added[callback]));
    FiringIsNotFreed(gone, callback);
  }

  // ------------------------------------------------------------------ the class

  lemma {:induction false} NotHere(es: seq<Entry>, callback: nat, i: nat)
    requires i < |es| && es[i].callback != callback && callback in Callbacks(es[i..])
    ensures i + 1 < |es| && callback in Callbacks(es[i + 1..])
    ensures es[..i] + Without(es[i..], callback) == es[..i + 1] + Without(es[i + 1..], callback)
  {
    assert es[i..][1..] == es[i + 1..];
  }

  /** find_if over the list: the first entry of the callback. */
  method Find(es: seq<Entry>, callback: nat) returns (i: nat)
    requires callback in Callbacks(es)
    ensures i < |es| && es[i].callback == callback
    ensures es[..i] + es[i + 1..] == Without(es, callback)
  {
    i := 0;
    assert es[0..] == es;
    while es[i].callback != callback
      invariant i < |es| && callback in Callbacks(es[i..])
      invariant es[..i] + Without(es[i..], callback) == Without(es, callback)
      decreases |es| - i
    {
      NotHere(es, callback, i);
      i := i + 1;
    }
    assert es[i..][1..] == es[i + 1..];
  }

  /** One round of the destructor's loop. */
  lemma {:induction false} OneEntry(es: seq<Entry>, i: nat, surface: nat, freed: seq<Free>)
    requires i < |es|
    ensures es[i..][1..] == es[i + 1..]
    ensures es[i].surface == surface ==>
              && (es[..i] + es[i + 1..])[..i] == es[..i]
              && NotOf(es[i..], surface) == NotOf(es[i + 1..], surface)
              && freed + FreesOf(Of(es[i..], surface)) ==
                 freed + [Free(Closure, es[i].callback)] + [Free(Proxy, es[i].callback)]
                 + FreesOf(Of(es[i + 1..], surface))
    ensures es[i].surface != surface ==>
              && es[..i] + NotOf(es[i..], surface) == es[..i + 1] + NotOf(es[i + 1..], surface)
              && Of(es[i..], surface) == Of(es[i + 1..], surface)
  {
    var rest := es[i..];
    assert rest[1..] == es[i + 1..];
    if es[i].surface == surface {
      assert Of(rest, surface)[1..] == Of(rest[1..], surface);
    }
  }

  /** The static list with the loops that search and erase in it. */
  class Registry {
    var pendingCallbacks: seq<Entry>
    ghost var freed: seq<Free>

    constructor ()
      ensures pendingCallbacks == [] && freed == []
    {
      pendingCallbacks, freed := [], [];
    }

    method AddFrameCallback(surface: nat, callback: nat)
      modifies this
      ensures pendingCallbacks == old(pendingCallbacks) + [Entry(surface, callback)]
      ensures freed == old(freed)
    {
      pendingCallbacks := pendingCallbacks + [Entry(surface, callback)];
    }

    /** The loop of the destructor of Surface::Impl. */
    method DestroySurface(surface: nat)
      modifies this
      ensures pendingCallbacks == NotOf(old(pendingCallbacks), surface)
      ensures freed == old(freed) + FreesOf(Of(old(pendingCallbacks), surface))
    {
      var i := 0;
      ghost var was := pendingCallbacks;
      while i < |pendingCallbacks|
        invariant i <= |pendingCallbacks|
        invariant pendingCallbacks[..i] + NotOf(pendingCallbacks[i..], surface) == NotOf(was, surface)
        invariant freed + FreesOf(Of(pendingCallbacks[i..], surface)) == old(freed) + FreesOf(Of(was, surface))
        decreases |pendingCallbacks| - i
      {
        ghost var rest := pendingCallbacks[i..];
        OneEntry(pendingCallbacks, i, surface, freed);
        if pendingCallbacks[i].surface == surface {
          var callback := pendingCallbacks[i].callback;
          freed := freed + [Free(Closure, callback)];
          freed := freed + [Free(Proxy, callback)];
          pendingCallbacks := pendingCallbacks[..i] + pendingCallbacks[i + 1..];
          assert pendingCallbacks[i..] == rest[1..];
        } else {
          i := i + 1;
        }
      }
      assert pendingCallbacks[..i] == pendingCallbacks && pendingCallbacks[i..] == [];
    }

    /** The first half of frame_callback: find_if and erase. Erasing the end iterator would
        be undefined, so the callback must be listed. */
    method BeginFrame(callback: nat)
      requires callback in Callbacks(pendingCallbacks)
      modifies this
      ensures pendingCallbacks == Without(old(pendingCallbacks), callback)
      ensures freed == old(freed)
    {
      var i := Find(pendingCallbacks, callback);
      pendingCallbacks := pendingCallbacks[..i] + pendingCallbacks[i + 1..];
    }

    /** The second half, after the closure has returned. */
    method EndFrame(callback: nat)
      modifies this
      ensures pendingCallbacks == old(pendingCallbacks)
      ensures freed == old(freed) + [Free(Proxy, callback), Free(Closure, callback)]
    {
      freed := freed + [Free(Proxy, callback)];
      freed := freed + [Free(Closure, callback)];
    }
  }
}
