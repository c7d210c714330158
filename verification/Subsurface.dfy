/** Subsurface::create_visible (src/in_process_server.cpp): commits from the new leaf up to
    the root. The environment is the cached-state rule of interface wl_subsurface, Wayland
    core protocol, on the chain from the leaf (index 0) to the root (last index).

    `modes[i]` says that surface i was set to sync; the root's is without meaning. */
module Subsurface {
  import opened Common

  /** Double-buffered state of one surface: its buffer, where its child of the chain is,
      and its frame callbacks. */
  datatype Update = Update(buffer: Option<nat>, childAt: Option<(int, int)>, frames: seq<nat>)

  const NOTHING := Update(None, None, [])

  /** `a`, then `b` on top of it. */
  function Merge(a: Update, b: Update): Update {
    Update(Later(a.buffer, b.buffer), Later(a.childAt, b.childAt), a.frames + b.frames)
  }

  lemma MergeAssociates(a: Update, b: Update, c: Update)
    ensures Merge(Merge(a, b), c) == Merge(a, Merge(b, c))
    ensures Merge(a, NOTHING) == a == Merge(NOTHING, a)
    ensures Merge(a, b) == NOTHING <==> a == NOTHING && b == NOTHING
  {
  }

  datatype Surface = Surface(current: Update, cached: Update, pending: Update) {
    /** What will be visible once everything requested so far is applied. */
    function Total(): Update { Merge(Merge(current, cached), pending) }

    predicate Settled() { cached == NOTHING && pending == NOTHING }

    function Flushed(): Surface { Surface(Merge(current, Merge(cached, pending)), NOTHING, NOTHING) }
    function Cached(): Surface { Surface(current, Merge(cached, pending), NOTHING) }
    function CacheApplied(): Surface { Surface(Merge(current, cached), NOTHING, pending) }
  }

  type Chain = seq<Surface>

  // --------------------------------------------------------- the protocol's rule

  /** A subsurface behaves as synchronized if it or an ancestor is in sync mode. */
  predicate Synchronized(modes: seq<bool>, i: nat)
    requires i < |modes|
    decreases |modes| - i
  {
    i + 1 < |modes| && (modes[i] || Synchronized(modes, i + 1))
  }

  /** Sync mode is inherited from every ancestor but the root, which has no mode. */
  lemma {:induction false} SynchronizedIff(modes: seq<bool>, i: nat)
    requires i < |modes|
    ensures Synchronized(modes, i) <==> exists k :: i <= k < |modes| - 1 && modes[k]
    decreases |modes| - i
  {
    if i + 1 < |modes| {
      SynchronizedIff(modes, i + 1);
    }
  }

  /** Applying surface i applies the caches of the synchronized surfaces below it. */
  function Cascade(modes: seq<bool>, c: Chain, i: nat): (r: Chain)
    requires i < |c| == |modes|
    ensures |r| == |c|
    decreases i
  {
    if i == 0 || !Synchronized(modes, i - 1) then c
    else Cascade(modes, c[i - 1 := c[i - 1].CacheApplied()], i - 1)
  }

  /** wl_surface.commit on surface i. */
  function Commit(modes: seq<bool>, c: Chain, i: nat): (r: Chain)
    requires i < |c| == |modes|
    ensures |r| == |c|
  {
    if Synchronized(modes, i) then c[i := c[i].Cached()]
    else Cascade(modes, c[i := c[i].Flushed()], i)
  }

  predicate InChain(order: seq<nat>, n: nat) { forall k :: 0 <= k < |order| ==> order[k] < n }

  function CommitAll(modes: seq<bool>, c: Chain, order: seq<nat>): (r: Chain)
    requires |c| == |modes| && InChain(order, |c|)
    ensures |r| == |c|
    decreases |order|
  {
    if order == [] then c else CommitAll(modes, Commit(modes, c, order[0]), order[1..])
  }

  // ------------------------------------------------- one surface on its own

  /** The surface whose commit makes surface i's state current: the nearest one, upwards
      from i, that does not behave as synchronized. */
  function Source(modes: seq<bool>, i: nat): (r: nat)
    requires i < |modes|
    ensures i <= r < |modes| && !Synchronized(modes, r)
    ensures Synchronized(modes, i) <==> r > i
    decreases |modes| - i
  {
    if Synchronized(modes, i) then Source(modes, i + 1) else i
  }

  lemma {:induction false} SourceThrough(modes: seq<bool>, j: nat, i: nat)
    requires j <= i < |modes| && Source(modes, j) >= i
    ensures Source(modes, j) == Source(modes, i)
    decreases i - j
  {
    if j < i {
      SourceThrough(modes, j + 1, i);
    }
  }

  lemma {:induction false} CascadeAt(modes: seq<bool>, c: Chain, i: nat, j: nat)
    requires i < |c| == |modes| && j < |c|
    ensures Cascade(modes, c, i)[j] ==
            if j < i && Source(modes, j) >= i then c[j].CacheApplied() else c[j]
    decreases i
  {
    if i > 0 && Synchronized(modes, i - 1) {
      CascadeAt(modes, c[i - 1 := c[i - 1].CacheApplied()], i - 1, j);
      if j < i && Source(modes, j) == i - 1 {
        assert false;
      }
    } else if i > 0 && j < i && Source(modes, j) >= i {
      SourceThrough(modes, j, i - 1);
      assert false;
    }
  }

  /** What a commit of surface i does to surface j. */
  function Seen(modes: seq<bool>, j: nat, s: Surface, i: nat): Surface
    requires j < |modes| && i < |modes|
  {
    if i == j then (if Synchronized(modes, j) then s.Cached() else s.Flushed())
    else if i == Source(modes, j) then s.CacheApplied()
    else s
  }

  lemma CommitAt(modes: seq<bool>, c: Chain, i: nat, j: nat)
    requires i < |c| == |modes| && j < |c|
    ensures Commit(modes, c, i)[j] == Seen(modes, j, c[j], i)
  {
    if !Synchronized(modes, i) {
      CascadeAt(modes, c[i := c[i].Flushed()], i, j);
      if j < i && Source(modes, j) >= i {
        SourceThrough(modes, j, i);
      }
    }
  }

  function SeenAll(modes: seq<bool>, j: nat, s: Surface, order: seq<nat>): Surface
    requires j < |modes| && InChain(order, |modes|)
    decreases |order|
  {
    if order == [] then s else SeenAll(modes, j, Seen(modes, j, s, order[0]), order[1..])
  }

  lemma {:induction false} CommitAllAt(modes: seq<bool>, c: Chain, order: seq<nat>, j: nat)
    requires |c| == |modes| && InChain(order, |c|) && j < |c|
    ensures CommitAll(modes, c, order)[j] == SeenAll(modes, j, c[j], order)
    decreases |order|
  {
    if order != [] {
      CommitAt(modes, c, order[0], j);
      CommitAllAt(modes, Commit(modes, c, order[0]), order[1..], j);
    }
  }

  lemma SeenConserves(modes: seq<bool>, j: nat, s: Surface, i: nat)
    requires j < |modes| && i < |modes|
    ensures Seen(modes, j, s, i).Total() == s.Total()
  {
  }

  lemma {:induction false} SeenAllConserves(modes: seq<bool>, j: nat, s: Surface, order: seq<nat>)
    requires j < |modes| && InChain(order, |modes|)
    ensures SeenAll(modes, j, s, order).Total() == s.Total()
    decreases |order|
  {
    if order != [] {
      SeenConserves(modes, j, s, order[0]);
      SeenAllConserves(modes, j, Seen(modes, j, s, order[0]), order[1..]);
    }
  }

  // ------------------------------------------------------------ every order

  /** Surface j is committed, and at that commit or later so is its source. */
  ghost predicate Shown(modes: seq<bool>, j: nat, order: seq<nat>)
    requires j < |modes|
  {
    exists p, q :: 0 <= p <= q < |order| && order[p] == j && order[q] == Source(modes, j)
  }

  lemma {:induction false} ShownStep(modes: seq<bool>, j: nat, order: seq<nat>)
    requires j < |modes| && order != []
    ensures Shown(modes, j, order) <==>
            || Shown(modes, j, order[1..])
            || (order[0] == j && Source(modes, j) in order)
  {
  }

  /** Commits that reach surface j but not its source leave its cache in place. */
  lemma {:induction false} CacheStays(modes: seq<bool>, j: nat, s: Surface, order: seq<nat>)
    requires j < |modes| && InChain(order, |modes|)
    requires s.cached != NOTHING && Source(modes, j) !in order
    ensures SeenAll(modes, j, s, order).cached != NOTHING
    decreases |order|
  {
    if order != [] {
      MergeAssociates(s.cached, s.pending, NOTHING);
      CacheStays(modes, j, Seen(modes, j, s, order[0]), order[1..]);
    }
  }

  /** Settled surfaces stay settled. */
  lemma {:induction false} SettledStays(modes: seq<bool>, j: nat, s: Surface, order: seq<nat>)
    requires j < |modes| && InChain(order, |modes|) && s.Settled()
    ensures SeenAll(modes, j, s, order).Settled()
    decreases |order|
  {
    if order != [] {
      SettledStays(modes, j, Seen(modes, j, s, order[0]), order[1..]);
    }
  }

  /** A cache with nothing pending on top of it is applied by the next commit of the source. */
  lemma {:induction false} CacheGoes(modes: seq<bool>, j: nat, s: Surface, order: seq<nat>)
    requires j < |modes| && InChain(order, |modes|)
    requires s.pending == NOTHING && Source(modes, j) in order
    ensures SeenAll(modes, j, s, order).Settled()
    decreases |order|
  {
    if order[0] == Source(modes, j) {
      SettledStays(modes, j, Seen(modes, j, s, order[0]), order[1..]);
    } else {
      CacheGoes(modes, j, Seen(modes, j, s, order[0]), order[1..]);
    }
  }

  /** For every surface and every sequence of commits: a surface with pending state is
      settled afterwards exactly if the sequence commits it and then its source. */
  lemma {:induction false} SettledIffShown(modes: seq<bool>, j: nat, s: Surface, order: seq<nat>)
    requires j < |modes| && InChain(order, |modes|)
    ensures Shown(modes, j, order) ==> SeenAll(modes, j, s, order).Settled()
    ensures s.pending != NOTHING && !Shown(modes, j, order) ==> !SeenAll(modes, j, s, order).Settled()
    decreases |order|
  {
    if order != [] {
      ShownStep(modes, j, order);
      var t, tail := Seen(modes, j, s, order[0]), order[1..];
      SettledIffShown(modes, j, t, tail);
      if order[0] == j && Source(modes, j) in order {
        if Source(modes, j) == j {
          SettledStays(modes, j, t, tail);
        } else {
          CacheGoes(modes, j, t, tail);
        }
      } else if order[0] == j && s.pending != NOTHING {
        MergeAssociates(s.cached, s.pending, NOTHING);
        CacheStays(modes, j, t, tail);
      }
    }
  }

  /** The value requested last: pending before cached before current. */
  function Newest<T>(current: Option<T>, cached: Option<T>, pending: Option<T>): Option<T> {
    if pending.Some? then pending else if cached.Some? then cached else current
  }

  /** Everything requested of the surface is in the update: the latest buffer, the latest
      position of the child, and all frame callbacks, the oldest first. */
  predicate HoldsAll(s: Surface, u: Update) {
    && u.buffer == Newest(s.current.buffer, s.cached.buffer, s.pending.buffer)
    && u.childAt == Newest(s.current.childAt, s.cached.childAt, s.pending.childAt)
    && u.frames == s.current.frames + s.cached.frames + s.pending.frames
  }

  lemma TotalHoldsAll(s: Surface)
    ensures HoldsAll(s, s.Total())
  {
  }

  /** The theorem for the whole chain, of any depth and any mix of modes: no commit loses or
      invents state, and surface j's pending state becomes current exactly if j and then its
      source are committed; everything requested of it is then current. */
  lemma CommitOrderTheorem(modes: seq<bool>, c: Chain, order: seq<nat>, j: nat)
    requires |c| == |modes| && InChain(order, |c|) && j < |c|
    ensures CommitAll(modes, c, order)[j].Total() == c[j].Total()
    ensures HoldsAll(c[j], CommitAll(modes, c, order)[j].Total())
    ensures Shown(modes, j, order) ==>
              && CommitAll(modes, c, order)[j] == Surface(c[j].Total(), NOTHING, NOTHING)
              && HoldsAll(c[j], CommitAll(modes, c, order)[j].current)
    ensures c[j].pending != NOTHING && !Shown(modes, j, order) ==> !CommitAll(modes, c, order)[j].Settled()
  {
    var s := CommitAll(modes, c, order)[j];
    CommitAllAt(modes, c, order, j);
    SeenAllConserves(modes, j, c[j], order);
    SettledIffShown(modes, j, c[j], order);
    MergeAssociates(s.current, NOTHING, NOTHING);
    TotalHoldsAll(c[j]);
  }

  // ------------------------------------------------------------ two orders

  function Ascending(n: nat): (r: seq<nat>)
    ensures |r| == n && forall k :: 0 <= k < n ==> r[k] == k
  {
    if n == 0 then [] else Ascending(n - 1) + [n - 1]
  }

  function Descending(n: nat): (r: seq<nat>)
    ensures |r| == n && forall k :: 0 <= k < n ==> r[k] == n - 1 - k
  {
    if n == 0 then [] else [n - 1] + Descending(n - 1)
  }

  /** Leaf to root makes every surface's state current. */
  lemma {:induction false} LeafFirstShowsAll(modes: seq<bool>, j: nat)
    requires j < |modes|
    ensures Shown(modes, j, Ascending(|modes|))
  {
    var order := Ascending(|modes|);
    assert order[j] == j && order[Source(modes, j)] == Source(modes, j);
  }

  /** Root to leaf does so exactly for the surfaces that do not behave as synchronized. */
  lemma {:induction false} RootFirstShowsDesyncOnly(modes: seq<bool>, j: nat)
    requires j < |modes|
    ensures Shown(modes, j, Descending(|modes|)) <==> !Synchronized(modes, j)
  {
    var n, order := |modes|, Descending(|modes|);
    if !Synchronized(modes, j) {
      assert order[n - 1 - j] == j;
    }
  }

  /** The cases of tests/wl_subsurface.cpp: a three-level chain in which the child's
      position, state of the middle surface, is pending; and a desync child, which follows its
      parent's mode. */
  lemma MultilevelCases(sync: bool)
    ensures !Shown([true, sync, false], 1, [2])
    ensures Shown([true, sync, false], 1, [1]) <==> !sync
    ensures Shown([true, sync, false], 1, [2, 1]) <==> !sync
    ensures Shown([true, sync, false], 1, [1, 2])
    ensures Shown([false, sync, false], 0, [0]) <==> !sync
    ensures Shown([false, sync, false], 0, [0, 2])
  {
    var desync := [false, sync, false];
    assert Source(desync, 1) == if sync then 2 else 1;
    assert Source(desync, 0) == if sync then 2 else 0;
    assert [0][0] == 0 && [0, 2][0] == 0 && [0, 2][1] == 2;
    var modes := [true, sync, false];
    assert Source(modes, 1) == if sync then 2 else 1;
    assert [1][0] == 1 && [2, 1][1] == 1 && [1, 2][0] == 1 && [1, 2][1] == 2;
  }

  // ------------------------------------------------------------ create_visible

  /** The chain after the requests of create_visible that precede its commits: the new
      subsurface is in sync mode, has a buffer and a frame callback pending, and its position
      is pending on its parent. */
  function Prepared(parents: Chain, at: (int, int), buffer: nat, frame: nat): (r: Chain)
    requires parents != []
    ensures |r| == |parents| + 1
  {
    var leaf := Surface(NOTHING, NOTHING, Update(Some(buffer), None, [frame]));
    var parent := parents[0].(pending := parents[0].pending.(childAt := Some(at)));
    [leaf, parent] + parents[1..]
  }

  /** Ends with each ancestor committed exactly once, leaf to root, and with everything that
      was requested anywhere on the path current. */
  method CreateVisible(modes: seq<bool>, parents: Chain, at: (int, int), buffer: nat, frame: nat)
    returns (chain: Chain, commits: seq<nat>)
    requires 0 < |parents| == |modes|
    ensures commits == Ascending(|parents| + 1)
    ensures |chain| == |parents| + 1
    ensures forall j :: 0 <= j < |chain| ==> chain[j].Settled()
    ensures chain[0].current == Update(Some(buffer), None, [frame])
    ensures chain[1].current.childAt == Some(at)
    ensures HoldsAll(parents[0].(pending := parents[0].pending.(childAt := Some(at))), chain[1].current)
    ensures forall j :: 1 < j < |chain| ==> HoldsAll(parents[j - 1], chain[j].current)
  {
    var all := [true] + modes;
    chain := Prepared(parents, at, buffer, frame);
    ghost var start, order := chain, Ascending(|chain|);
    commits := [];
    var surface := 0;
    while surface < |chain|
      invariant surface <= |chain| == |all|
      invariant commits == Ascending(surface)
      invariant CommitAll(all, chain, order[surface..]) == CommitAll(all, start, order)
    {
      assert order[surface..][0] == surface && order[surface..][1..] == order[surface + 1..];
      chain := Commit(all, chain, surface);
      commits := commits + [surface];
      surface := surface + 1;
    }
    forall j | 0 <= j < |chain|
      ensures chain[j].Settled() && HoldsAll(start[j], chain[j].current)
    {
      CommitOrderTheorem(all, start, order, j);
      LeafFirstShowsAll(all, j);
    }
    assert [] + [] + [frame] == [frame];
  }
}
