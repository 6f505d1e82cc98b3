/**
  The worker pool's lifecycle. The lock makes each start and each stop one transition; threads may
  outlive their join, die at any time, and the lease release may fail.
*/
module WorkerPool {
  import opened Prelude

  type ThreadId = nat

  const POOL_BUDGET_RESERVE := 2
  const POOL_MAX_SIZE := 5

  /**
    The module's four names, and the world around them: the generation each thread was spawned
    for, who is alive, which generations' stop events are set, and which releases went through.
   */
  datatype Pool = Pool(
    threads: seq<ThreadId>,
    orphans: seq<ThreadId>,
    generation: nat,
    stop: Option<nat>,
    stopped: set<nat>,
    spawned: seq<nat>,
    alive: set<ThreadId>,
    releases: seq<nat>,
    size: nat)

  /** A stop says which threads end while it joins them, and whether the release raises. */
  datatype Op =
    | Start(n: int)
    | Stop(ending: set<ThreadId>, releaseRaises: bool)
    | Lifespan(n: int)
    | Die(t: ThreadId)

  function Alive(ts: seq<ThreadId>, alive: set<ThreadId>): (r: seq<ThreadId>)
    ensures forall t :: t in r <==> t in ts && t in alive
  {
    if ts == [] then []
    else
      var before := Alive(ts[..|ts| - 1], alive);
      if ts[|ts| - 1] in alive then before + [ts[|ts| - 1]] else before
  }

  /** Ids for n new threads, after those already used. */
  function NewIds(used: nat, n: nat): (ids: seq<ThreadId>)
    ensures |ids| == n && forall i | 0 <= i < n :: ids[i] == used + i
    ensures forall t :: t in ids <==> t in Range(used, n)
  {
    var ids := seq(n, i => used + i);
    assert forall t | t in Range(used, n) :: ids[t - used] == t;
    ids
  }

  /** The n ids from `from` on. */
  function Range(from: nat, n: nat): (r: set<ThreadId>)
    ensures forall t :: t in r <==> from <= t < from + n
  {
    if n == 0 then {} else Range(from, n - 1) + {from + n - 1}
  }

  lemma {:induction false} RangeSize(from: nat, n: nat)
    ensures |Range(from, n)| == n
  {
    if n > 0 {
      RangeSize(from, n - 1);
    }
  }

  function Started(p: Pool, n: int): Pool {
    var pruned := p.(orphans := Alive(p.orphans, p.alive));
    if |pruned.threads| > 0 || |pruned.orphans| > 0 || n <= 0 then pruned
    else
      var ids, gen := NewIds(|p.spawned|, n), p.generation + 1;
      pruned.(generation := gen, stop := Some(gen), threads := ids, size := n,
              spawned := p.spawned + seq(n, _ => gen), alive := p.alive + Range(|p.spawned|, n))
  }

  function Stopped(p: Pool, ending: set<ThreadId>, releaseRaises: bool): Pool {
    if p.stop.None? then p
    else
      var joined := p.(stopped := p.stopped + {p.stop.value}, alive := p.alive - ending);
      if releaseRaises then joined
      else
        joined.(releases := p.releases + [p.stop.value], orphans := p.orphans + Alive(p.threads, joined.alive),
                threads := [], stop := None)
  }

  function Apply(p: Pool, op: Op): Pool {
    match op
    case Start(n) => Started(p, n)
    case Stop(ending, releaseRaises) => Stopped(p, ending, releaseRaises)
    case Lifespan(n) => if n + POOL_BUDGET_RESERVE > POOL_MAX_SIZE then p else Started(p, n)
    case Die(t) => p.(alive := p.alive - {t})
  }

  const BOOT := Pool([], [], 0, None, {}, [], {}, [], 0)

  function Run(p: Pool, ops: seq<Op>): Pool {
    if ops == [] then p else Apply(Run(p, ops[..|ops| - 1]), ops[|ops| - 1])
  }

  // ---------------------------------------------------------------------------------------------
  // The lifecycle invariant
  // ---------------------------------------------------------------------------------------------

  /** Every live thread is the current generation's, and is tracked. */
  ghost predicate OneGeneration(p: Pool) {
    && (forall t <- p.alive :: t < |p.spawned| && p.spawned[t] == p.generation && (t in p.threads || t in p.orphans))
    && |p.alive| <= p.size
    && (p.stop.Some? ==> p.orphans == [])
    && (p.stop.None? ==> p.threads == [])
  }

  /** Stop events and releases, generation by generation. */
  ghost predicate EventsAndReleases(p: Pool) {
    && (p.stop.Some? ==> p.stop.value == p.generation && p.generation > 0 && p.threads != [])
    && (forall g :: g in p.stopped ==> 1 <= g <= p.generation)
    && (forall g | 1 <= g <= p.generation && p.stop != Some(g) :: g in p.stopped)
    && (forall g: nat :: g in p.releases <==> 1 <= g <= p.generation && p.stop != Some(g))
    && (forall i, j | 0 <= i < j < |p.releases| :: p.releases[i] != p.releases[j])
  }

  ghost predicate Inv(p: Pool) {
    OneGeneration(p) && EventsAndReleases(p)
  }

  /** Spawning over a pool with nobody left alive. */
  lemma SpawnKeeps(p: Pool, n: nat)
    requires OneGeneration(p) && n > 0 && p.threads == [] && p.alive == {} && p.stop.None?
    ensures OneGeneration(Started(p, n))
  {
    RangeSize(|p.spawned|, n);
    if Alive(p.orphans, p.alive) == [] {
      assert Started(p, n).alive == Range(|p.spawned|, n);
    }
  }

  /** With no thread listed and no orphan alive, nobody is. */
  lemma NobodyLeft(p: Pool)
    requires OneGeneration(p) && p.threads == [] && Alive(p.orphans, p.alive) == []
    ensures p.alive == {}
  {
    assert forall t :: t in p.alive ==> t in Alive(p.orphans, p.alive);
  }

  /** Pruning dead orphans is all a refused start does. */
  lemma PruneKeeps(p: Pool)
    requires Inv(p)
    ensures Inv(p.(orphans := Alive(p.orphans, p.alive)))
  {
  }

  lemma SpawnEvents(p: Pool, q: Pool)
    requires EventsAndReleases(p) && p.stop.None? && q.threads != []
    requires q.generation == p.generation + 1 && q.stop == Some(q.generation) && q.stopped == p.stopped && q.releases == p.releases
    ensures EventsAndReleases(q)
  {
  }

  lemma StartStep(p: Pool, n: int)
    requires Inv(p)
    ensures Inv(Started(p, n))
  {
    hide Alive, Range, EventsAndReleases;
    if p.threads == [] && Alive(p.orphans, p.alive) == [] && n > 0 {
      assert p.stop.None? by {
        RunningHasThreads(p);
      }
      NobodyLeft(p);
      SpawnKeeps(p, n);
      SpawnEvents(p, Started(p, n));
    } else {
      PruneKeeps(p);
    }
  }

  lemma RunningHasThreads(p: Pool)
    requires EventsAndReleases(p) && p.threads == []
    ensures p.stop.None?
  {
  }

  lemma StopStep(p: Pool, ending: set<ThreadId>, releaseRaises: bool)
    requires Inv(p)
    ensures Inv(Stopped(p, ending, releaseRaises))
  {
    var q := Stopped(p, ending, releaseRaises);
    SubsetSize(q.alive, p.alive);
    assert q.alive <= p.alive;
    assert p.stop.Some? ==> p.stop.value !in p.releases;
  }

  /** What one transition keeps, and that a stop event once set stays set. */
  lemma InvStep(p: Pool, op: Op)
    requires Inv(p)
    ensures Inv(Apply(p, op)) && p.stopped <= Apply(p, op).stopped && p.releases <= Apply(p, op).releases
  {
    match op
    case Start(n) => StartStep(p, n);
    case Lifespan(n) => StartStep(p, n);
    case Stop(ending, releaseRaises) => StopStep(p, ending, releaseRaises);
    case Die(t) => SubsetSize(p.alive - {t}, p.alive);
  }

  lemma {:induction false} EveryLifecycleKeepsInv(p: Pool, ops: seq<Op>)
    requires Inv(p)
    ensures Inv(Run(p, ops)) && p.stopped <= Run(p, ops).stopped
  {
    hide Inv, Apply;
    if ops != [] {
      EveryLifecycleKeepsInv(p, ops[..|ops| - 1]);
      InvStep(Run(p, ops[..|ops| - 1]), ops[|ops| - 1]);
    }
  }

  /** The loop's exit test for a thread: its stop event, or a generation other than the current one. */
  predicate Winds(p: Pool, t: ThreadId)
    requires t < |p.spawned|
  {
    p.spawned[t] in p.stopped || p.spawned[t] != p.generation
  }

  /**
    In every state reachable by starts, stops with timed-out joins and failing releases, and thread
    deaths: a live thread carries the current generation, so the second half of its exit test never
    decides; each stopped generation has released its leases exactly once, and no other has.
   */
  lemma LifecycleIsSafe(ops: seq<Op>)
    ensures var p := Run(BOOT, ops);
      && (forall t <- p.alive :: t < |p.spawned| && p.spawned[t] == p.generation && (Winds(p, t) <==> p.generation in p.stopped))
      && (forall g: nat :: multiset(p.releases)[g] == if 1 <= g <= p.generation && p.stop != Some(g) then 1 else 0)
      && (forall g | 1 <= g <= p.generation && p.stop != Some(g) :: g in p.stopped)
  {
    BootInv();
    EveryLifecycleKeepsInv(BOOT, ops);
    var p := Run(BOOT, ops);
    forall g: nat ensures multiset(p.releases)[g] == if 1 <= g <= p.generation && p.stop != Some(g) then 1 else 0 {
      CountOnce(p.releases, g);
    }
  }

  lemma BootInv()
    ensures Inv(BOOT)
  {
  }

  lemma {:induction false} CountOnce(s: seq<nat>, g: nat)
    requires forall i, j | 0 <= i < j < |s| :: s[i] != s[j]
    ensures multiset(s)[g] == if g in s then 1 else 0
  {
    if s != [] {
      var n := |s| - 1;
      CountOnce(s[..n], g);
      assert s == s[..n] + [s[n]];
    }
  }

  /** A stop event belongs to one generation: a new generation starts with its own not set. */
  lemma FreshGenerationIsNotStopped(p: Pool, n: int)
    requires Inv(p) && Started(p, n).generation != p.generation
    ensures Started(p, n).generation == p.generation + 1 && Started(p, n).generation !in Started(p, n).stopped
  {
  }

  lemma OldThreadsAreKnown(p: Pool)
    requires Inv(p)
    ensures forall t <- p.alive :: t < |p.spawned|
    ensures p.generation + 1 !in p.stopped
  {
  }

  ghost predicate ThroughTheLifespan(ops: seq<Op>) {
    forall op <- ops :: !op.Start?
  }

  /** Booted through the application's lifespan, the live workers and the reserve always fit the pool. */
  lemma {:induction false} WorkersFitThePool(ops: seq<Op>)
    requires ThroughTheLifespan(ops)
    ensures |Run(BOOT, ops).alive| + POOL_BUDGET_RESERVE <= POOL_MAX_SIZE
    ensures Run(BOOT, ops).size + POOL_BUDGET_RESERVE <= POOL_MAX_SIZE
  {
    BootInv();
    EveryLifecycleKeepsInv(BOOT, ops);
    if ops != [] {
      WorkersFitThePool(ops[..|ops| - 1]);
      assert ops[|ops| - 1] in ops;
    }
  }

  // ---------------------------------------------------------------------------------------------
  // The module as it runs
  // ---------------------------------------------------------------------------------------------

  class Workers {
    var threads: seq<ThreadId>
    var orphans: seq<ThreadId>
    var generation: nat
    var stop: Option<nat>
    var stopped: set<nat>
    var spawned: seq<nat>
    var alive: set<ThreadId>
    var releases: seq<nat>
    ghost var size: nat

    constructor ()
      ensures View() == BOOT
    {
      threads, orphans, generation, stop, stopped := [], [], 0, None, {};
      spawned, alive, releases, size := [], {}, [], 0;
    }

    ghost function View(): Pool
      reads this
    {
      Pool(threads, orphans, generation, stop, stopped, spawned, alive, releases, size)
    }

    method StillAlive(ts: seq<ThreadId>) returns (r: seq<ThreadId>)
      ensures r == Alive(ts, alive)
    {
      r := [];
      for i := 0 to |ts|
        invariant r == Alive(ts[..i], alive)
      {
        assert ts[..i + 1][..i] == ts[..i];
        if ts[i] in alive {
          r := r + [ts[i]];
        }
      }
      assert ts[..|ts|] == ts;
    }

    /** Refuses while any thread or live orphan remains; a count of zero or less is a no-op. */
    method Start(n: int) returns (refused: bool)
      requires Inv(View())
      modifies this
      ensures View() == Apply(old(View()), Op.Start(n)) && Inv(View())
      ensures refused <==> old(threads) != [] || exists t <- old(orphans) :: t in old(alive)
      ensures refused || n <= 0 ==>
                && threads == old(threads) && generation == old(generation) && stop == old(stop) && alive == old(alive)
                && spawned == old(spawned)
      ensures !refused && n > 0 ==>
                && |threads| == n && (forall t <- threads :: t !in old(alive) && t in alive)
                && generation == old(generation) + 1 && stop == Some(generation) && generation !in stopped
      ensures forall t :: t in orphans <==> t in old(orphans) && t in old(alive)
    {
      hide Inv, Alive, Range;
      StartStep(View(), n);
      OldThreadsAreKnown(View());
      orphans := StillAlive(orphans);
      assert orphans != [] ==> orphans[0] in orphans;
      if |threads| > 0 || |orphans| > 0 {
        return true;
      }
      refused := false;
      if n <= 0 {
        return;
      }
      var gen := generation + 1;
      generation := gen;
      stop := Some(gen);
      threads := NewIds(|spawned|, n);
      alive := alive + Range(|spawned|, n);
      spawned := spawned + seq(n, _ => gen);
      size := n;
    }

    /** Sets the generation's stop event, joins, releases every lease, and tracks whoever outlived the join. */
    method Stop(ending: set<ThreadId>, releaseRaises: bool) returns (raised: bool)
      requires Inv(View())
      modifies this
      ensures View() == Apply(old(View()), Op.Stop(ending, releaseRaises)) && Inv(View())
      ensures raised <==> old(stop).Some? && releaseRaises
      ensures old(stop).None? ==> View() == old(View())
      ensures old(stop).Some? ==> old(stop).value in stopped && alive == old(alive) - ending
      ensures old(stop).Some? && !raised ==>
                && threads == [] && stop == None && releases == old(releases) + [old(stop).value]
                && forall t :: t in orphans <==> t in old(orphans) || (t in old(threads) && t in alive)
      ensures raised ==> threads == old(threads) && stop == old(stop) && orphans == old(orphans) && releases == old(releases)
    {
      hide Inv, Alive;
      StopStep(View(), ending, releaseRaises);
      if stop.None? {
        return false;
      }
      stopped := stopped + {stop.value};
      alive := alive - ending;
      if releaseRaises {
        return true;
      }
      releases := releases + [stop.value];
      var stillAlive := StillAlive(threads);
      orphans := orphans + stillAlive;
      threads := [];
      stop := None;
      raised := false;
    }

    /** The boot-time budget: refuses before starting anything when the workers would leave too few connections. */
    method Boot(n: int) returns (refused: bool)
      requires Inv(View())
      modifies this
      ensures View() == Apply(old(View()), Op.Lifespan(n)) && Inv(View())
      ensures n + POOL_BUDGET_RESERVE > POOL_MAX_SIZE ==> refused && View() == old(View())
    {
      if n + POOL_BUDGET_RESERVE > POOL_MAX_SIZE {
        return true;
      }
      refused := Start(n);
    }
  }
}
