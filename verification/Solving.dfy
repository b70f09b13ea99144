/** The mono-directional solve and how paths are selected (solve_mono, collect_sink_candidates, select_and_realize). */
module Solving {
  import opened Types
  import opened Resources
  import opened Problems
  import opened Grids
  import opened BucketOrder
  import opened Sorting
  import opened ParallelSorting
  import opened LabelStores
  import opened LabelingSpec
  import opened LabelingSteps
  import opened CBests
  import opened Clearances
  import opened Exactness
  import opened Threads
  import opened Paths
  import opened Labeling
  import opened LabelCounts
  import opened Caps

  /** A path that can be rebuilt from stored labels; a sink path has no backward part. */
  datatype Candidate = Candidate(reducedCost: real, originalCost: real, fw: nat, join: Option<Joint>)

  datatype Joint = Joint(arc: nat, bw: nat)

  /** A stored sink label below the bound. */
  ghost predicate SinkCandidate<S>(C: Setup<S>, s: Store<S>, k: nat) {
    Alive(s, k) && s.pool[k].node.vertex == C.P.top.sink && s.pool[k].node.cost < C.theta
  }

  /** collect_sink_candidates: exactly the undominated sink labels of cost below theta. */
  method CollectSink<S(!new)>(C: Setup<S>, pool: seq<Label<S>>, dominated: seq<bool>, rows: seq<Row>, ghost s: Store<S>)
    returns (found: seq<Candidate>)
    requires SetupOk(C) && StoreOk(C, s) && pool == s.pool && dominated == s.dominated && rows == s.rows
    ensures forall c :: c in found ==> SinkCandidate(C, s, c.fw) && c == SinkOf(s.pool, c.fw)
    ensures forall k: nat :: SinkCandidate(C, s, k) ==> SinkOf(s.pool, k) in found
    ensures Distinct(found)
  {
    hide TopoOrder, Grouped, Disposable, RowOk, LabelOk;
    var v := C.P.top.sink;
    assert RangeOk(C.P, C.G, C.P.nVertices, v);
    found := [];
    for b := C.G.start[v] to RangeEnd(C.G, v)
      invariant forall c :: c in found ==> SinkCandidate(C, s, c.fw) && c == SinkOf(s.pool, c.fw)
      invariant forall k: nat ::
                SinkCandidate(C, s, k) && C.G.start[v] <= s.pool[k].bucket < b ==> SinkOf(s.pool, k) in found
      invariant Distinct(found) && forall c :: c in found ==> c.fw < |s.pool| && s.pool[c.fw].bucket < b
    {
      var more := CollectRow(C, pool, dominated, rows, b, s);
      DistinctConcat(found, more);
      found := found + more;
    }
    forall k: nat | SinkCandidate(C, s, k) ensures SinkOf(s.pool, k) in found {
      StoreFacts(C, s, k);
      SinkBucket(C, s, k);
    }
  }

  lemma SinkBucket<S(!new)>(C: Setup<S>, s: Store<S>, k: nat)
    requires SetupOk(C) && StoreOk(C, s) && k < |s.pool|
    ensures var v := s.pool[k].node.vertex; v < C.P.nVertices && C.G.start[v] <= s.pool[k].bucket < RangeEnd(C.G, v)
  {
    assert LabelOk(C, s.pool, k);
    BucketFacts(C.P, C.G, s.pool[k].bucket);
  }

  function SinkOf<S>(pool: seq<Label<S>>, k: nat): Candidate {
    if k < |pool| then Candidate(pool[k].node.cost, pool[k].node.realCost, k, None) else Candidate(0.0, 0.0, k, None)
  }

  /** The labels of one sink bucket. */
  method CollectRow<S(!new)>(C: Setup<S>, pool: seq<Label<S>>, dominated: seq<bool>, rows: seq<Row>, b: nat,
                             ghost s: Store<S>)
    returns (found: seq<Candidate>)
    requires SetupOk(C) && StoreOk(C, s) && pool == s.pool && dominated == s.dominated && rows == s.rows
    requires C.G.start[C.P.top.sink] <= b < RangeEnd(C.G, C.P.top.sink)
    ensures forall c :: c in found ==> SinkCandidate(C, s, c.fw) && c == SinkOf(s.pool, c.fw)
    ensures forall k: nat :: SinkCandidate(C, s, k) && s.pool[k].bucket == b ==> SinkOf(s.pool, k) in found
    ensures Distinct(found) && forall c :: c in found ==> c.fw < |s.pool| && s.pool[c.fw].bucket == b
  {
    hide TopoOrder, Grouped, Disposable, RowOk, Origin;
    assert RangeOk(C.P, C.G, C.P.nVertices, C.P.top.sink);
    assert RowIn(C, s, b);
    found := [];
    var ids := rows[b].ids;
    for i := 0 to |ids|
      invariant forall c :: c in found ==> SinkCandidate(C, s, c.fw) && c == SinkOf(s.pool, c.fw)
      invariant forall k: nat :: SinkCandidate(C, s, k) && k in ids[..i] ==> SinkOf(s.pool, k) in found
      invariant Distinct(found) && forall c :: c in found ==> c.fw in ids[..i]
    {
      var k := ids[i];
      assert k in ids && ids[..i + 1] == ids[..i] + [k];
      assert LabelOk(C, s.pool, k);
      if dominated[k] { continue; }
      if pool[k].node.cost < C.theta {
        assert SinkCandidate(C, s, k);
        NotYet(C, s, b, i);
        found := found + [SinkOf(pool, k)];
      }
    }
    assert ids[..|ids|] == ids;
  }

  lemma NotYet<S(!new)>(C: Setup<S>, s: Store<S>, b: nat, i: nat)
    requires SetupOk(C) && StoreOk(C, s) && b < |s.rows| && i < |s.rows[b].ids|
    ensures s.rows[b].ids[i] !in s.rows[b].ids[..i]
  {
    hide SetupOk, LabelOk, Entry;
    assert RowIn(C, s, b);
  }

  // ----- Selection -----

  /** How many of n are wanted: all, or maxPaths of them when that is positive and less. */
  function Wanted(n: nat, maxPaths: nat): nat { if maxPaths > 0 && n > maxPaths then maxPaths else n }

  /** best holds as many of all as are wanted, different ones, the cheapest, cheapest first. */
  ghost predicate CheapestOf<T(!new)>(key: T -> real, all: seq<T>, maxPaths: nat, best: seq<T>) {
    && |best| == Wanted(|all|, maxPaths) && SortedBy(key, best) && Distinct(best)
    && (forall c :: c in best ==> c in all)
    && (forall c, d :: c in all && c !in best && d in best ==> key(d) <= key(c))
  }

  function CostOf(): Candidate -> real { (c: Candidate) => c.reducedCost }

  /** std::partial_sort when only some are wanted, parallel_sort otherwise. */
  method SortCandidates(candidates: seq<Candidate>, maxPaths: nat) returns (sorted: seq<Candidate>)
    ensures multiset(sorted) == multiset(candidates) && |sorted| == |candidates| && SortedBy(CostOf(), sorted)
  {
    if maxPaths > 0 && |candidates| > maxPaths {
      sorted := SortBy(CostOf(), candidates);
    } else {
      var list := new Candidate[|candidates|](i requires 0 <= i < |candidates| => candidates[i]);
      assert list[..] == candidates;
      ParallelSort(CostOf(), list);
      sorted := list[..];
    }
  }

  /** The cheapest candidates first; maxPaths of them when that is positive, else all. */
  method Select(candidates: seq<Candidate>, maxPaths: nat) returns (best: seq<Candidate>)
    ensures SortedBy(CostOf(), best)
    ensures forall c :: c in best ==> c in candidates
    ensures candidates != [] ==> best != [] && forall c :: c in candidates ==> best[0].reducedCost <= c.reducedCost
    ensures maxPaths == 0 || |candidates| <= maxPaths ==> multiset(best) == multiset(candidates)
    ensures maxPaths > 0 ==> |best| <= maxPaths
    ensures forall c :: c in candidates && c !in best ==> forall d :: d in best ==> d.reducedCost <= c.reducedCost
    ensures |best| == Wanted(|candidates|, maxPaths)
    ensures Distinct(candidates) ==> CheapestOf(CostOf(), candidates, maxPaths, best)
  {
    var sorted := SortCandidates(candidates, maxPaths);
    var limit := if maxPaths > 0 && |candidates| > maxPaths then maxPaths else |candidates|;
    best := sorted[..limit];
    assert limit == |sorted| ==> best == sorted;
    FirstOf(candidates, sorted, limit);
    if Distinct(candidates) { CutIsCheapest(candidates, sorted, maxPaths, limit); }
  }

  lemma FirstOf(candidates: seq<Candidate>, sorted: seq<Candidate>, limit: nat)
    requires multiset(sorted) == multiset(candidates) && |sorted| == |candidates| && SortedBy(CostOf(), sorted)
    requires limit <= |sorted| && (sorted != [] ==> limit > 0)
    ensures var best := sorted[..limit];
            && SortedBy(CostOf(), best) && (forall c :: c in best ==> c in candidates)
            && (candidates != [] ==>
                  best != [] && forall c :: c in candidates ==> best[0].reducedCost <= c.reducedCost)
            && (forall c, d :: c in candidates && c !in best && d in best ==> d.reducedCost <= c.reducedCost)
  {
    PermutationFacts(sorted, candidates);
    var best := sorted[..limit];
    assert forall i: nat :: i < |best| ==> best[i] in sorted;
    forall c | c in candidates ensures best != [] && best[0].reducedCost <= c.reducedCost {
      var i :| 0 <= i < |sorted| && sorted[i] == c;
      assert CostOf()(sorted[0]) <= CostOf()(sorted[i]);
    }
    forall c, d | c in candidates && c !in best && d in best ensures d.reducedCost <= c.reducedCost {
      LeftBehind(sorted, limit, c, d);
    }
  }

  lemma CutIsCheapest(candidates: seq<Candidate>, sorted: seq<Candidate>, maxPaths: nat, limit: nat)
    requires multiset(sorted) == multiset(candidates) && |sorted| == |candidates| && SortedBy(CostOf(), sorted)
    requires Distinct(candidates) && limit == Wanted(|candidates|, maxPaths)
    ensures CheapestOf(CostOf(), candidates, maxPaths, sorted[..limit])
  {
    FirstOf(candidates, sorted, limit);
    PermutationFacts(sorted, candidates);
  }

  lemma LeftBehind(sorted: seq<Candidate>, limit: nat, c: Candidate, d: Candidate)
    requires SortedBy(CostOf(), sorted) && limit <= |sorted| && c in sorted && c !in sorted[..limit]
             && d in sorted[..limit]
    ensures d.reducedCost <= c.reducedCost
  {
    var i :| 0 <= i < |sorted| && sorted[i] == c;
    var j :| 0 <= j < limit && sorted[..limit][j] == d;
    assert forall h: nat :: h < limit ==> sorted[..limit][h] == sorted[h] && sorted[h] in sorted[..limit];
    assert CostOf()(sorted[j]) <= CostOf()(sorted[i]);
  }

  /** p is a connected feasible walk from the source to the sink and carries its costs. */
  ghost predicate Realises<S(!new)>(P: Problem<S>, p: Path) {
    && Connects(P.top, Forward, p.vertices, p.arcs)
    && p.vertices[0] == P.top.source && p.vertices[|p.arcs|] == P.top.sink
    && exists z :: FeasibleWalk(P, p.arcs, z) && z.cost == p.reducedCost && z.realCost == p.originalCost
  }

  /** p follows the bucket graph to the sink. */
  ghost predicate Follows<S(!new)>(C: Setup<S>, p: Path)
    requires SetupOk(C)
  {
    exists z :: SinkThread(C, p.arcs, z) && z.cost == p.reducedCost
  }

  /** The sink candidates of a store, each once. */
  ghost predicate SinksOf<S(!new)>(C: Setup<S>, s: Store<S>, sinks: seq<Candidate>) {
    && Distinct(sinks)
    && (forall c :: c in sinks ==> SinkCandidate(C, s, c.fw) && c == SinkOf(s.pool, c.fw))
    && (forall k: nat :: SinkCandidate(C, s, k) ==> SinkOf(s.pool, k) in sinks)
  }

  /** The paths are, one for one, what these sink labels stand for. */
  ghost predicate StandFor<S>(pool: seq<Label<S>>, best: seq<Candidate>, paths: seq<Path>) {
    && |paths| == |best|
    && (forall i: nat :: i < |paths| ==>
        paths[i].arcs == Trace(pool, best[i].fw) && paths[i].reducedCost == best[i].reducedCost)
  }

  /** The paths are the cheapest undominated sink labels below theta, as many of them as are wanted. */
  ghost predicate Answers<S(!new)>(C: Setup<S>, s: Store<S>, maxPaths: nat, paths: seq<Path>) {
    exists sinks, best ::
      SinksOf(C, s, sinks) && CheapestOf(CostOf(), sinks, maxPaths, best) && StandFor(s.pool, best, paths)
  }

  /** realize_path for a sink label. */
  method RealiseSink<S(!new)>(C: Setup<S>, pool: seq<Label<S>>, c: Candidate, ghost s: Store<S>) returns (p: Path)
    requires SetupOk(C) && StoreOk(C, s) && pool == s.pool && C.dir.Forward?
    requires SinkCandidate(C, s, c.fw) && c == SinkOf(s.pool, c.fw)
    ensures Realises(C.P, p) && p.reducedCost == c.reducedCost && p.arcs == Trace(s.pool, c.fw)
    ensures Follows(C, p)
  {
    hide TopoOrder, Grouped, Disposable, StoreOk, Run, InitialNode, Threaded, Lands;
    StoreChains(C, s);
    var vertices, arcs := GetPath(pool, c.fw);
    p := Path(vertices, arcs, c.reducedCost, c.originalCost);
    ChainConnects(C, s, c.fw);
    ghost var n0 := Sound(C, s, c.fw);
    assert FeasibleWalk(C.P, arcs, n0);
    StoredThreaded(C, s, c.fw);
    assert SinkThread(C, arcs, s.pool[c.fw].node);
  }

  /** No feasible walk that matters is cheaper than the first path. */
  ghost predicate Optimal<S(!new)>(P: Problem<S>, paths: seq<Path>, theta: real, bound: real) {
    forall arcs, z :: FeasibleWalk(P, arcs, z) && z.cost < theta && z.cost <= bound ==>
      |paths| > 0 && paths[0].reducedCost <= z.cost
  }

  /**
   * solve_mono in the Exact stage. Paths come out cheapest first and are what they claim to be. If no
   * component hit its cap and nothing a path of cost at most bound needs has been removed, the first
   * one is optimal among those walks. No cap is hit unless there are many feasible partial paths or jump arcs.
   */
  method SolveMono<S(!new)>(C: Setup<S>, maxPaths: nat, ghost bound: real)
    returns (paths: seq<Path>, run: LabelingRun<S>, capped: bool)
    requires SetupOk(C) && Unlimited(C)
    ensures fresh(run) && run.C == C && run.Valid()
    ensures forall i: nat :: i < |paths| ==> Realises(C.P, paths[i]) && paths[i].reducedCost < C.theta
    ensures forall i: nat :: i < |paths| ==> Follows(C, paths[i])
    ensures Optimal(C.P, paths, C.theta, bound) ==> Reaches(C, bound)
    ensures !capped && Sweeping(C) && ReachesFreely(C, bound) ==> Optimal(C.P, paths, C.theta, bound)
    ensures forall i: nat, j: nat :: i < j < |paths| ==> paths[i].reducedCost <= paths[j].reducedCost
    ensures !capped && Preserves(C, bound) ==> Optimal(C.P, paths, C.theta, bound)
    ensures Answers(C, run.State(), maxPaths, paths)
    ensures Plain(C) ==> forall i: nat, j: nat :: i < j < |paths| ==> paths[i].arcs != paths[j].arcs
    ensures InitialNode(C.P, C.dir).Some? ==> BoundsOk(C, run.pool, run.rows, run.cBest, run.vertexMin, 0)
    ensures InitialNode(C.P, C.dir).Some? && !capped ==> Finished(C, run.State()) && Tight(C, run.State())
    ensures capped ==> |run.pool| >= SCC_CAP
    ensures Plain(C) && FewPartial(C.P, Forward, SCC_CAP) ==> !capped
  {
    hide Answers, CheapestOf, SinksOf, StandFor, StoreOk, SetupOk, Finished, BoundsOk, Preserves, InitialNode, Run,
         Dominates, Optimal, FewPartial, Plain, BornOnce, Follows, Sweeping, Reaches, ReachesFreely, Realises,
         SinkCandidate, Tight;
    run := new LabelingRun(C);
    var started;
    started, capped := run.Solve();
    if started && Plain(C) && FewPartial(C.P, Forward, SCC_CAP) { FewLabels(C, run.State(), SCC_CAP); }
    paths := [];
    if !started {
      NothingFeasible(C, [], bound);
      NoAnswers(C, run.State(), maxPaths);
      return;
    }
    paths := PathsToSink(C, run.pool, run.dominated, run.rows, maxPaths, run.State(), bound, capped);
  }

  /** collect_sink_candidates, selection and realisation after the run. */
  method PathsToSink<S(!new)>(C: Setup<S>, pool: seq<Label<S>>, dominated: seq<bool>, rows: seq<Row>, maxPaths: nat,
                              ghost s: Store<S>, ghost bound: real, ghost capped: bool)
    returns (paths: seq<Path>)
    requires SetupOk(C) && Unlimited(C) && StoreOk(C, s) && (!capped ==> Finished(C, s)) && BornOnce(C, s)
    requires pool == s.pool && dominated == s.dominated && rows == s.rows
    ensures forall i: nat :: i < |paths| ==> Realises(C.P, paths[i]) && paths[i].reducedCost < C.theta
    ensures forall i: nat :: i < |paths| ==> Follows(C, paths[i])
    ensures Optimal(C.P, paths, C.theta, bound) ==> Reaches(C, bound)
    ensures !capped && Sweeping(C) && ReachesFreely(C, bound) ==> Optimal(C.P, paths, C.theta, bound)
    ensures forall i: nat, j: nat :: i < j < |paths| ==> paths[i].reducedCost <= paths[j].reducedCost
    ensures !capped && Preserves(C, bound) ==> Optimal(C.P, paths, C.theta, bound)
    ensures Answers(C, s, maxPaths, paths)
    ensures Plain(C) ==> forall i: nat, j: nat :: i < j < |paths| ==> paths[i].arcs != paths[j].arcs
  {
    hide Answers, CheapestOf, SinksOf, StandFor, StoreOk, SetupOk, Finished, Preserves, Optimal, Plain, BornOnce,
         Follows, Sweeping, Reaches, ReachesFreely, Realises, SinkCandidate;
    var candidates := CollectSink(C, pool, dominated, rows, s);
    var best := Select(candidates, maxPaths);
    SinksAre(C, s, candidates);
    paths := RealiseAll(C, pool, best, s);
    AnswersBy(C, s, maxPaths, candidates, best, paths);
    if Plain(C) { BestDiffer(candidates, maxPaths, best); PathsDiffer(C, s, best, paths); }
    if !capped && Preserves(C, bound) { FirstIsOptimal(C, bound, s, candidates, best, paths); }
    if Optimal(C.P, paths, C.theta, bound) { OptimalReaches(C, bound, paths); }
    if !capped && Sweeping(C) && ReachesFreely(C, bound) { ReachedIsOptimal(C, bound, s, candidates, best, paths); }
  }

  lemma BestDiffer(all: seq<Candidate>, maxPaths: nat, best: seq<Candidate>)
    requires CheapestOf(CostOf(), all, maxPaths, best)
    ensures Distinct(best)
  {
  }

  lemma NoAnswers<S(!new)>(C: Setup<S>, s: Store<S>, maxPaths: nat)
    requires s.pool == []
    ensures Answers(C, s, maxPaths, [])
  {
    assert SinksOf(C, s, []) && CheapestOf(CostOf(), [], maxPaths, []) && StandFor(s.pool, [], []);
  }

  lemma SinksAre<S(!new)>(C: Setup<S>, s: Store<S>, sinks: seq<Candidate>)
    requires Distinct(sinks) && forall c :: c in sinks ==> SinkCandidate(C, s, c.fw) && c == SinkOf(s.pool, c.fw)
    requires forall k: nat :: SinkCandidate(C, s, k) ==> SinkOf(s.pool, k) in sinks
    ensures SinksOf(C, s, sinks)
  {
  }

  lemma AnswersBy<S(!new)>(C: Setup<S>, s: Store<S>, maxPaths: nat, sinks: seq<Candidate>, best: seq<Candidate>,
                           paths: seq<Path>)
    requires SinksOf(C, s, sinks) && CheapestOf(CostOf(), sinks, maxPaths, best) && StandFor(s.pool, best, paths)
    ensures Answers(C, s, maxPaths, paths)
  {
  }

  /** Without jump arcs different labels stand for different arcs. */
  lemma PathsDiffer<S(!new)>(C: Setup<S>, s: Store<S>, best: seq<Candidate>, paths: seq<Path>)
    requires BornOnce(C, s) && Plain(C) && Distinct(best) && StandFor(s.pool, best, paths)
    requires forall c :: c in best ==> SinkCandidate(C, s, c.fw) && c == SinkOf(s.pool, c.fw)
    ensures forall i: nat, j: nat :: i < j < |paths| ==> paths[i].arcs != paths[j].arcs
  {
    hide BornOnce, Plain, Trace;
    forall i: nat, j: nat | i < j < |paths| ensures paths[i].arcs != paths[j].arcs {
      assert best[i] in best && best[j] in best;
      if Trace(s.pool, best[i].fw) == Trace(s.pool, best[j].fw) { TracesDiffer(C, s, best[i].fw, best[j].fw); }
    }
  }

  method RealiseAll<S(!new)>(C: Setup<S>, pool: seq<Label<S>>, best: seq<Candidate>, ghost s: Store<S>)
    returns (paths: seq<Path>)
    requires SetupOk(C) && StoreOk(C, s) && pool == s.pool && C.dir.Forward?
    requires forall c :: c in best ==> SinkCandidate(C, s, c.fw) && c == SinkOf(s.pool, c.fw)
    requires SortedBy(CostOf(), best)
    ensures |paths| == |best| && StandFor(s.pool, best, paths)
    ensures forall i: nat ::
            i < |paths| ==>
              Realises(C.P, paths[i]) && Follows(C, paths[i]) && paths[i].reducedCost == best[i].reducedCost < C.theta
    ensures forall i: nat, j: nat :: i < j < |paths| ==> paths[i].reducedCost <= paths[j].reducedCost
  {
    hide StoreOk, SetupOk, Realises, Follows;
    paths := [];
    for i := 0 to |best|
      invariant |paths| == i
      invariant forall j: nat ::
                j < i ==>
                  Realises(C.P, paths[j]) && Follows(C, paths[j])
                  && paths[j].reducedCost == best[j].reducedCost < C.theta && paths[j].arcs == Trace(pool, best[j].fw)
    {
      assert best[i] in best;
      var p := RealiseSink(C, pool, best[i], s);
      paths := paths + [p];
    }
    forall i: nat, j: nat | i < j < |paths| ensures paths[i].reducedCost <= paths[j].reducedCost {
      assert CostOf()(best[i]) <= CostOf()(best[j]);
    }
  }

  lemma NothingFeasible<S(!new)>(C: Setup<S>, paths: seq<Path>, bound: real)
    requires SetupOk(C) && C.dir.Forward? && InitialNode(C.P, C.dir).None?
    ensures Optimal(C.P, paths, C.theta, bound) && Reaches(C, bound)
  {
  }

  lemma FirstIsOptimal<S(!new)>(C: Setup<S>, bound: real, s: Store<S>, candidates: seq<Candidate>,
                                best: seq<Candidate>, paths: seq<Path>)
    requires SetupOk(C) && Unlimited(C) && Finished(C, s) && Preserves(C, bound)
    requires forall k: nat :: SinkCandidate(C, s, k) ==> SinkOf(s.pool, k) in candidates
    requires candidates != [] ==> best != [] && forall c :: c in candidates ==> best[0].reducedCost <= c.reducedCost
    requires |paths| == |best| && forall i: nat :: i < |paths| ==> paths[i].reducedCost == best[i].reducedCost
    ensures Optimal(C.P, paths, C.theta, bound)
  {
    hide SetupOk, Finished, Preserves, FeasibleWalk;
    forall arcs, z | FeasibleWalk(C.P, arcs, z) && z.cost < C.theta && z.cost <= bound
      ensures |paths| > 0 && paths[0].reducedCost <= z.cost
    {
      var k := BestLabel(C, bound, s, arcs, z);
      assert SinkOf(s.pool, k) in candidates;
    }
  }

  /** If the first path is optimal, the bucket graph allows a way to the sink as cheap as each feasible walk. */
  lemma OptimalReaches<S(!new)>(C: Setup<S>, bound: real, paths: seq<Path>)
    requires SetupOk(C) && (forall i: nat :: i < |paths| ==> Follows(C, paths[i]))
             && Optimal(C.P, paths, C.theta, bound)
    ensures Reaches(C, bound)
  {
    hide TopoOrder, Grouped, Disposable, GridUpTo, FeasibleWalk, SinkThread;
    forall arcs, z | FeasibleWalk(C.P, arcs, z) && z.cost < C.theta && z.cost <= bound ensures WayWithin(C, z) {
      assert Follows(C, paths[0]);
      var y :| SinkThread(C, paths[0].arcs, y) && y.cost == paths[0].reducedCost;
    }
  }

  /** If it allows one that does not land behind fixed buckets, the first path of a finished run is optimal. */
  lemma ReachedIsOptimal<S(!new)>(C: Setup<S>, bound: real, s: Store<S>, candidates: seq<Candidate>,
                                  best: seq<Candidate>, paths: seq<Path>)
    requires SetupOk(C) && Unlimited(C) && Finished(C, s) && Sweeping(C) && ReachesFreely(C, bound)
    requires forall k: nat :: SinkCandidate(C, s, k) ==> SinkOf(s.pool, k) in candidates
    requires candidates != [] ==> best != [] && forall c :: c in candidates ==> best[0].reducedCost <= c.reducedCost
    requires |paths| == |best| && forall i: nat :: i < |paths| ==> paths[i].reducedCost == best[i].reducedCost
    ensures Optimal(C.P, paths, C.theta, bound)
  {
    hide TopoOrder, Grouped, Disposable, GridUpTo, Finished, Sweeping, FeasibleWalk, FreeThread;
    forall arcs, z | FeasibleWalk(C.P, arcs, z) && z.cost < C.theta && z.cost <= bound
      ensures |paths| > 0 && paths[0].reducedCost <= z.cost
    {
      assert FreeWithin(C, z);
      var t, y :| FreeThread(C, t, y) && y.vertex == C.P.top.sink && y.cost <= z.cost;
      var k := SinkCovered(C, s, t, y);
      assert SinkOf(s.pool, k) in candidates;
    }
  }

  /** So with nothing open behind a fixed bucket this decides it. */
  lemma OptimalIffReaches<S(!new)>(C: Setup<S>, bound: real, paths: seq<Path>)
    requires SetupOk(C) && FixedClosed(C) && (Optimal(C.P, paths, C.theta, bound) ==> Reaches(C, bound))
    requires ReachesFreely(C, bound) ==> Optimal(C.P, paths, C.theta, bound)
    ensures Optimal(C.P, paths, C.theta, bound) <==> Reaches(C, bound)
  {
    hide SetupOk, FixedClosed, Optimal, Reaches, ReachesFreely;
    if Reaches(C, bound) { ReachesClosed(C, bound); }
  }

  lemma BestLabel<S(!new)>(C: Setup<S>, bound: real, s: Store<S>, arcs: seq<nat>, z: Node<S>) returns (k: nat)
    requires SetupOk(C) && Unlimited(C) && Finished(C, s) && Preserves(C, bound)
    requires FeasibleWalk(C.P, arcs, z) && z.cost < C.theta && z.cost <= bound
    ensures SinkCandidate(C, s, k) && s.pool[k].node.cost <= z.cost
  {
    hide TopoOrder, Grouped, Finished, Preserves, Dominates, FeasibleWalk;
    MonoCovers(C, bound, s, arcs, z);
    k :| Alive(s, k) && Dominates(C.P, C.dir, s.pool[k].node, z);
    DominatesIff(C.P, C.dir, s.pool[k].node, z);
    FeasibleEnds(C.P, arcs, z);
  }

  lemma FeasibleEnds<S>(P: Problem<S>, arcs: seq<nat>, z: Node<S>)
    requires FeasibleWalk(P, arcs, z)
    ensures z.vertex == P.top.sink
  {
  }
}
