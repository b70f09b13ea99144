/** Strongly connected components by Tarjan's algorithm (compute_sccs). */
module Sccs {
  type Graph = seq<seq<nat>>

  ghost predicate IsGraph(adj: Graph) {
    forall u: nat, i: nat :: u < |adj| && i < |adj[u]| ==> adj[u][i] < |adj|
  }

  // ----- Reachability -----

  /** p lists the vertices visited after u on a walk that ends in w. */
  ghost predicate Walk(adj: Graph, u: nat, p: seq<nat>, w: nat)
    decreases |p|
  {
    u < |adj| && if p == [] then u == w else p[0] in adj[u] && Walk(adj, p[0], p[1..], w)
  }

  ghost predicate Reach(adj: Graph, u: nat, w: nat) {
    exists p :: Walk(adj, u, p, w)
  }

  lemma ReachSelf(adj: Graph, u: nat)
    requires u < |adj|
    ensures Reach(adj, u, u)
  {
    assert Walk(adj, u, [], u);
  }

  lemma ReachEdge(adj: Graph, u: nat, w: nat)
    requires u < |adj| && w < |adj| && w in adj[u]
    ensures Reach(adj, u, w)
  {
    assert Walk(adj, w, [], w);
    assert [w][1..] == [];
    assert Walk(adj, u, [w], w);
  }

  lemma {:induction false} WalkAppend(adj: Graph, u: nat, p: seq<nat>, v: nat, q: seq<nat>, w: nat)
    requires Walk(adj, u, p, v) && Walk(adj, v, q, w)
    ensures Walk(adj, u, p + q, w)
    decreases |p|
  {
    if p == [] {
      assert p + q == q;
    } else {
      WalkAppend(adj, p[0], p[1..], v, q, w);
      assert (p + q)[1..] == p[1..] + q;
    }
  }

  lemma ReachTrans(adj: Graph, u: nat, v: nat, w: nat)
    requires Reach(adj, u, v) && Reach(adj, v, w)
    ensures Reach(adj, u, w)
  {
    var p :| Walk(adj, u, p, v);
    var q :| Walk(adj, v, q, w);
    WalkAppend(adj, u, p, v, q, w);
  }

  /** Reachability cannot leave a set that is closed under the edges. */
  lemma {:induction false} ClosedUnderWalk(adj: Graph, closed: set<nat>, u: nat, p: seq<nat>, w: nat)
    requires forall x: nat, y: nat :: x in closed && x < |adj| && y in adj[x] ==> y in closed
    requires u in closed && Walk(adj, u, p, w)
    ensures w in closed
    decreases |p|
  {
    if p != [] {
      ClosedUnderWalk(adj, closed, p[0], p[1..], w);
    }
  }

  lemma ClosedUnderReach(adj: Graph, closed: set<nat>, u: nat, w: nat)
    requires forall x: nat, y: nat :: x in closed && x < |adj| && y in adj[x] ==> y in closed
    requires u in closed && Reach(adj, u, w)
    ensures w in closed
  {
    var p :| Walk(adj, u, p, w);
    ClosedUnderWalk(adj, closed, u, p, w);
  }

  // ----- The components -----

  /** Components are numbered in reverse topological order. */
  ghost predicate Components(adj: Graph, id: seq<int>, count: nat) {
    && |id| == |adj|
    && (forall u: nat :: u < |adj| ==> 0 <= id[u] < count)
    && (forall u: nat, w: nat :: u < |adj| && w < |adj| && w in adj[u] ==> id[w] <= id[u])
    && (forall u: nat, w: nat :: u < |adj| && w < |adj| ==>
          (id[u] == id[w] <==> Reach(adj, u, w) && Reach(adj, w, u)))
  }

  // ----- The search -----

  /** The search state; a vertex is unvisited (index -1), on the stack, or done (id >= 0). */
  datatype Search = Search(index: seq<int>, onStack: seq<bool>, stack: seq<nat>, id: seq<int>, next: nat, count: nat)

  ghost predicate Sized(adj: Graph, s: Search) {
    && |s.index| == |s.onStack| == |s.id| == |adj|
    && (forall v: nat :: v in s.stack ==> v < |adj|)
  }

  ghost predicate EnteredBefore(s: Search, i: nat, j: nat)
    requires i < |s.stack| && j < |s.stack|
  {
    s.stack[i] < |s.index| && s.stack[j] < |s.index| && s.index[s.stack[i]] < s.index[s.stack[j]]
  }

  ghost predicate Shape(adj: Graph, s: Search) {
    && Sized(adj, s)
    && (forall v: nat :: v < |adj| ==> -1 <= s.index[v] < s.next && -1 <= s.id[v] < s.count)
    && (forall v: nat :: v < |adj| ==> s.onStack[v] == (v in s.stack))
    && (forall i: nat, j: nat :: i < j < |s.stack| ==> EnteredBefore(s, i, j))
    && (forall v: nat :: v < |adj| ==> (s.index[v] >= 0 <==> v in s.stack || s.id[v] >= 0))
    && (forall v: nat :: v in s.stack && v < |adj| ==> s.id[v] < 0)
  }

  /** Finished vertices only lead to visited ones, and done ones to components already numbered. */
  ghost predicate Explored(adj: Graph, s: Search, grays: set<nat>)
    requires Sized(adj, s) && IsGraph(adj)
  {
    && (forall v: nat, w: nat ::
      v < |adj| && s.index[v] >= 0 && v !in grays && w in adj[v] ==> w < |adj| && s.index[w] >= 0)
    && (forall v: nat, w: nat :: v < |adj| && s.id[v] >= 0 && w in adj[v] ==> w < |adj| && 0 <= s.id[w] <= s.id[v])
  }

  /** grays are the vertices whose call is still active. */
  ghost predicate Linked(adj: Graph, s: Search, grays: set<nat>)
    requires Sized(adj, s)
  {
    && (forall g: nat :: g in grays ==> g in s.stack)
    && ActiveReach(adj, s, grays)
    && AllRooted(adj, s, grays)
  }

  ghost predicate ActiveReach(adj: Graph, s: Search, grays: set<nat>)
    requires Sized(adj, s)
  {
    forall g: nat, v: nat :: g in grays && g in s.stack && v in s.stack && s.index[g] <= s.index[v] ==> Reach(adj, g, v)
  }

  ghost predicate AllRooted(adj: Graph, s: Search, grays: set<nat>)
    requires Sized(adj, s)
  {
    forall v: nat {:trigger Rooted(adj, s, grays, v)} :: v in s.stack ==> Rooted(adj, s, grays, v)
  }

  /** v reaches an active vertex that was entered no later. */
  ghost predicate Rooted(adj: Graph, s: Search, grays: set<nat>, v: nat)
    requires Sized(adj, s) && v in s.stack
  {
    exists g: nat :: g in grays && g in s.stack && s.index[g] <= s.index[v] && Reach(adj, v, g)
  }

  ghost predicate DoneComponents(adj: Graph, s: Search)
    requires Sized(adj, s)
  {
    forall u: nat, w: nat :: u < |adj| && w < |adj| && s.id[u] >= 0 && s.id[w] >= 0 ==>
      (s.id[u] == s.id[w] <==> Reach(adj, u, w) && Reach(adj, w, u))
  }

  ghost predicate Inv(adj: Graph, s: Search, grays: set<nat>) {
    IsGraph(adj) && Shape(adj, s) && Explored(adj, s, grays) && Linked(adj, s, grays) && DoneComponents(adj, s)
  }

  /** What a call leaves alone, seen from the state it started in. */
  ghost predicate Extends(adj: Graph, s: Search, t: Search)
    requires Sized(adj, s) && Sized(adj, t)
  {
    && s.next <= t.next && s.count <= t.count
    && (forall u: nat :: u < |adj| && s.index[u] >= 0 ==> t.index[u] == s.index[u])
    && (forall u: nat :: u < |adj| && s.index[u] < 0 ==> t.index[u] < 0 || t.index[u] >= s.next)
    && (forall u: nat :: u < |adj| && s.id[u] >= 0 ==> t.id[u] == s.id[u])
    && |s.stack| <= |t.stack| && t.stack[..|s.stack|] == s.stack
  }

  /** Edges from what t has pushed since s to the stack of s do not pass below low. */
  ghost predicate LowBound(adj: Graph, s: Search, t: Search, low: int)
    requires Sized(adj, s) && Sized(adj, t)
  {
    forall v: nat, w: nat :: v in t.stack && v !in s.stack && w in adj[v] && w in s.stack ==> low <= s.index[w]
  }

  /** v's call has pushed v on the stack of s and may have pushed more since. */
  ghost predicate Active(adj: Graph, s: Search, t: Search, v: nat, low: int)
    requires Sized(adj, s) && Sized(adj, t)
  {
    && v < |adj| && s.index[v] < 0 && t.index[v] == s.next
    && Extends(adj, s, t)
    && |s.stack| < |t.stack| && t.stack[|s.stack|] == v
    && low <= s.next
    && (low < s.next ==> LowWitness(adj, s, v, low))
  }

  /** v reaches the vertex on the stack of s whose index is low. */
  ghost predicate LowWitness(adj: Graph, s: Search, v: nat, low: int)
    requires Sized(adj, s)
  {
    exists w: nat :: w in s.stack && s.index[w] == low && Reach(adj, v, w)
  }

  ghost function Unvisited(adj: Graph, s: Search): set<nat>
  {
    set u: nat | u < |adj| && u < |s.index| && s.index[u] < 0
  }

  /** Edges already accounted for: all those of other pushed vertices and the first n of v. */
  ghost predicate LowSoFar(adj: Graph, s: Search, t: Search, v: nat, n: nat, low: int)
    requires Sized(adj, s) && Sized(adj, t) && v < |adj| && n <= |adj[v]|
  {
    && (forall u: nat, w: nat ::
      u in t.stack && u !in s.stack && u != v && w in adj[u] && w in s.stack ==> low <= s.index[w])
    && (forall i: nat :: i < n ==>
        adj[v][i] < |adj| && t.index[adj[v][i]] >= 0 && (adj[v][i] in s.stack ==> low <= s.index[adj[v][i]]))
  }

  class Tarjan {
    const adj: Graph
    var index: seq<int>
    var lowlink: seq<int>
    var onStack: seq<bool>
    var stack: seq<nat>
    var id: seq<int>
    var next: nat
    var count: nat

    ghost function State(): Search
      reads this
    {
      Search(index, onStack, stack, id, next, count)
    }

    ghost predicate Valid(grays: set<nat>)
      reads this
    {
      Inv(adj, State(), grays) && |lowlink| == |adj|
    }

    constructor (adj: Graph)
      requires IsGraph(adj)
      ensures this.adj == adj && Valid({}) && stack == []
      ensures forall v: nat :: v < |adj| ==> index[v] < 0
    {
      this.adj := adj;
      index := seq(|adj|, i => -1);
      lowlink := seq(|adj|, i => -1);
      onStack := seq(|adj|, i => false);
      stack := [];
      id := seq(|adj|, i => -1);
      next := 0;
      count := 0;
    }

    /** The search started from every vertex in turn. */
    method Run()
      requires Valid({}) && stack == []
      modifies this
      ensures Components(adj, id, count)
    {
      for i := 0 to |adj|
        invariant Valid({}) && stack == []
        invariant forall u: nat :: u < i ==> index[u] >= 0
      {
        if index[i] == -1 {
          StrongConnect(i, {});
          EmptyStack(adj, State());
        }
      }
      AllDone(adj, State());
    }

    /** The call on v, entered in state s, has handled the first n edges of v. */
    ghost predicate Scanned(s: Search, lowlink0: seq<int>, v: nat, n: nat, grays: set<nat>)
      requires Sized(adj, s)
      reads this
    {
      && Valid(grays + {v}) && (forall g :: g in grays ==> g in s.stack)
      && v < |adj| && n <= |adj[v]|
      && Active(adj, s, State(), v, lowlink[v]) && LowSoFar(adj, s, State(), v, n, lowlink[v])
      && (forall u: nat :: u < |adj| && u < |lowlink0| && s.index[u] >= 0 ==> lowlink[u] == lowlink0[u])
    }

    /** The recursive procedure strongconnect. */
    method StrongConnect(v: nat, ghost grays: set<nat>)
      requires Valid(grays) && v < |adj| && index[v] == -1
      requires forall g :: g in grays ==> Reach(adj, g, v)
      modifies this
      ensures Valid(grays) && Extends(adj, old(State()), State())
      ensures index[v] == old(next) && lowlink[v] <= index[v]
      ensures LowBound(adj, old(State()), State(), lowlink[v])
      ensures lowlink[v] == index[v] ==> stack == old(stack)
      ensures lowlink[v] < index[v] ==> v in stack && LowWitness(adj, old(State()), v, lowlink[v])
      ensures forall u: nat :: u < |adj| && old(index[u]) >= 0 ==> lowlink[u] == old(lowlink[u])
      decreases Unvisited(adj, State()), 0, 0
    {
      hide Explored, Linked, DoneComponents, Active, LowSoFar, LowBound, LowWitness, Extends, Reach;
      ghost var s, lowlink0 := State(), lowlink;
      GraysOnStack(adj, s, grays);
      index := index[v := next];
      lowlink := lowlink[v := next];
      next := next + 1;
      stack := stack + [v];
      onStack := onStack[v := true];
      Pushed(adj, s, State(), v, grays);
      ghost var more := Unvisited(adj, State());
      assert v in Unvisited(adj, s) && v !in more;
      for i := 0 to |adj[v]|
        invariant Scanned(s, lowlink0, v, i, grays)
        invariant Unvisited(adj, State()) <= more
      {
        VisitSuccessor(v, i, s, lowlink0, grays);
      }
      CallFacts(adj, s, State(), v, lowlink[v]);
      Close(v, s, lowlink0, grays);
    }

    /** The body of the loop over the successors of v. */
    method VisitSuccessor(v: nat, i: nat, ghost s: Search, ghost lowlink0: seq<int>, ghost grays: set<nat>)
      requires Shape(adj, s) && Scanned(s, lowlink0, v, i, grays) && i < |adj[v]|
      modifies this
      ensures Scanned(s, lowlink0, v, i + 1, grays)
      ensures Unvisited(adj, State()) <= old(Unvisited(adj, State()))
      decreases Unvisited(adj, State()), 1
    {
      hide Explored, Linked, DoneComponents, Active, LowSoFar, LowBound;
      var w := adj[v][i];
      ghost var t, low := State(), lowlink[v];
      CallFacts(adj, s, t, v, low);
      if index[w] == -1 {
        ReachThrough(adj, s, t, grays, v, w, low);
        VisitNew(v, i, w, s, lowlink0, grays);
      } else if onStack[w] {
        lowlink := lowlink[v := if index[w] < lowlink[v] then index[w] else lowlink[v]];
        SeenOnStack(adj, s, t, v, w, i, low);
      } else {
        SeenDone(adj, s, t, v, w, i, low);
      }
    }

    method VisitNew(v: nat, i: nat, w: nat, ghost s: Search, ghost lowlink0: seq<int>, ghost grays: set<nat>)
      requires Shape(adj, s) && Scanned(s, lowlink0, v, i, grays) && i < |adj[v]| && w == adj[v][i]
      requires w < |adj| && index[w] == -1 && index[v] >= 0
      requires forall u: nat :: u < |adj| && s.index[u] >= 0 ==> index[u] >= 0
      requires forall g :: g in grays + {v} ==> Reach(adj, g, w)
      modifies this
      ensures Scanned(s, lowlink0, v, i + 1, grays)
      ensures Unvisited(adj, State()) <= old(Unvisited(adj, State()))
      decreases Unvisited(adj, State()), 0, 1
    {
      hide Explored, Linked, DoneComponents, Active, LowSoFar, LowBound, LowWitness, Extends, Reach, Unvisited;
      ghost var t, low := State(), lowlink[v];
      StrongConnect(w, grays + {v});
      UnvisitedShrinks(adj, t, State());
      lowlink := lowlink[v := if lowlink[w] < lowlink[v] then lowlink[w] else lowlink[v]];
      Returned(adj, s, t, State(), v, w, i, low, lowlink[w]);
    }

    /** The end of strongconnect: v is popped with its component if no edge leads below it. */
    method Close(v: nat, ghost s: Search, ghost lowlink0: seq<int>, ghost grays: set<nat>)
      requires Inv(adj, s, grays) && v < |adj| && Scanned(s, lowlink0, v, |adj[v]|, grays)
      modifies this`stack, this`onStack, this`id, this`count
      ensures Valid(grays) && Extends(adj, s, State()) && index[v] == s.next
      ensures LowBound(adj, s, State(), lowlink[v])
      ensures lowlink[v] == index[v] ==> stack == s.stack
      ensures lowlink[v] < index[v] ==> v in stack && LowWitness(adj, s, v, lowlink[v])
    {
      ghost var t := State();
      if lowlink[v] == index[v] {
        forall i: nat, j: nat | i < j < |stack| ensures stack[i] != stack[j] { assert EnteredBefore(t, i, j); }
        PopComponent(v, |s.stack|);
        forall u: nat ensures u in t.stack[|s.stack|..] <==> u in t.stack && u !in s.stack {
          PoppedStack(adj, s, t, u);
        }
        Popped(adj, s, t, State(), v, grays);
      } else {
        Finished(adj, s, t, v, lowlink[v], grays);
      }
    }

    /** The loop that pops one component off the stack. */
    method PopComponent(v: nat, ghost base: nat)
      requires |id| == |onStack| == |adj|
      requires forall u: nat :: u in stack ==> u < |adj|
      requires forall i: nat, j: nat :: i < j < |stack| ==> stack[i] != stack[j]
      requires forall u: nat :: u < |adj| ==> onStack[u] == (u in stack)
      requires base < |stack| && stack[base] == v
      modifies this`stack, this`onStack, this`id, this`count
      ensures stack == old(stack)[..base] && count == old(count) + 1
      ensures |id| == |adj| && |onStack| == |adj|
      ensures forall u: nat :: u < |adj| ==> id[u] == if u in old(stack)[base..] then old(count) else old(id[u])
      ensures forall u: nat :: u < |adj| ==> onStack[u] == (u in stack)
    {
      ghost var full, id0 := stack, id;
      var w := v;
      var done := false;
      assert full[..|full|] == full && full[|full|..] == [];
      while !done
        invariant base <= |stack| <= |full| && stack == full[..|stack|]
        invariant done <==> |stack| == base
        invariant count == old(count)
        invariant |id| == |adj| && |onStack| == |adj|
        invariant forall u: nat :: u < |adj| ==> id[u] == if u in full[|stack|..] then count else id0[u]
        invariant forall u: nat :: u < |adj| ==> onStack[u] == (u in stack)
        decreases |stack|
      {
        w := stack[|stack| - 1];
        assert w == full[|stack| - 1] && w in full;
        PopOne(full, |stack| - 1);
        stack := stack[..|stack| - 1];
        onStack := onStack[w := false];
        id := id[w := count];
        done := w == v;
      }
      count := count + 1;
    }
  }

  lemma PopOne(full: seq<nat>, k: nat)
    requires k < |full|
    requires forall i: nat, j: nat :: i < j < |full| ==> full[i] != full[j]
    ensures full[..k + 1] == full[..k] + [full[k]] && full[..k + 1][..k] == full[..k]
    ensures full[k] !in full[..k]
    ensures full[k..] == [full[k]] + full[k + 1..]
  {
  }

  // ----- Lemmas -----

  /** With no active call the stack is empty. */
  lemma EmptyStack(adj: Graph, s: Search)
    requires Inv(adj, s, {})
    ensures s.stack == []
  {
    assert s.stack != [] ==> s.stack[0] in s.stack && Rooted(adj, s, {}, s.stack[0]);
  }

  lemma AllDone(adj: Graph, s: Search)
    requires Inv(adj, s, {}) && s.stack == []
    requires forall u: nat :: u < |adj| ==> s.index[u] >= 0
    ensures Components(adj, s.id, s.count)
  {
    assert forall u: nat :: u < |adj| ==> s.id[u] >= 0;
  }

  lemma PushedShape(adj: Graph, s: Search, t: Search, v: nat)
    requires Shape(adj, s) && v < |adj| && s.index[v] == -1
    requires t == s.(index := s.index[v := s.next], next := s.next + 1, stack := s.stack + [v],
               onStack := s.onStack[v := true])
    ensures Shape(adj, t) && Extends(adj, s, t)
  {
    assert s.id[v] < 0 && v !in s.stack;
    assert t.stack == s.stack + [v] && t.index == s.index[v := s.next];
    assert forall u: nat :: u in t.stack <==> u in s.stack || u == v;
    forall i: nat, j: nat | i < j < |t.stack|
      ensures EnteredBefore(t, i, j)
    {
      assert t.stack[i] == s.stack[i] && s.stack[i] in s.stack;
      if j < |s.stack| { assert EnteredBefore(s, i, j) && t.stack[j] == s.stack[j] && s.stack[j] in s.stack; }
    }
  }

  lemma PushedExplored(adj: Graph, s: Search, t: Search, v: nat, grays: set<nat>)
    requires IsGraph(adj) && Shape(adj, s) && Sized(adj, t) && Explored(adj, s, grays) && v < |adj|
    requires t.index == s.index[v := s.next] && t.id == s.id
    ensures Explored(adj, t, grays + {v})
  {
    var active := grays + {v};
    forall u: nat, w: nat | u < |adj| && t.index[u] >= 0 && u !in active && w in adj[u]
      ensures w < |adj| && t.index[w] >= 0
    {
      assert u !in grays && s.index[u] >= 0;
    }
  }

  lemma PushedLinks(adj: Graph, s: Search, t: Search, v: nat, grays: set<nat>)
    requires Sized(adj, s) && Sized(adj, t) && Linked(adj, s, grays) && v < |adj| && v !in s.stack
    requires forall u: nat :: u in s.stack ==> s.index[u] < s.next
    requires forall g :: g in grays ==> Reach(adj, g, v)
    requires t.index == s.index[v := s.next] && t.stack == s.stack + [v]
    ensures Linked(adj, t, grays + {v})
  {
    ReachSelf(adj, v);
    var active := grays + {v};
    assert forall g: nat :: g in active ==> g in t.stack;
    forall g: nat, u: nat | g in active && u in t.stack && t.index[g] <= t.index[u] ensures Reach(adj, g, u) {
      if g == v { assert u == v; } else if u != v { assert u in s.stack; }
    }
    forall u: nat | u in t.stack ensures Rooted(adj, t, active, u) {
      if u != v {
        assert Rooted(adj, s, grays, u);
        var g: nat :| g in grays && g in s.stack && s.index[g] <= s.index[u] && Reach(adj, u, g);
        assert g in grays + {v} && g in t.stack;
      } else {
        assert v in grays + {v} && v in t.stack;
      }
    }
  }

  lemma Pushed(adj: Graph, s: Search, t: Search, v: nat, grays: set<nat>)
    requires Inv(adj, s, grays) && v < |adj| && s.index[v] == -1
    requires forall g :: g in grays ==> Reach(adj, g, v)
    requires t == s.(index := s.index[v := s.next], next := s.next + 1, stack := s.stack + [v],
               onStack := s.onStack[v := true])
    ensures Inv(adj, t, grays + {v})
    ensures Active(adj, s, t, v, s.next) && LowSoFar(adj, s, t, v, 0, s.next)
  {
    PushedShape(adj, s, t, v);
    PushedExplored(adj, s, t, v, grays);
    PushedLinks(adj, s, t, v, grays);
  }

  lemma UnvisitedShrinks(adj: Graph, s: Search, t: Search)
    requires Sized(adj, s) && Sized(adj, t) && Extends(adj, s, t)
    ensures Unvisited(adj, t) <= Unvisited(adj, s)
  {
  }

  lemma GraysOnStack(adj: Graph, s: Search, grays: set<nat>)
    requires Sized(adj, s) && Linked(adj, s, grays)
    ensures forall g :: g in grays ==> g in s.stack
  {
  }

  lemma CallFacts(adj: Graph, s: Search, t: Search, v: nat, low: int)
    requires Sized(adj, s) && Sized(adj, t) && Active(adj, s, t, v, low)
    ensures v < |adj| && s.index[v] < 0 && t.index[v] == s.next && low <= s.next
    ensures Extends(adj, s, t)
    ensures forall u: nat :: u < |adj| && s.index[u] >= 0 ==> t.index[u] == s.index[u]
  {
  }

  /** Every active vertex reaches a successor of the innermost one. */
  lemma ReachThrough(adj: Graph, s: Search, t: Search, grays: set<nat>, v: nat, w: nat, low: int)
    requires Shape(adj, s) && Shape(adj, t) && Active(adj, s, t, v, low) && Linked(adj, t, grays + {v})
    requires forall g :: g in grays ==> g in s.stack
    requires w < |adj| && w in adj[v]
    ensures forall g :: g in grays + {v} ==> Reach(adj, g, w)
  {
    ReachEdge(adj, v, w);
    assert v in t.stack by { assert t.stack[|s.stack|] == v; }
    forall g | g in grays + {v} ensures Reach(adj, g, w) {
      BelowActive(adj, s, t, v, low, g);
      ReachTrans(adj, g, v, w);
    }
  }

  /** Stack vertices found so far lie on the stack of s exactly when their index is below v's. */
  lemma BelowActive(adj: Graph, s: Search, t: Search, v: nat, low: int, w: nat)
    requires Shape(adj, s) && Shape(adj, t) && Active(adj, s, t, v, low)
    requires w in t.stack
    ensures w in s.stack <==> t.index[w] < s.next
    ensures w in s.stack ==> t.index[w] == s.index[w]
  {
    var i :| 0 <= i < |t.stack| && t.stack[i] == w;
    if i < |s.stack| {
      assert w == t.stack[..|s.stack|][i];
    } else if i > |s.stack| {
      assert EnteredBefore(t, |s.stack|, i);
    }
  }

  lemma ReturnedActive(adj: Graph, s: Search, t: Search, r: Search, v: nat, w: nat, low: int, sub: int)
    requires IsGraph(adj) && Shape(adj, s) && Shape(adj, t) && Sized(adj, r)
    requires v < |adj| && w < |adj| && w in adj[v]
    requires Active(adj, s, t, v, low) && Extends(adj, t, r)
    requires sub < low ==> LowWitness(adj, t, w, sub)
    ensures Active(adj, s, r, v, if sub < low then sub else low)
  {
    ExtendsTrans(adj, s, t, r);
    if sub < low {
      var x: nat :| x in t.stack && t.index[x] == sub && Reach(adj, w, x);
      BelowActive(adj, s, t, v, low, x);
      ReachEdge(adj, v, w);
      ReachTrans(adj, v, w, x);
    }
    assert r.stack[|s.stack|] == r.stack[..|t.stack|][|s.stack|] == v;
  }

  lemma ReturnedLow(adj: Graph, s: Search, t: Search, r: Search, v: nat, i: nat, low: int, sub: int)
    requires IsGraph(adj) && Sized(adj, s) && Sized(adj, t) && Sized(adj, r)
    requires v < |adj| && i < |adj[v]|
    requires Active(adj, s, t, v, low) && LowSoFar(adj, s, t, v, i, low)
    requires Extends(adj, t, r) && LowBound(adj, t, r, sub)
    requires forall u: nat :: u in s.stack ==> s.index[u] >= 0
    requires adj[v][i] !in s.stack && t.index[adj[v][i]] == -1 && r.index[adj[v][i]] == t.next
    ensures LowSoFar(adj, s, r, v, i + 1, if sub < low then sub else low)
  {
    var l := if sub < low then sub else low;
    assert t.stack == s.stack + t.stack[|s.stack|..];
    forall u: nat, x: nat | u in r.stack && u !in s.stack && u != v && x in adj[u] && x in s.stack
      ensures l <= s.index[x]
    {
      assert x in t.stack && t.index[x] == s.index[x];
      if u !in t.stack {
        assert sub <= t.index[x];
      }
    }
  }

  lemma Returned(adj: Graph, s: Search, t: Search, r: Search, v: nat, w: nat, i: nat, low: int, sub: int)
    requires IsGraph(adj) && Shape(adj, s) && Shape(adj, t) && Shape(adj, r)
    requires v < |adj| && i < |adj[v]| && w == adj[v][i]
    requires Active(adj, s, t, v, low) && LowSoFar(adj, s, t, v, i, low)
    requires Extends(adj, t, r) && LowBound(adj, t, r, sub)
    requires t.index[w] == -1 && r.index[w] == t.next && sub <= r.index[w]
    requires sub < r.index[w] ==> LowWitness(adj, t, w, sub)
    ensures var l := if sub < low then sub else low;
            Active(adj, s, r, v, l) && LowSoFar(adj, s, r, v, i + 1, l)
  {
    ReturnedActive(adj, s, t, r, v, w, low, sub);
    ReturnedLow(adj, s, t, r, v, i, low, sub);
  }

  lemma ExtendsTrans(adj: Graph, s: Search, t: Search, r: Search)
    requires Sized(adj, s) && Sized(adj, t) && Sized(adj, r) && Extends(adj, s, t) && Extends(adj, t, r)
    ensures Extends(adj, s, r)
  {
    assert r.stack[..|s.stack|] == r.stack[..|t.stack|][..|s.stack|];
  }

  lemma SeenOnStack(adj: Graph, s: Search, t: Search, v: nat, w: nat, i: nat, low: int)
    requires IsGraph(adj) && Shape(adj, s) && Shape(adj, t)
    requires v < |adj| && i < |adj[v]| && w == adj[v][i]
    requires Active(adj, s, t, v, low) && LowSoFar(adj, s, t, v, i, low)
    requires w in t.stack
    ensures var l := if t.index[w] < low then t.index[w] else low;
            Active(adj, s, t, v, l) && LowSoFar(adj, s, t, v, i + 1, l)
  {
    BelowActive(adj, s, t, v, low, w);
    ReachEdge(adj, v, w);
  }

  lemma SeenDone(adj: Graph, s: Search, t: Search, v: nat, w: nat, i: nat, low: int)
    requires IsGraph(adj) && Shape(adj, s) && Shape(adj, t)
    requires v < |adj| && i < |adj[v]| && w == adj[v][i]
    requires Active(adj, s, t, v, low) && LowSoFar(adj, s, t, v, i, low)
    requires t.index[w] >= 0 && w !in t.stack
    ensures LowSoFar(adj, s, t, v, i + 1, low)
  {
    assert w !in s.stack by { assert t.stack == s.stack + t.stack[|s.stack|..]; }
  }

  // ----- Closing a call -----

  /** Once v's edges are seen, the vertices pushed since s only lead to each other, to s's stack or to done ones. */
  ghost predicate Segment(adj: Graph, s: Search, t: Search, v: nat)
    requires Sized(adj, s) && Sized(adj, t)
  {
    forall u: nat, w: nat :: u in t.stack && u !in s.stack && w in adj[u] ==>
      w < |adj| && (w in t.stack || t.id[w] >= 0)
  }

  lemma SegmentExplored(adj: Graph, s: Search, t: Search, v: nat, low: int, grays: set<nat>)
    requires Inv(adj, s, grays) && Inv(adj, t, grays + {v}) && v < |adj|
    requires Active(adj, s, t, v, low) && LowSoFar(adj, s, t, v, |adj[v]|, low)
    ensures Segment(adj, s, t, v)
    ensures Explored(adj, t, grays)
  {
    forall u: nat, w: nat | u < |adj| && t.index[u] >= 0 && u !in grays && w in adj[u]
      ensures w < |adj| && t.index[w] >= 0
    {
      if u == v {
        var i :| 0 <= i < |adj[v]| && adj[v][i] == w;
      }
    }
    assert Explored(adj, t, grays);
    forall u: nat, w: nat | u in t.stack && u !in s.stack && w in adj[u]
      ensures w < |adj| && (w in t.stack || t.id[w] >= 0)
    {
      assert u !in grays;
    }
  }

  /** With lowlink equal to index, the pushed vertices reach v and nothing outside but done vertices. */
  lemma SegmentReachesRoot(adj: Graph, s: Search, t: Search, v: nat, grays: set<nat>, u: nat)
    requires Inv(adj, s, grays) && Inv(adj, t, grays + {v}) && v < |adj|
    requires Active(adj, s, t, v, s.next) && LowSoFar(adj, s, t, v, |adj[v]|, s.next)
    requires Segment(adj, s, t, v)
    requires u in t.stack && u !in s.stack
    ensures Reach(adj, u, v) && Reach(adj, v, u)
    ensures forall x: nat :: x < |adj| && Reach(adj, u, x) ==> (x in t.stack && x !in s.stack) || t.id[x] >= 0
  {
    var closed := set x: nat | x < |adj| && ((x in t.stack && x !in s.stack) || t.id[x] >= 0);
    forall x: nat, y: nat | x in closed && x < |adj| && y in adj[x]
      ensures y in closed
    {
      assert !(t.id[x] < 0 && y in s.stack);
    }
    forall x: nat | x < |adj| && Reach(adj, u, x) ensures x in closed {
      ClosedUnderReach(adj, closed, u, x);
    }
    assert Rooted(adj, t, grays + {v}, u);
    var g: nat :| g in grays + {v} && g in t.stack && t.index[g] <= t.index[u] && Reach(adj, u, g);
    if g in grays {
      assert g in s.stack;
    }
    BelowActive(adj, s, t, v, s.next, u);
    assert t.index[v] <= t.index[u];
    assert v in t.stack by { assert t.stack[|s.stack|] == v; }
  }

  lemma PoppedStack(adj: Graph, s: Search, t: Search, u: nat)
    requires Shape(adj, t)
    requires |s.stack| <= |t.stack| && t.stack[..|s.stack|] == s.stack
    ensures u in t.stack[|s.stack|..] <==> u in t.stack && u !in s.stack
  {
    assert t.stack == s.stack + t.stack[|s.stack|..];
    if u in t.stack[|s.stack|..] {
      var i :| 0 <= i < |t.stack[|s.stack|..]| && t.stack[|s.stack|..][i] == u;
      assert forall j: nat :: j < |s.stack| ==> EnteredBefore(t, j, |s.stack| + i) && t.stack[j] == s.stack[j];
    }
  }

  lemma PoppedShape(adj: Graph, s: Search, t: Search, r: Search, v: nat)
    requires Shape(adj, s) && Shape(adj, t) && Active(adj, s, t, v, s.next)
    requires r.index == t.index && r.next == t.next
    requires r.stack == s.stack && r.count == t.count + 1
    requires |r.id| == |adj| && |r.onStack| == |adj|
    requires forall u: nat :: u < |adj| ==> r.id[u] == if u in t.stack && u !in s.stack then t.count else t.id[u]
    requires forall u: nat :: u < |adj| ==> r.onStack[u] == (u in r.stack)
    ensures Shape(adj, r) && Extends(adj, s, r)
  {
    hide LowWitness;
    assert t.stack == s.stack + t.stack[|s.stack|..];
    assert forall u: nat :: u in s.stack ==> u in t.stack && r.index[u] == s.index[u];
    forall i: nat, j: nat | i < j < |r.stack|
      ensures EnteredBefore(r, i, j)
    {
      assert EnteredBefore(s, i, j) && s.stack[i] in s.stack && s.stack[j] in s.stack;
    }
    assert r.stack[..|s.stack|] == s.stack;
  }

  lemma PoppedComponents(adj: Graph, s: Search, t: Search, r: Search, v: nat, grays: set<nat>)
    requires Inv(adj, s, grays) && Inv(adj, t, grays + {v}) && v < |adj|
    requires Active(adj, s, t, v, s.next) && LowSoFar(adj, s, t, v, |adj[v]|, s.next)
    requires Segment(adj, s, t, v)
    requires Shape(adj, r) && r.count == t.count + 1
    requires forall u: nat :: u < |adj| ==> r.id[u] == if u in t.stack && u !in s.stack then t.count else t.id[u]
    ensures DoneComponents(adj, r)
  {
    forall u: nat, w: nat | u < |adj| && w < |adj| && r.id[u] >= 0 && r.id[w] >= 0
      ensures r.id[u] == r.id[w] <==> Reach(adj, u, w) && Reach(adj, w, u)
    {
      var inU, inW := u in t.stack && u !in s.stack, w in t.stack && w !in s.stack;
      if inU && inW {
        SegmentReachesRoot(adj, s, t, v, grays, u);
        SegmentReachesRoot(adj, s, t, v, grays, w);
        ReachTrans(adj, u, v, w);
        ReachTrans(adj, w, v, u);
      } else if inU {
        DoneStaysDone(adj, t, grays + {v}, w, u);
      } else if inW {
        DoneStaysDone(adj, t, grays + {v}, u, w);
      }
    }
  }

  lemma DoneStaysDone(adj: Graph, t: Search, grays: set<nat>, u: nat, w: nat)
    requires Inv(adj, t, grays) && u < |adj| && w < |adj|
    requires t.id[u] >= 0 && t.id[w] < 0
    ensures !Reach(adj, u, w)
  {
    if Reach(adj, u, w) {
      var closed := set x: nat | x < |adj| && t.id[x] >= 0;
      ClosedUnderReach(adj, closed, u, w);
    }
  }

  lemma PoppedLinked(adj: Graph, s: Search, r: Search, grays: set<nat>)
    requires Sized(adj, s) && Sized(adj, r) && Linked(adj, s, grays)
    requires forall u: nat :: u in s.stack ==> s.index[u] >= 0
    requires Extends(adj, s, r) && r.stack == s.stack
    ensures Linked(adj, r, grays)
  {
    forall u: nat | u in r.stack ensures Rooted(adj, r, grays, u) {
      assert Rooted(adj, s, grays, u);
    }
  }

  lemma Popped(adj: Graph, s: Search, t: Search, r: Search, v: nat, grays: set<nat>)
    requires Inv(adj, s, grays) && Inv(adj, t, grays + {v}) && v < |adj|
    requires Active(adj, s, t, v, s.next) && LowSoFar(adj, s, t, v, |adj[v]|, s.next)
    requires r.index == t.index && r.next == t.next
    requires r.stack == s.stack && r.count == t.count + 1
    requires |r.id| == |adj| && |r.onStack| == |adj|
    requires forall u: nat :: u < |adj| ==> r.id[u] == if u in t.stack && u !in s.stack then t.count else t.id[u]
    requires forall u: nat :: u < |adj| ==> r.onStack[u] == (u in r.stack)
    ensures Inv(adj, r, grays) && Extends(adj, s, r)
  {
    PoppedShape(adj, s, t, r, v);
    SegmentExplored(adj, s, t, v, s.next, grays);
    PoppedComponents(adj, s, t, r, v, grays);
    PoppedExplored(adj, s, t, r, v, grays);
    PoppedLinked(adj, s, r, grays);
  }

  lemma PoppedExplored(adj: Graph, s: Search, t: Search, r: Search, v: nat, grays: set<nat>)
    requires IsGraph(adj) && Shape(adj, s) && Shape(adj, t) && Shape(adj, r) && v < |adj|
    requires Explored(adj, t, grays) && Segment(adj, s, t, v)
    requires Active(adj, s, t, v, s.next) && LowSoFar(adj, s, t, v, |adj[v]|, s.next)
    requires r.index == t.index && r.count == t.count + 1
    requires forall u: nat :: u < |adj| ==> r.id[u] == if u in t.stack && u !in s.stack then t.count else t.id[u]
    ensures Explored(adj, r, grays)
  {
    forall u: nat, w: nat | u < |adj| && r.id[u] >= 0 && w in adj[u]
      ensures w < |adj| && 0 <= r.id[w] <= r.id[u]
    {
    }
  }

  lemma FinishedRooted(adj: Graph, t: Search, v: nat, w: nat, grays: set<nat>, u: nat)
    requires Sized(adj, t) && u in t.stack && w in t.stack && v in t.stack
    requires Rooted(adj, t, grays + {v}, u) && Rooted(adj, t, grays + {v}, w)
    requires t.index[w] < t.index[v] && Reach(adj, v, w)
    ensures Rooted(adj, t, grays, u)
  {
    hide Reach;
    var h: nat :| h in grays + {v} && h in t.stack && t.index[h] <= t.index[u] && Reach(adj, u, h);
    if h == v {
      var g: nat :| g in grays + {v} && g in t.stack && t.index[g] <= t.index[w] && Reach(adj, w, g);
      ReachTrans(adj, u, v, w);
      ReachTrans(adj, u, w, g);
    }
  }

  lemma FinishedAllRooted(adj: Graph, t: Search, v: nat, w: nat, grays: set<nat>)
    requires Sized(adj, t) && AllRooted(adj, t, grays + {v})
    requires w in t.stack && v in t.stack && t.index[w] < t.index[v] && Reach(adj, v, w)
    ensures AllRooted(adj, t, grays)
  {
    hide Reach;
    forall u: nat | u in t.stack ensures Rooted(adj, t, grays, u) {
      assert Rooted(adj, t, grays + {v}, u) && Rooted(adj, t, grays + {v}, w);
      FinishedRooted(adj, t, v, w, grays, u);
    }
  }

  lemma FewerReach(adj: Graph, t: Search, v: nat, grays: set<nat>)
    requires Sized(adj, t) && ActiveReach(adj, t, grays + {v})
    ensures ActiveReach(adj, t, grays)
  {
    hide Reach;
  }

  lemma FinishedLinked(adj: Graph, s: Search, t: Search, v: nat, low: int, grays: set<nat>)
    requires Sized(adj, s) && Sized(adj, t) && Linked(adj, s, grays) && Linked(adj, t, grays + {v})
    requires forall u: nat :: u in s.stack ==> u in t.stack && t.index[u] == s.index[u]
    requires v in t.stack && low < t.index[v] && LowWitness(adj, s, v, low)
    ensures Linked(adj, t, grays)
  {
    hide Reach, Rooted, AllRooted, ActiveReach;
    var w: nat :| w in s.stack && s.index[w] == low && Reach(adj, v, w);
    FinishedAllRooted(adj, t, v, w, grays);
    FewerReach(adj, t, v, grays);
  }

  lemma FinishedLow(adj: Graph, s: Search, t: Search, v: nat, low: int)
    requires Sized(adj, s) && Sized(adj, t) && v < |adj|
    requires LowSoFar(adj, s, t, v, |adj[v]|, low)
    ensures LowBound(adj, s, t, low)
  {
    forall u: nat, x: nat | u in t.stack && u !in s.stack && x in adj[u] && x in s.stack
      ensures low <= s.index[x]
    {
      if u == v {
        var i :| 0 <= i < |adj[v]| && adj[v][i] == x;
      }
    }
  }

  lemma Finished(adj: Graph, s: Search, t: Search, v: nat, low: int, grays: set<nat>)
    requires Inv(adj, s, grays) && Inv(adj, t, grays + {v}) && v < |adj|
    requires Active(adj, s, t, v, low) && LowSoFar(adj, s, t, v, |adj[v]|, low)
    requires low < s.next
    ensures Inv(adj, t, grays) && Extends(adj, s, t) && LowBound(adj, s, t, low) && v in t.stack
    ensures LowWitness(adj, s, v, low)
  {
    SegmentExplored(adj, s, t, v, low, grays);
    assert t.stack[|s.stack|] == v;
    assert t.stack == s.stack + t.stack[|s.stack|..];
    FinishedLinked(adj, s, t, v, low, grays);
    FinishedLow(adj, s, t, v, low);
  }

  /** Tarjan's algorithm on a whole graph. */
  method StrongComponents(adj: Graph) returns (id: seq<int>, count: nat)
    requires IsGraph(adj)
    ensures Components(adj, id, count)
  {
    var search := new Tarjan(adj);
    search.Run();
    id, count := search.id, search.count;
  }
}
