/** What the pickup-delivery states say about the loads along a path. */
module PickupDeliveryPaths {
  import opened Types
  import opened PickupDelivery

  function Picked(pd: PickupDelivery, F: seq<nat>): real {
    if F == [] then 0.0 else Picked(pd, F[..|F| - 1]) + pd.pickup(F[|F| - 1])
  }

  function Delivered(pd: PickupDelivery, F: seq<nat>): real {
    if F == [] then 0.0 else Delivered(pd, F[..|F| - 1]) + pd.delivery(F[|F| - 1])
  }

  lemma {:induction false} SumsAppend(pd: PickupDelivery, F: seq<nat>, B: seq<nat>)
    ensures Picked(pd, F + B) == Picked(pd, F) + Picked(pd, B)
            && Delivered(pd, F + B) == Delivered(pd, F) + Delivered(pd, B)
  {
    if B == [] {
      assert F + B == F;
    } else {
      var m := |B| - 1;
      assert (F + B)[..|F| + m] == F + B[..m];
      SumsAppend(pd, F, B[..m]);
    }
  }

  /** The load after the first k vertices: what has been picked up and what is still to be delivered. */
  function Load(pd: PickupDelivery, F: seq<nat>, k: nat): real
    requires k <= |F|
  {
    Picked(pd, F[..k]) + Delivered(pd, F[k..])
  }

  /** The vehicle is never overloaded, from the depot on. */
  ghost predicate Fits(pd: PickupDelivery, F: seq<nat>) {
    forall k: nat :: k <= |F| ==> Load(pd, F, k) <= pd.Q
  }

  /** x is the room left at the fullest point. */
  ghost predicate Slack(pd: PickupDelivery, F: seq<nat>, x: real) {
    && (forall k: nat :: k <= |F| ==> x <= pd.Q - Load(pd, F, k))
    && (exists k: nat :: k <= |F| && x == pd.Q - Load(pd, F, k))
  }

  lemma LoadBefore(pd: PickupDelivery, F: seq<nat>, B: seq<nat>, k: nat)
    requires k <= |F|
    ensures Load(pd, F + B, k) == Load(pd, F, k) + Delivered(pd, B)
  {
    assert (F + B)[..k] == F[..k] && (F + B)[k..] == F[k..] + B;
    SumsAppend(pd, F[k..], B);
  }

  lemma LoadAfter(pd: PickupDelivery, F: seq<nat>, B: seq<nat>, k: nat)
    requires k <= |B|
    ensures Load(pd, F + B, |F| + k) == Picked(pd, F) + Load(pd, B, k)
  {
    assert (F + B)[..|F| + k] == F + B[..k] && (F + B)[|F| + k..] == B[k..];
    SumsAppend(pd, F, B[..k]);
  }

  /** Two parts fit together exactly when each has room for what the other brings. */
  lemma FitsTogether(pd: PickupDelivery, F: seq<nat>, B: seq<nat>, x: real, y: real)
    requires Slack(pd, F, x) && Slack(pd, B, y)
    ensures Fits(pd, F + B) <==> Delivered(pd, B) <= x && Picked(pd, F) <= y
  {
    hide Load, Picked, Delivered;
    var G := F + B;
    forall k: nat | k <= |F| ensures Load(pd, G, k) == Load(pd, F, k) + Delivered(pd, B) { LoadBefore(pd, F, B, k); }
    forall k: nat | |F| <= k <= |G|
      ensures Load(pd, G, k) == Picked(pd, F) + Load(pd, B, k - |F|)
    {
      LoadAfter(pd, F, B, k - |F|);
    }
    if Fits(pd, G) {
      var k: nat :| k <= |F| && x == pd.Q - Load(pd, F, k);
      assert Load(pd, G, k) <= pd.Q;
      var h: nat :| h <= |B| && y == pd.Q - Load(pd, B, h);
      assert Load(pd, G, |F| + h) <= pd.Q;
    }
  }

  /** State of a forward label that has visited F, if each extension was feasible. */
  function After(pd: PickupDelivery, F: seq<nat>): Option<State> {
    if F == [] then Some(pd.InitState(Forward)) else
    var s := After(pd, F[..|F| - 1]);
    if s.None? then None else
    var r := pd.ExtendToVertex(Forward, s.value, F[|F| - 1]);
    if r.1.Fin? then Some(r.0) else None
  }

  /** State of a backward label that has B ahead of it. */
  function Ahead(pd: PickupDelivery, B: seq<nat>): Option<State> {
    if B == [] then Some(pd.InitState(Backward)) else
    var s := Ahead(pd, B[1..]);
    if s.None? then None else
    var r := pd.ExtendToVertex(Backward, s.value, B[0]);
    if r.1.Fin? then Some(r.0) else None
  }

  lemma SingleVertex(pd: PickupDelivery, v: nat)
    ensures Picked(pd, [v]) == pd.pickup(v) && Delivered(pd, [v]) == pd.delivery(v)
    ensures Load(pd, [v], 0) == pd.delivery(v) && Load(pd, [v], 1) == pd.pickup(v)
  {
    assert [v][..0] == [] && [v][1..] == [] && [v][0..] == [v] && [v][..1] == [v];
    assert Picked(pd, []) == 0.0 && Delivered(pd, []) == 0.0;
  }

  lemma WholeLoads(pd: PickupDelivery, G: seq<nat>)
    ensures Load(pd, G, 0) == Delivered(pd, G) && Load(pd, G, |G|) == Picked(pd, G)
  {
    assert G[..0] == [] && G[0..] == G && G[..|G|] == G && G[|G|..] == [];
    assert Picked(pd, []) == 0.0 && Delivered(pd, []) == 0.0;
  }

  lemma SlackNext(pd: PickupDelivery, F: seq<nat>, v: nat, x: real)
    requires Slack(pd, F, x)
    ensures Slack(pd, F + [v], Min(x - pd.delivery(v), pd.Q - Picked(pd, F + [v])))
    ensures Fits(pd, F + [v]) <==> pd.delivery(v) <= x && Picked(pd, F + [v]) <= pd.Q
  {
    SingleVertex(pd, v);
    WholeLoads(pd, F + [v]);
    hide Load, Picked, Delivered;
    var G, z := F + [v], Min(x - pd.delivery(v), pd.Q - Picked(pd, F + [v]));
    forall k: nat | k <= |F| ensures Load(pd, G, k) == Load(pd, F, k) + pd.delivery(v) { LoadBefore(pd, F, [v], k); }
    var k: nat :| k <= |F| && x == pd.Q - Load(pd, F, k);
    var at := if z == pd.Q - Picked(pd, G) then |G| else k;
    assert at <= |G| && z == pd.Q - Load(pd, G, at);
    if Fits(pd, G) { assert Load(pd, G, k) <= pd.Q && Load(pd, G, |G|) <= pd.Q; }
  }

  lemma SlackBefore(pd: PickupDelivery, B: seq<nat>, v: nat, y: real)
    requires Slack(pd, B, y)
    ensures Slack(pd, [v] + B, Min(y - pd.pickup(v), pd.Q - Delivered(pd, [v] + B)))
    ensures Fits(pd, [v] + B) <==> pd.pickup(v) <= y && Delivered(pd, [v] + B) <= pd.Q
  {
    SingleVertex(pd, v);
    WholeLoads(pd, [v] + B);
    hide Load, Picked, Delivered;
    var G, z := [v] + B, Min(y - pd.pickup(v), pd.Q - Delivered(pd, [v] + B));
    forall k: nat | 1 <= k <= |G|
      ensures Load(pd, G, k) == pd.pickup(v) + Load(pd, B, k - 1)
    {
      LoadAfter(pd, [v], B, k - 1);
    }
    var k: nat :| k <= |B| && y == pd.Q - Load(pd, B, k);
    var at := if z == pd.Q - Delivered(pd, G) then 0 else k + 1;
    assert at <= |G| && z == pd.Q - Load(pd, G, at);
    if Fits(pd, G) { assert Load(pd, G, 0) <= pd.Q && Load(pd, G, k + 1) <= pd.Q; }
  }

  lemma EmptySlack(pd: PickupDelivery)
    ensures Slack(pd, [], pd.Q) && (Fits(pd, []) <==> 0.0 <= pd.Q)
  {
    var e: seq<nat> := [];
    assert e[..0] == [] && e[0..] == [];
    assert Load(pd, e, 0) == 0.0;
  }

  lemma StillFits(pd: PickupDelivery, F: seq<nat>, B: seq<nat>)
    requires Demands(pd) && Fits(pd, F + B)
    ensures Fits(pd, F) && Fits(pd, B)
  {
    Positive(pd, F);
    Positive(pd, B);
    forall k: nat | k <= |F| ensures Load(pd, F, k) <= pd.Q {
      LoadBefore(pd, F, B, k);
      assert Load(pd, F + B, k) <= pd.Q;
    }
    forall k: nat | k <= |B| ensures Load(pd, B, k) <= pd.Q {
      LoadAfter(pd, F, B, k);
      assert Load(pd, F + B, |F| + k) <= pd.Q;
    }
  }

  lemma {:induction false} Positive(pd: PickupDelivery, F: seq<nat>)
    requires Demands(pd)
    ensures Picked(pd, F) >= 0.0 && Delivered(pd, F) >= 0.0
  {
    if F != [] { Positive(pd, F[..|F| - 1]); }
  }

  /** A forward state exists exactly when the load fits everywhere; it holds what was picked up and the room left. */
  lemma {:induction false} AfterMeaning(pd: PickupDelivery, F: seq<nat>)
    requires Demands(pd)
    ensures After(pd, F).Some? <==> Fits(pd, F)
    ensures After(pd, F).Some? ==> After(pd, F).value.P == Picked(pd, F) && Slack(pd, F, After(pd, F).value.D)
  {
    hide Slack, Fits;
    if F == [] {
      EmptySlack(pd);
    } else {
      var m := |F| - 1;
      var rest, v := F[..m], F[m];
      assert F == rest + [v];
      AfterMeaning(pd, rest);
      if After(pd, rest).Some? {
        SlackNext(pd, rest, v, After(pd, rest).value.D);
      } else if Fits(pd, F) {
        StillFits(pd, rest, [v]);
      }
    }
  }

  lemma {:induction false} AheadMeaning(pd: PickupDelivery, B: seq<nat>)
    requires Demands(pd)
    ensures Ahead(pd, B).Some? <==> Fits(pd, B)
    ensures Ahead(pd, B).Some? ==> Ahead(pd, B).value.D == Delivered(pd, B) && Slack(pd, B, Ahead(pd, B).value.P)
  {
    hide Slack, Fits;
    if B == [] {
      EmptySlack(pd);
    } else {
      var rest, v := B[1..], B[0];
      assert B == [v] + rest;
      SumsAppend(pd, [v], rest);
      SingleVertex(pd, v);
      AheadMeaning(pd, rest);
      if Ahead(pd, rest).Some? {
        SlackBefore(pd, rest, v, Ahead(pd, rest).value.P);
      } else if Fits(pd, B) {
        StillFits(pd, [v], rest);
      }
    }
  }

  /** The split law: a path fits everywhere exactly when both states exist and may be joined. */
  lemma LoadSplit(pd: PickupDelivery, F: seq<nat>, B: seq<nat>, j: nat)
    requires Demands(pd)
    ensures (After(pd, F).Some? && Ahead(pd, B).Some? && pd.ConcatenationCost(j, After(pd, F).value,
                Ahead(pd, B).value).Fin?)
            <==> Fits(pd, F + B)
  {
    hide Slack, Fits, After, Ahead;
    AfterMeaning(pd, F);
    AheadMeaning(pd, B);
    if Fits(pd, F + B) { StillFits(pd, F, B); }
    if After(pd, F).Some? && Ahead(pd, B).Some? { FitsTogether(pd, F, B, After(pd, F).value.D, Ahead(pd, B).value.P); }
  }

  predicate MayJoin(pd: PickupDelivery, dir: Direction, v: nat, s: State, o: State) {
    if dir.Forward? then pd.ConcatenationCost(v, s, o).Fin? else pd.ConcatenationCost(v, o, s).Fin?
  }

  /** Dominance is exact: less load and more room, which is to join wherever the dominated state does. */
  lemma PickupDeliveryDominates(pd: PickupDelivery, dir: Direction, v: nat, s: State, t: State)
    ensures pd.DominationCost(dir, v, s, t).Fin? <==>
              if dir.Forward? then s.P <= t.P && t.D <= s.D else s.D <= t.D && t.P <= s.P
    ensures pd.DominationCost(dir, v, s, t).Fin? <==>
              forall o :: MayJoin(pd, dir, v, t, o) ==> MayJoin(pd, dir, v, s, o)
  {
    if forall o :: MayJoin(pd, dir, v, t, o) ==> MayJoin(pd, dir, v, s, o) { assert MayJoin(pd, dir, v, t, t); }
  }
}
