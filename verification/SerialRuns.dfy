/**
 The serial regime: every executor finishes before the next one starts.
 Each agent's run is a function on the store; whole schedules refine a stack at the queue,
 and repeated runs drain the pipeline.
 */
module SerialRuns {
  import opened Strings
  import opened Orders

  datatype Agent = Fila | Cozinha | Preparo | Entrega

  /** The statuses each executor selects. */
  predicate Eligible(a: Agent, st: OrderStatus) {
    match a
    case Fila => false
    case Cozinha => st == FILA || st == COZINHA
    case Preparo => st == PREPARO
    case Entrega => st == ENTREGA
  }

  /** Position of `active[-1]`. */
  function Newest(s: Store, a: Agent): (r: Option<nat>)
    ensures r.Some? ==> r.value < |s| && Eligible(a, s[r.value].status)
    ensures r.Some? ==> forall j | r.value < j < |s| :: !Eligible(a, s[j].status)
    ensures r.None? <==> forall j | 0 <= j < |s| :: !Eligible(a, s[j].status)
  {
    if s == [] then None
    else if Eligible(a, s[|s| - 1].status) then Some(|s| - 1)
    else Newest(s[..|s| - 1], a)
  }

  lemma NewestIs(s: Store, a: Agent, k: nat)
    requires k < |s| && Eligible(a, s[k].status)
    requires forall j | k < j < |s| :: !Eligible(a, s[j].status)
    ensures Newest(s, a) == Some(k)
  {
  }

  function AdvanceAt(s: Store, k: nat, now: Time): Store
    requires k < |s|
  {
    s[k := Advanced(s[k], now)]
  }

  /** Fila stores a new order and takes it to FILA. */
  function FilaRun(s: Store, id: string, nome: string, itens: seq<PastelItem>, t0: Time, t1: Time): Store {
    Put(s, Advanced(NewRecord(id, itens, nome, t0), t1))
  }

  /** Under a new id, the order stored is last, at FILA, and holds what it was made of. */
  lemma FilaStores(s: Store, id: string, nome: string, itens: seq<PastelItem>, t0: Time, t1: Time)
    requires Fresh(s, id)
    ensures FilaRun(s, id, nome, itens, t0, t1) ==
            s + [Record(id, itens, nome, t0, FILA, map[PEDIDO := t0, FILA := t1])]
  {
    PutFresh(s, Record(id, itens, nome, t0, FILA, map[PEDIDO := t0, FILA := t1]));
  }

  /** Cozinha advances the newest eligible order twice, the other two once. */
  function AgentRun(a: Agent, s: Store, t: Time, t': Time): Store {
    match Newest(s, a)
    case None => s
    case Some(k) => if a == Cozinha then AdvanceAt(AdvanceAt(s, k, t), k, t') else AdvanceAt(s, k, t)
  }

  /** Statuses between serial runs: no order rests at PEDIDO or COZINHA. */
  ghost predicate Settled(s: Store) {
    forall i | 0 <= i < |s| :: s[i].status != PEDIDO && s[i].status != COZINHA
  }

  /** The status an agent takes from, and the one its run ends at. */
  function Source(a: Agent): OrderStatus {
    match a
    case Fila => PEDIDO
    case Cozinha => FILA
    case Preparo => PREPARO
    case Entrega => ENTREGA
  }

  function Target(a: Agent): OrderStatus {
    match a
    case Fila => FILA
    case Cozinha => PREPARO
    case Preparo => ENTREGA
    case Entrega => CONCLUIDO
  }

  /** On a settled store a run moves exactly the newest order at its source to its target, or nothing. */
  lemma AgentRunMoves(a: Agent, s: Store, t: Time, t': Time)
    requires a != Fila && Settled(s)
    ensures Settled(AgentRun(a, s, t, t')) && |AgentRun(a, s, t, t')| == |s|
    ensures match Newest(s, a)
            case None => AgentRun(a, s, t, t') == s
            case Some(k) =>
              && s[k].status == Source(a)
              && AgentRun(a, s, t, t')[k].status == Target(a)
              && AgentRun(a, s, t, t')[k].id == s[k].id
              && forall j | 0 <= j < |s| && j != k :: AgentRun(a, s, t, t')[j] == s[j]
  {
  }

  /* ---------- schedules, and the stack they refine ---------- */

  datatype Op =
    | Order(id: string, nome: string, itens: seq<PastelItem>, t0: Time, t1: Time)
    | Work(agent: Agent, t: Time, t': Time)

  function Do(s: Store, op: Op): Store {
    match op
    case Order(id, nome, itens, t0, t1) => FilaRun(s, id, nome, itens, t0, t1)
    case Work(a, t, t') => AgentRun(a, s, t, t')
  }

  function Schedule(ops: seq<Op>): Store {
    if ops == [] then [] else Do(Schedule(ops[..|ops| - 1]), ops[|ops| - 1])
  }

  /** Every new order gets an id no stored order has. */
  ghost predicate FreshIds(ops: seq<Op>) {
    ops == [] || (
      && FreshIds(ops[..|ops| - 1])
      && (ops[|ops| - 1].Order? ==> Fresh(Schedule(ops[..|ops| - 1]), ops[|ops| - 1].id))
      && (ops[|ops| - 1].Work? ==> ops[|ops| - 1].agent != Fila))
  }

  /** The abstract pipeline over creation indices: a stack of waiting orders and two pools. */
  datatype Pools = Pools(created: nat, stack: seq<nat>, packing: set<nat>, delivering: set<nat>, done: set<nat>)

  ghost predicate IsGreatest(m: nat, pool: set<nat>) {
    m in pool && forall x | x in pool :: x <= m
  }

  /** One abstract step: push, pop the top, or take the greatest index of a pool. */
  ghost predicate PoolStep(p: Pools, op: Op, p': Pools) {
    match op
    case Order(_, _, _, _, _) => p' == p.(created := p.created + 1, stack := p.stack + [p.created])
    case Work(Fila, _, _) => p' == p
    case Work(Cozinha, _, _) =>
      if p.stack == [] then p' == p
      else p' == p.(stack := p.stack[..|p.stack| - 1], packing := p.packing + {p.stack[|p.stack| - 1]})
    case Work(Preparo, _, _) =>
      if p.packing == {} then p' == p
      else
        exists m ::
          IsGreatest(m, p.packing) && p' == p.(packing := p.packing - {m}, delivering := p.delivering + {m})
    case Work(Entrega, _, _) =>
      if p.delivering == {} then p' == p
      else exists m :: IsGreatest(m, p.delivering) && p' == p.(delivering := p.delivering - {m}, done := p.done + {m})
  }

  function Waiting(s: Store): seq<nat> {
    if s == [] then []
    else Waiting(s[..|s| - 1]) + if s[|s| - 1].status == FILA then [|s| - 1] else []
  }

  function At(s: Store, st: OrderStatus): set<nat> {
    set i: nat | i < |s| && s[i].status == st
  }

  function Abstract(s: Store): Pools {
    Pools(|s|, Waiting(s), At(s, PREPARO), At(s, ENTREGA), At(s, CONCLUIDO))
  }

  lemma {:induction false} WaitingSame(s: Store, s': Store)
    requires |s| == |s'| && forall i | 0 <= i < |s| :: s[i].status == FILA <==> s'[i].status == FILA
    ensures Waiting(s) == Waiting(s')
  {
    if s != [] { WaitingSame(s[..|s| - 1], s'[..|s| - 1]); }
  }

  lemma {:induction false} WaitingPop(s: Store, s': Store, k: nat)
    requires |s| == |s'| && k < |s| && s[k].status == FILA && s'[k].status != FILA
    requires forall j | k < j < |s| :: s[j].status != FILA
    requires forall j | 0 <= j < |s| && j != k :: s[j] == s'[j]
    ensures Waiting(s) == Waiting(s') + [k]
  {
    var n := |s| - 1;
    if k < n {
      WaitingPop(s[..n], s'[..n], k);
    } else {
      assert s[..n] == s'[..n];
    }
  }

  lemma {:induction false} WaitingEmpty(s: Store)
    ensures Waiting(s) == [] <==> forall j | 0 <= j < |s| :: s[j].status != FILA
  {
    if s != [] { WaitingEmpty(s[..|s| - 1]); }
  }

  lemma PoolGrows(s: Store, r: Record, st: OrderStatus)
    ensures At(s + [r], st) == At(s, st) + if r.status == st then {|s|} else {}
  {
  }

  lemma FilaPushes(s: Store, op: Op)
    requires op.Order? && Fresh(s, op.id)
    ensures PoolStep(Abstract(s), op, Abstract(Do(s, op)))
    ensures Settled(s) ==> Settled(Do(s, op))
  {
    var r := Advanced(NewRecord(op.id, op.itens, op.nome, op.t0), op.t1);
    PutFresh(s, r);
    PoolGrows(s, r, PREPARO);
    PoolGrows(s, r, ENTREGA);
    PoolGrows(s, r, CONCLUIDO);
    hide At;
    assert (s + [r])[..|s|] == s;
  }

  lemma PoolMoves(s: Store, s': Store, k: nat, st: OrderStatus)
    requires |s| == |s'| && k < |s| && forall j | 0 <= j < |s| && j != k :: s[j] == s'[j]
    ensures At(s', st) == At(s, st) - (if s[k].status == st then {k} else {}) + (if s'[k].status == st then {k} else {})
  {
  }

  /** An order moves from the source of `a` to its target: how the three pools and the stack see it. */
  lemma MoveSeen(a: Agent, s: Store, s': Store, k: nat)
    requires a != Fila && |s| == |s'| && k < |s| && forall j | 0 <= j < |s| && j != k :: s[j] == s'[j]
    requires s[k].status == Source(a) && s'[k].status == Target(a)
    requires forall j | k < j < |s| :: s[j].status != Source(a)
    ensures At(s', Source(a)) == At(s, Source(a)) - {k} && At(s', Target(a)) == At(s, Target(a)) + {k}
    ensures forall st | st != Source(a) && st != Target(a) :: At(s', st) == At(s, st)
    ensures IsGreatest(k, At(s, Source(a)))
    ensures Waiting(s) == Waiting(s') + if a == Cozinha then [k] else []
  {
    forall st
      ensures At(s', st) ==
              At(s, st) - (if s[k].status == st then {k} else {}) + (if s'[k].status == st then {k} else {})
    {
      PoolMoves(s, s', k, st);
    }
    if a == Cozinha {
      WaitingPop(s, s', k);
    } else {
      WaitingSame(s, s');
    }
  }

  lemma WorkerTakes(s: Store, op: Op)
    requires op.Work? && op.agent != Fila && Settled(s)
    ensures PoolStep(Abstract(s), op, Abstract(Do(s, op))) && Settled(Do(s, op))
  {
    var a, s' := op.agent, Do(s, op);
    AgentRunMoves(a, s, op.t, op.t');
    WaitingEmpty(s);
    match Newest(s, a)
    case None =>
      assert At(s, Source(a)) == {};
    case Some(k) =>
      MoveSeen(a, s, s', k);
      assert k in At(s, Source(a));
      TakenIsAStep(Abstract(s), op, Abstract(s'), k);
  }

  lemma TakenIsAStep(p: Pools, op: Op, p': Pools, k: nat)
    requires op.Work? && op.agent != Fila && p'.created == p.created
    requires op.agent == Cozinha ==>
      p.stack == p'.stack + [k] && p'.packing == p.packing + {k} && p'.delivering == p.delivering && p'.done == p.done
    requires op.agent == Preparo ==>
      p.stack == p'.stack && IsGreatest(k, p.packing) && p'.packing == p.packing - {k}
      && p'.delivering == p.delivering + {k} && p'.done == p.done
    requires op.agent == Entrega ==>
      p.stack == p'.stack && p'.packing == p.packing && IsGreatest(k, p.delivering)
      && p'.delivering == p.delivering - {k} && p'.done == p.done + {k}
    ensures PoolStep(p, op, p')
  {
  }

  /**
   Scanning the store for `active[-1]` refines a stack: along every schedule with fresh ids, each step of the store is
   a step of the abstract pipeline, in which Fila pushes, Cozinha pops, and Preparo and Entrega take the order created
   last.
   */
  lemma {:induction false} RefinesStack(ops: seq<Op>)
    requires FreshIds(ops)
    ensures Settled(Schedule(ops))
    ensures ops != [] ==>
      PoolStep(Abstract(Schedule(ops[..|ops| - 1])), ops[|ops| - 1], Abstract(Schedule(ops)))
  {
    if ops != [] {
      var before := ops[..|ops| - 1];
      RefinesStack(before);
      if ops[|ops| - 1].Order? {
        FilaPushes(Schedule(before), ops[|ops| - 1]);
      } else {
        WorkerTakes(Schedule(before), ops[|ops| - 1]);
      }
    }
  }

  /* ---------- draining ---------- */

  /** Steps still to be made by all orders together. */
  function Remaining(s: Store): nat {
    if s == [] then 0 else Remaining(s[..|s| - 1]) + (5 - Index(s[|s| - 1].status))
  }

  lemma {:induction false} RemainingUpdate(s: Store, s': Store, k: nat)
    requires |s| == |s'| && k < |s| && forall j | 0 <= j < |s| && j != k :: s[j] == s'[j]
    ensures Remaining(s) + Index(s[k].status) == Remaining(s') + Index(s'[k].status)
  {
    var n := |s| - 1;
    if k < n {
      RemainingUpdate(s[..n], s'[..n], k);
    } else {
      assert s[..n] == s'[..n];
    }
  }

  /**
   A productive run lowers the remaining steps by exactly 2, 1, 1; a run is idle exactly when nothing is at its
   source.
   */
  lemma WorkRemaining(a: Agent, s: Store, t: Time, t': Time)
    requires a != Fila && Settled(s)
    ensures AgentRun(a, s, t, t') == s <==> At(s, Source(a)) == {}
    ensures At(s, Source(a)) != {} ==>
      Remaining(s) == Remaining(AgentRun(a, s, t, t')) + (if a == Cozinha then 2 else 1)
  {
    AgentRunMoves(a, s, t, t');
    match Newest(s, a)
    case None =>
      assert At(s, Source(a)) == {};
    case Some(k) =>
      assert k in At(s, Source(a));
      RemainingUpdate(s, AgentRun(a, s, t, t'), k);
  }

  /** `a` runs once for each pair of clock readings. */
  function Runs(a: Agent, s: Store, ts: seq<(Time, Time)>): Store
    decreases |ts|
  {
    if ts == [] then s else Runs(a, AgentRun(a, s, ts[0].0, ts[0].1), ts[1..])
  }

  /** The store in which every order at the source of `a` stands at its target. */
  ghost predicate Emptied(a: Agent, s: Store, s': Store) {
    && |s'| == |s|
    && forall i | 0 <= i < |s| ::
         if s[i].status == Source(a) then s'[i].status == Target(a) && s'[i].id == s[i].id else s'[i] == s[i]
  }

  function Min(a: nat, b: nat): nat {
    if a < b then a else b
  }

  /** What `m` orders moving from the source of `a` to its target do to the pools. */
  ghost predicate Shifted(a: Agent, s: Store, s': Store, m: nat)
    requires a != Fila
  {
    && Settled(s') && |s'| == |s| && (forall i | 0 <= i < |s| :: s'[i].id == s[i].id)
    && |At(s', Source(a))| + m == |At(s, Source(a))| && |At(s', Target(a))| == |At(s, Target(a))| + m
    && (forall st | st != Source(a) && st != Target(a) :: At(s', st) == At(s, st))
  }

  lemma OneRunCounts(a: Agent, s: Store, t: Time, t': Time)
    requires a != Fila && Settled(s)
    ensures Shifted(a, s, AgentRun(a, s, t, t'), Min(1, |At(s, Source(a))|))
  {
    AgentRunMoves(a, s, t, t');
    match Newest(s, a)
    case None =>
      assert At(s, Source(a)) == {};
    case Some(k) =>
      MoveSeen(a, s, AgentRun(a, s, t, t'), k);
      assert k in At(s, Source(a)) && k !in At(s, Target(a));
  }

  /**
   Runs move one order each as long as there is one: a run is productive exactly when it is not beyond that number.
   */
  lemma {:induction false} RunsCount(a: Agent, s: Store, ts: seq<(Time, Time)>)
    requires a != Fila && Settled(s)
    ensures Shifted(a, s, Runs(a, s, ts), Min(|ts|, |At(s, Source(a))|))
    decreases |ts|
  {
    if ts != [] {
      OneRunCounts(a, s, ts[0].0, ts[0].1);
      hide Settled, At, AgentRun;
      RunsCount(a, AgentRun(a, s, ts[0].0, ts[0].1), ts[1..]);
    }
  }

  /** As many runs as there are orders at the source, or more, move exactly those orders. */
  lemma {:induction false} RunsEmpty(a: Agent, s: Store, ts: seq<(Time, Time)>)
    requires a != Fila && Settled(s) && |ts| >= |At(s, Source(a))|
    ensures Emptied(a, s, Runs(a, s, ts))
    decreases |ts|
  {
    if ts == [] {
      assert forall i | 0 <= i < |s| :: s[i].status == Source(a) ==> i in At(s, Source(a));
    } else {
      var s1 := AgentRun(a, s, ts[0].0, ts[0].1);
      AgentRunMoves(a, s, ts[0].0, ts[0].1);
      OneRunCounts(a, s, ts[0].0, ts[0].1);
      hide At, AgentRun, Settled;
      RunsEmpty(a, s1, ts[1..]);
    }
  }

  lemma EmptiedPools(a: Agent, s: Store, s': Store)
    requires a != Fila && Emptied(a, s, s')
    ensures At(s', Source(a)) == {} && At(s', Target(a)) == At(s, Target(a)) + At(s, Source(a))
    ensures forall st | st != Source(a) && st != Target(a) :: At(s', st) == At(s, st)
  {
  }

  /**
   From any settled store, running Cozinha, then Preparo, then Entrega as often as there are orders to move concludes
   every order.
   */
  lemma DrainConcludes(s: Store, ts1: seq<(Time, Time)>, ts2: seq<(Time, Time)>, ts3: seq<(Time, Time)>)
    requires Settled(s)
    requires |ts1| >= |At(s, FILA)|
    requires |ts2| >= |At(s, FILA)| + |At(s, PREPARO)|
    requires |ts3| >= |At(s, FILA)| + |At(s, PREPARO)| + |At(s, ENTREGA)|
    ensures var s' := Runs(Entrega, Runs(Preparo, Runs(Cozinha, s, ts1), ts2), ts3);
            |s'| == |s| && forall i | 0 <= i < |s| :: s'[i].status == CONCLUIDO && s'[i].id == s[i].id
  {
    RunsEmpty(Cozinha, s, ts1);
    RunsCount(Cozinha, s, ts1);
    var s1 := Runs(Cozinha, s, ts1);
    EmptiedPools(Cozinha, s, s1);
    assert At(s, PREPARO) !! At(s, FILA);
    RunsEmpty(Preparo, s1, ts2);
    RunsCount(Preparo, s1, ts2);
    var s2 := Runs(Preparo, s1, ts2);
    EmptiedPools(Preparo, s1, s2);
    assert At(s1, ENTREGA) !! At(s1, PREPARO);
    RunsEmpty(Entrega, s2, ts3);
    var s3 := Runs(Entrega, s2, ts3);
    forall i | 0 <= i < |s|
      ensures s3[i].status == CONCLUIDO && s3[i].id == s[i].id
    {
      assert s[i].status in {FILA, PREPARO, ENTREGA, CONCLUIDO};
    }
  }

  /** After n Fila runs from the empty store, n orders wait and nothing else is under way. */
  lemma {:induction false} OnlyOrdersQueue(ops: seq<Op>)
    requires FreshIds(ops) && forall i | 0 <= i < |ops| :: ops[i].Order?
    ensures |Schedule(ops)| == |ops| && |At(Schedule(ops), FILA)| == |ops|
    ensures At(Schedule(ops), PREPARO) == {} && At(Schedule(ops), ENTREGA) == {} && At(Schedule(ops), CONCLUIDO) == {}
  {
    if ops != [] {
      var s, op := Schedule(ops[..|ops| - 1]), ops[|ops| - 1];
      OnlyOrdersQueue(ops[..|ops| - 1]);
      var r := Advanced(NewRecord(op.id, op.itens, op.nome, op.t0), op.t1);
      PutFresh(s, r);
      PoolGrows(s, r, FILA);
      PoolGrows(s, r, PREPARO);
      PoolGrows(s, r, ENTREGA);
      PoolGrows(s, r, CONCLUIDO);
    }
  }

  lemma {:induction false} AllAt(s: Store, st: OrderStatus)
    ensures |At(s, st)| <= |s|
    ensures |At(s, st)| == |s| <==> forall i | 0 <= i < |s| :: s[i].status == st
  {
    if s != [] {
      var n := |s| - 1;
      AllAt(s[..n], st);
      assert s == s[..n] + [s[n]];
      PoolGrows(s[..n], s[n], st);
    }
  }

  /** The pools at FILA, PREPARO, ENTREGA and CONCLUIDO have these sizes. */
  ghost predicate Sizes(s: Store, f: nat, p: nat, e: nat, c: nat) {
    |At(s, FILA)| == f && |At(s, PREPARO)| == p && |At(s, ENTREGA)| == e && |At(s, CONCLUIDO)| == c
  }

  lemma RunsSizes(a: Agent, s: Store, ts: seq<(Time, Time)>, f: nat, p: nat, e: nat, c: nat)
    requires a != Fila && Settled(s) && Sizes(s, f, p, e, c)
    ensures var s', m := Runs(a, s, ts), Min(|ts|, |At(s, Source(a))|);
            && Settled(s') && |s'| == |s| && (forall i | 0 <= i < |s| :: s'[i].id == s[i].id)
            && (a == Cozinha ==> m <= f && Sizes(s', f - m, p + m, e, c))
            && (a == Preparo ==> m <= p && Sizes(s', f, p - m, e + m, c))
            && (a == Entrega ==> m <= e && Sizes(s', f, p, e - m, c + m))
  {
    RunsCount(a, s, ts);
    hide At, Settled, Runs;
  }

  lemma QueueDrains(s: Store, ts1: seq<(Time, Time)>, ts2: seq<(Time, Time)>, ts3: seq<(Time, Time)>)
    requires Settled(s) && Sizes(s, |s|, 0, 0, 0)
    ensures var s' := Runs(Entrega, Runs(Preparo, Runs(Cozinha, s, ts1), ts2), ts3);
            && |s'| == |s| && (forall i | 0 <= i < |s| :: s'[i].id == s[i].id)
            && |At(s', CONCLUIDO)| == Min(Min(Min(|s|, |ts1|), |ts2|), |ts3|)
  {
    hide At, Settled, Runs;
    RunsSizes(Cozinha, s, ts1, |s|, 0, 0, 0);
    var s1, m1 := Runs(Cozinha, s, ts1), Min(|ts1|, |s|);
    RunsSizes(Preparo, s1, ts2, |s| - m1, m1, 0, 0);
    var s2, m2 := Runs(Preparo, s1, ts2), Min(|ts2|, m1);
    RunsSizes(Entrega, s2, ts3, |s| - m1, m1 - m2, m2, 0);
  }

  /**
   After n Fila runs, as many orders are concluded as each of the three agents has had runs for: n runs of each conclude
   all n orders, and no fewer do.
   */
  lemma OrdersDrain(ops: seq<Op>, ts1: seq<(Time, Time)>, ts2: seq<(Time, Time)>, ts3: seq<(Time, Time)>)
    requires FreshIds(ops) && forall i | 0 <= i < |ops| :: ops[i].Order?
    ensures var s' := Runs(Entrega, Runs(Preparo, Runs(Cozinha, Schedule(ops), ts1), ts2), ts3);
            && |s'| == |Schedule(ops)| == |ops| && (forall i | 0 <= i < |ops| :: s'[i].id == Schedule(ops)[i].id)
            && |At(s', CONCLUIDO)| == Min(Min(Min(|ops|, |ts1|), |ts2|), |ts3|)
            && ((forall i | 0 <= i < |ops| :: s'[i].status == CONCLUIDO)
                <==> |ts1| >= |ops| && |ts2| >= |ops| && |ts3| >= |ops|)
  {
    OnlyOrdersQueue(ops);
    RefinesStack(ops);
    var s := Schedule(ops);
    assert Sizes(s, |ops|, 0, 0, 0);
    hide At, Settled, Runs, Schedule, FreshIds, Sizes;
    QueueDrains(s, ts1, ts2, ts3);
    var s' := Runs(Entrega, Runs(Preparo, Runs(Cozinha, s, ts1), ts2), ts3);
    AllAt(s', CONCLUIDO);
    assert |At(s', CONCLUIDO)| == |ops| <==> |ts1| >= |ops| && |ts2| >= |ops| && |ts3| >= |ops|;
  }
}
