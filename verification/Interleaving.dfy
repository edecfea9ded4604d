/**
 The pipelined regime: the four agents are threads of one process, each with at most one run in flight, and any
 interleaving of their steps is possible. `Order.advance` is split into reading the index, writing the status and
 writing the timeline; the scan for `active[-1]` reads one status per step.
 */
module Interleaving {
  import opened Strings
  import opened Orders
  import opened SerialRuns

  /** Where a run is, and the order it holds. `leg` is the index its commented transition starts from. */
  datatype Pc =
    | Idle
    | Scanning(snapshot: seq<nat>, next: nat, newest: Option<nat>)
    | Counting(held: nat)
    | Sleeping(held: nat, leg: nat)
    | ReadIndex(held: nat, leg: nat)
    | WriteStatus(held: nat, leg: nat, idx: nat)
    | WriteTimeline(held: nat, leg: nat)

  /** One executed assignment `self.status = sequence[idx + 1]`. */
  datatype Write = Write(agent: Agent, order: nat, leg: nat, from: nat, to: nat)

  /**
   All orders ever created (an order object is its index in `objs`), the dict as references in insertion order, the
   queue counter with the positions it has issued, one program counter an agent, and three history variables:
   the status writes, the stages whose timeline write came after a later status write, and the stages under which
   such a late write was filed instead.
   */
  datatype State = State(
    objs: seq<Record>, dict: seq<nat>, counter: nat, positions: seq<nat>,
    pc: map<Agent, Pc>, log: seq<Write>, overtaken: set<(nat, nat)>, covered: set<(nat, nat)>)

  /** A step of one agent's thread; the rest is what a new Fila run stores, and the clock. */
  datatype Event = Event(agent: Agent, id: string, nome: string, itens: seq<PastelItem>, now: Time)

  const START := State([], [], 0, [], map[Fila := Idle, Cozinha := Idle, Preparo := Idle, Entrega := Idle], [], {}, {})

  function StatusIndex(s: State, o: nat): nat
    requires o < |s.objs|
  {
    Index(s.objs[o].status)
  }

  /** The agent whose code makes the transition from index `leg`. */
  function Owner(leg: nat): Agent {
    if leg == 0 then Fila else if leg <= 2 then Cozinha else if leg == 3 then Preparo else Entrega
  }

  /** The index an agent means to take orders from. */
  function SourceIndex(a: Agent): nat {
    Index(Source(a))
  }

  predicate HeldBelow(pc: Pc, n: nat) {
    match pc
    case Idle => true
    case Scanning(snapshot, next, newest) =>
      (forall i | 0 <= i < |snapshot| :: snapshot[i] < n) && next <= |snapshot| && (newest.Some? ==> newest.value < n)
    case Counting(h) => h < n
    case Sleeping(h, _) => h < n
    case ReadIndex(h, _) => h < n
    case WriteStatus(h, _, idx) => h < n && idx < 5
    case WriteTimeline(h, _) => h < n
  }

  ghost predicate WellFormed(s: State) {
    && (forall a: Agent :: a in s.pc && HeldBelow(s.pc[a], |s.objs|))
    && (forall i | 0 <= i < |s.dict| :: s.dict[i] < |s.objs|)
  }

  /** `_orders[id] = order` on references. */
  function PutRef(objs: seq<Record>, dict: seq<nat>, id: string, o: nat): seq<nat>
    requires forall i | 0 <= i < |dict| :: dict[i] < |objs|
  {
    if dict == [] then [o]
    else if objs[dict[0]].id == id then [o] + dict[1..]
    else [dict[0]] + PutRef(objs, dict[1..], id, o)
  }

  lemma {:induction false} PutRefBelow(objs: seq<Record>, dict: seq<nat>, id: string, o: nat)
    requires forall i | 0 <= i < |dict| :: dict[i] < |objs|
    ensures forall i | 0 <= i < |PutRef(objs, dict, id, o)| ::
      PutRef(objs, dict, id, o)[i] < |objs| || PutRef(objs, dict, id, o)[i] == o
    ensures (forall i | 0 <= i < |dict| :: objs[dict[i]].id != id) ==> PutRef(objs, dict, id, o) == dict + [o]
  {
    if dict != [] { PutRefBelow(objs, dict[1..], id, o); }
  }

  /** What follows an `advance()`: Cozinha sleeps after its first, every other run is over. */
  function Afterwards(h: nat, leg: nat): Pc {
    if leg == 1 then Sleeping(h, 2) else Idle
  }

  /** What follows a scan that has reached the end of its snapshot. */
  function Chosen(a: Agent, newest: Option<nat>): Pc {
    match newest
    case None => Idle
    case Some(h) => if a == Preparo then Sleeping(h, 3) else ReadIndex(h, SourceIndex(a))
  }

  /** The next step of an agent's thread. */
  function Step(s: State, e: Event): State
    requires WellFormed(s)
  {
    var a := e.agent;
    match s.pc[a]
    case Idle =>
      if a == Fila then
        s.(objs := s.objs + [NewRecord(e.id, e.itens, e.nome, e.now)],
           dict := PutRef(s.objs, s.dict, e.id, |s.objs|),
           pc := s.pc[a := Counting(|s.objs|)])
      else s.(pc := s.pc[a := Scanning(s.dict, 0, None)])
    case Scanning(snapshot, next, newest) =>
      if next < |snapshot| then
        var o := snapshot[next];
        s.(pc := s.pc[a := Scanning(snapshot, next + 1, if Eligible(a, s.objs[o].status) then Some(o) else newest)])
      else s.(pc := s.pc[a := Chosen(a, newest)])
    case Counting(h) =>
      s.(counter := s.counter + 1, positions := s.positions + [s.counter + 1], pc := s.pc[a := ReadIndex(h, 0)])
    case Sleeping(h, leg) => s.(pc := s.pc[a := ReadIndex(h, leg)])
    case ReadIndex(h, leg) =>
      var idx := StatusIndex(s, h);
      s.(pc := s.pc[a := if idx < 5 then WriteStatus(h, leg, idx) else Afterwards(h, leg)])
    case WriteStatus(h, leg, idx) =>
      s.(objs := s.objs[h := s.objs[h].(status := AtIndex(idx + 1))],
         log := s.log + [Write(a, h, leg, StatusIndex(s, h), idx + 1)],
         pc := s.pc[a := WriteTimeline(h, leg)])
    case WriteTimeline(h, leg) =>
      var r := s.objs[h];
      s.(objs := s.objs[h := r.(timeline := r.timeline[r.status := e.now])],
         overtaken := if Index(r.status) > leg + 1 then s.overtaken + {(h, leg + 1)} else s.overtaken,
         covered := if Index(r.status) > leg + 1 then s.covered + {(h, Index(r.status))} else s.covered,
         pc := s.pc[a := Afterwards(h, leg)])
  }

  lemma StepWellFormed(s: State, e: Event)
    requires WellFormed(s)
    ensures WellFormed(Step(s, e))
  {
    PutRefBelow(s.objs, s.dict, e.id, |s.objs|);
    var a, s' := e.agent, Step(s, e);
    assert HeldBelow(s.pc[a], |s.objs|);
    forall b: Agent
      ensures b in s'.pc && HeldBelow(s'.pc[b], |s'.objs|)
    {
      assert HeldBelow(s.pc[b], |s.objs|);
    }
  }

  lemma StartSafe()
    ensures WellFormed(START) && Safe(START)
  {
    forall a: Agent
      ensures a in START.pc && START.pc[a] == Idle
    {
      match a
      case Fila => case Cozinha => case Preparo => case Entrega =>
    }
  }

  /** The state after a schedule. */
  ghost function Exec(es: seq<Event>): (s: State)
    ensures WellFormed(s)
  {
    if es == [] then StartSafe(); START
    else
      var s := Exec(es[..|es| - 1]);
      StepWellFormed(s, es[|es| - 1]);
      Step(s, es[|es| - 1])
  }

  /* ---------- the invariant ---------- */

  /** What a run in flight may rely on about the order it holds. */
  predicate PcHolds(s: State, a: Agent, pc: Pc)
    requires HeldBelow(pc, |s.objs|)
  {
    match pc
    case Idle => true
    case Scanning(_, _, newest) => a != Fila && (newest.Some? ==> StatusIndex(s, newest.value) == SourceIndex(a))
    case Counting(h) => a == Fila && StatusIndex(s, h) == 0
    case Sleeping(h, leg) => leg < 5 && Owner(leg) == a && StatusIndex(s, h) == leg
    case ReadIndex(h, leg) => leg < 5 && Owner(leg) == a && StatusIndex(s, h) == leg
    case WriteStatus(h, leg, idx) => leg < 5 && Owner(leg) == a && StatusIndex(s, h) == leg && idx == leg
    case WriteTimeline(h, leg) =>
      leg < 5 && Owner(leg) == a && StatusIndex(s, h) > leg && (leg == 1 ==> StatusIndex(s, h) == 2)
  }

  /** A run holds order `o` in the middle of an executor's body, at index `i`. */
  predicate InHand(pc: Pc, o: nat, i: nat) {
    match pc
    case Idle => false
    case Scanning(_, _, _) => false
    case Counting(h) => h == o && i == 0
    case Sleeping(h, leg) => h == o && leg == i
    case ReadIndex(h, leg) => h == o && leg == i
    case WriteStatus(h, leg, _) => h == o && leg == i
    case WriteTimeline(h, leg) => h == o && leg + 1 == i
  }

  ghost predicate Safe(s: State) {
    && WellFormed(s)
    && (forall a: Agent :: PcHolds(s, a, s.pc[a]))
    && (forall o | 0 <= o < |s.objs| && StatusIndex(s, o) == 0 :: InHand(s.pc[Fila], o, 0))
    && (forall o | 0 <= o < |s.objs| && StatusIndex(s, o) == 2 :: InHand(s.pc[Cozinha], o, 2))
  }

  /** Another agent's run is not disturbed when the owner of a leg writes the status of its order. */
  lemma WriteKeepsOthers(s: State, s': State, a: Agent, b: Agent)
    requires Safe(s) && b != a && s.pc[a].WriteStatus?
    requires s'.objs == s.objs[s.pc[a].held := s.objs[s.pc[a].held].(status := AtIndex(s.pc[a].idx + 1))]
    ensures PcHolds(s', b, s.pc[b])
  {
  }

  lemma KeepsOthers(s: State, s': State, b: Agent)
    requires Safe(s) && |s'.objs| >= |s.objs|
    requires forall o | 0 <= o < |s.objs| :: s'.objs[o].status == s.objs[o].status
    ensures PcHolds(s', b, s.pc[b])
  {
  }

  lemma StepFrame(s: State, e: Event, b: Agent)
    requires WellFormed(s) && b != e.agent
    ensures b in Step(s, e).pc && Step(s, e).pc[b] == s.pc[b] && |Step(s, e).objs| >= |s.objs|
    ensures !s.pc[e.agent].WriteStatus? ==>
      forall o | 0 <= o < |s.objs| :: Step(s, e).objs[o].status == s.objs[o].status
  {
  }

  lemma StepPcHolds(s: State, e: Event, b: Agent)
    requires Safe(s)
    ensures WellFormed(Step(s, e)) && PcHolds(Step(s, e), b, Step(s, e).pc[b])
  {
    StepWellFormed(s, e);
    if b == e.agent {
      OwnPcHolds(s, e);
    } else {
      StepFrame(s, e, b);
      if s.pc[e.agent].WriteStatus? {
        WriteKeepsOthers(s, Step(s, e), e.agent, b);
      } else {
        hide Step, PcHolds;
        KeepsOthers(s, Step(s, e), b);
      }
    }
  }

  lemma OwnPcHolds(s: State, e: Event)
    requires Safe(s)
    ensures WellFormed(Step(s, e)) && PcHolds(Step(s, e), e.agent, Step(s, e).pc[e.agent])
  {
    StepWellFormed(s, e);
    var a := e.agent;
    assert PcHolds(s, a, s.pc[a]);
    if s.pc[a].Scanning? && s.pc[a].next < |s.pc[a].snapshot| {
      var o := s.pc[a].snapshot[s.pc[a].next];
      if Eligible(a, s.objs[o].status) {
        ScannedIsAtSource(s, a, o);
      }
    }
  }

  /**
   While an agent scans, an order it finds eligible is at its source: an order at COZINHA is in a Cozinha run's hands.
   */
  lemma ScannedIsAtSource(s: State, a: Agent, o: nat)
    requires Safe(s) && s.pc[a].Scanning? && o < |s.objs| && Eligible(a, s.objs[o].status)
    ensures StatusIndex(s, o) == SourceIndex(a)
  {
  }

  lemma StepInHand(s: State, e: Event, o: nat)
    requires Safe(s) && WellFormed(Step(s, e)) && o < |Step(s, e).objs|
    ensures StatusIndex(Step(s, e), o) == 0 ==> InHand(Step(s, e).pc[Fila], o, 0)
    ensures StatusIndex(Step(s, e), o) == 2 ==> InHand(Step(s, e).pc[Cozinha], o, 2)
  {
    var a := e.agent;
    assert PcHolds(s, a, s.pc[a]);
    if o < |s.objs| {
      assert StatusIndex(s, o) == 0 ==> InHand(s.pc[Fila], o, 0);
      assert StatusIndex(s, o) == 2 ==> InHand(s.pc[Cozinha], o, 2);
    }
  }

  lemma StepSafe(s: State, e: Event)
    requires Safe(s)
    ensures Safe(Step(s, e))
  {
    StepWellFormed(s, e);
    forall b: Agent
      ensures PcHolds(Step(s, e), b, Step(s, e).pc[b])
    {
      StepPcHolds(s, e, b);
    }
    forall o | 0 <= o < |Step(s, e).objs|
      ensures StatusIndex(Step(s, e), o) == 0 ==> InHand(Step(s, e).pc[Fila], o, 0)
      ensures StatusIndex(Step(s, e), o) == 2 ==> InHand(Step(s, e).pc[Cozinha], o, 2)
    {
      StepInHand(s, e, o);
    }
  }

  lemma {:induction false} AlwaysSafe(es: seq<Event>)
    ensures Safe(Exec(es))
  {
    if es == [] {
      StartSafe();
    } else {
      AlwaysSafe(es[..|es| - 1]);
      StepSafe(Exec(es[..|es| - 1]), es[|es| - 1]);
    }
  }

  /* ---------- every status write is the commented transition ---------- */

  /** The writes made on one order, in execution order. */
  function WritesOn(log: seq<Write>, o: nat): seq<Write> {
    if log == [] then []
    else WritesOn(log[..|log| - 1], o) + if log[|log| - 1].order == o then [log[|log| - 1]] else []
  }

  /** The commented transitions up to index `i`, each made by its own agent. */
  function Ladder(o: nat, i: nat): seq<Write> {
    if i == 0 then [] else Ladder(o, i - 1) + [Write(Owner(i - 1), o, i - 1, i - 1, i)]
  }

  ghost predicate Laddered(s: State) {
    && (forall i | 0 <= i < |s.log| :: s.log[i].order < |s.objs|)
    && (forall o | 0 <= o < |s.objs| :: WritesOn(s.log, o) == Ladder(o, StatusIndex(s, o)))
  }

  lemma {:induction false} NoWritesOn(log: seq<Write>, o: nat)
    requires forall i | 0 <= i < |log| :: log[i].order != o
    ensures WritesOn(log, o) == []
  {
    if log != [] { NoWritesOn(log[..|log| - 1], o); }
  }

  lemma StepLaddered(s: State, e: Event)
    requires Safe(s) && Laddered(s)
    ensures Laddered(Step(s, e))
  {
    var a, s' := e.agent, Step(s, e);
    assert PcHolds(s, a, s.pc[a]);
    assert HeldBelow(s.pc[a], |s.objs|);
    forall o | 0 <= o < |s'.objs|
      ensures WritesOn(s'.log, o) == Ladder(o, StatusIndex(s', o))
    {
      if o == |s.objs| {
        NoWritesOn(s.log, o);
      } else if s.pc[a].WriteStatus? {
        assert s'.log[..|s.log|] == s.log;
      }
    }
  }

  /**
   In every interleaving the writes on each order are exactly the commented transitions from PEDIDO to its status,
   once each, in order.
   */
  lemma {:induction false} EveryWriteIsCommented(es: seq<Event>)
    ensures Laddered(Exec(es))
  {
    if es != [] {
      AlwaysSafe(es[..|es| - 1]);
      EveryWriteIsCommented(es[..|es| - 1]);
      StepLaddered(Exec(es[..|es| - 1]), es[|es| - 1]);
    }
  }

  /* ---------- what the timeline holds ---------- */

  lemma StatusNeverDecreases(s: State, e: Event, o: nat)
    requires Safe(s) && o < |s.objs|
    ensures |Step(s, e).objs| >= |s.objs| && Index(Step(s, e).objs[o].status) >= StatusIndex(s, o)
    ensures Step(s, e).objs[o].id == s.objs[o].id && Step(s, e).objs[o].itens == s.objs[o].itens
  {
    assert PcHolds(s, e.agent, s.pc[e.agent]);
  }

  /** Entry `j` of the timeline of `o` is still to be written by the run that made the step. */
  predicate Pending(s: State, o: nat, j: nat)
    requires 1 <= j <= 5 && Owner(j - 1) in s.pc
  {
    s.pc[Owner(j - 1)] == WriteTimeline(o, j - 1)
  }

  /**
   A stage reached is recorded once its own write is over, unless that write came late; a late write may record it
   too.
   */
  ghost predicate RecordedAt(s: State, o: nat, st: OrderStatus)
    requires WellFormed(s) && o < |s.objs| && Index(st) >= 1
  {
    st in s.objs[o].timeline <==>
    (!Pending(s, o, Index(st)) && (o, Index(st)) !in s.overtaken) || (o, Index(st)) in s.covered
  }

  /** Only stages passed are overtaken, and only by another agent: Cozinha makes the transition after COZINHA itself. */
  ghost predicate Marked(s: State) {
    && (forall m | m in s.overtaken :: m.0 < |s.objs| && m.1 < StatusIndex(s, m.0) && m.1 in {1, 3, 4})
    && (forall m | m in s.covered :: m.0 < |s.objs| && m.1 <= StatusIndex(s, m.0))
  }

  /** No stage is recorded before it is reached, and which of the stages reached are recorded. */
  ghost predicate Recorded(s: State)
    requires WellFormed(s)
  {
    && Marked(s)
    && forall o | 0 <= o < |s.objs| ::
         && PEDIDO in s.objs[o].timeline
         && (forall st | st in s.objs[o].timeline :: Index(st) <= StatusIndex(s, o))
         && (forall st: OrderStatus | 1 <= Index(st) <= StatusIndex(s, o) :: RecordedAt(s, o, st))
  }

  lemma StepMarked(s: State, e: Event)
    requires Safe(s) && Marked(s)
    ensures Marked(Step(s, e))
  {
    assert PcHolds(s, e.agent, s.pc[e.agent]) && HeldBelow(s.pc[e.agent], |s.objs|);
  }

  lemma StepRecorded(s: State, e: Event)
    requires Safe(s) && Recorded(s)
    ensures WellFormed(Step(s, e)) && Recorded(Step(s, e))
  {
    StepWellFormed(s, e);
    StepMarked(s, e);
    var s' := Step(s, e);
    forall o | 0 <= o < |s'.objs|
      ensures PEDIDO in s'.objs[o].timeline && forall st | st in s'.objs[o].timeline :: Index(st) <= StatusIndex(s', o)
    {
      NothingEarly(s, e, o);
    }
    forall o, st: OrderStatus | 0 <= o < |s'.objs| && 1 <= Index(st) <= StatusIndex(s', o)
      ensures RecordedAt(s', o, st)
    {
      StageRecorded(s, e, o, st);
    }
  }

  lemma NothingEarly(s: State, e: Event, o: nat)
    requires Safe(s) && Recorded(s) && o < |Step(s, e).objs|
    ensures PEDIDO in Step(s, e).objs[o].timeline
    ensures forall st | st in Step(s, e).objs[o].timeline :: Index(st) <= StatusIndex(Step(s, e), o)
  {
    assert PcHolds(s, e.agent, s.pc[e.agent]) && HeldBelow(s.pc[e.agent], |s.objs|);
  }

  lemma StageRecorded(s: State, e: Event, o: nat, st: OrderStatus)
    requires Safe(s) && Recorded(s) && WellFormed(Step(s, e))
    requires o < |Step(s, e).objs| && 1 <= Index(st) <= StatusIndex(Step(s, e), o)
    ensures RecordedAt(Step(s, e), o, st)
  {
    var a := e.agent;
    assert PcHolds(s, a, s.pc[a]) && HeldBelow(s.pc[a], |s.objs|);
    if o < |s.objs| && Index(st) <= StatusIndex(s, o) {
      assert RecordedAt(s, o, st);
      if s.pc[a].WriteTimeline? {
        TimelineWritten(s, e, o, st);
      } else {
        StageKept(s, e, o, st);
      }
    } else {
      StageReached(s, e, o, st);
    }
  }

  lemma StageKept(s: State, e: Event, o: nat, st: OrderStatus)
    requires WellFormed(s) && !s.pc[e.agent].WriteTimeline? && WellFormed(Step(s, e))
    requires PcHolds(s, e.agent, s.pc[e.agent])
    requires o < |s.objs| && 1 <= Index(st) <= StatusIndex(s, o) && RecordedAt(s, o, st)
    ensures RecordedAt(Step(s, e), o, st)
  {
  }

  lemma StageReached(s: State, e: Event, o: nat, st: OrderStatus)
    requires WellFormed(s) && PcHolds(s, e.agent, s.pc[e.agent]) && WellFormed(Step(s, e)) && Recorded(s)
    requires o < |Step(s, e).objs| && 1 <= Index(st) <= StatusIndex(Step(s, e), o)
    requires o < |s.objs| ==> StatusIndex(s, o) < Index(st)
    ensures Pending(Step(s, e), o, Index(st)) && RecordedAt(Step(s, e), o, st)
  {
  }

  lemma TimelineWritten(s: State, e: Event, o: nat, st: OrderStatus)
    requires WellFormed(s) && s.pc[e.agent].WriteTimeline? && PcHolds(s, e.agent, s.pc[e.agent]) && Marked(s)
    requires o < |s.objs| && 1 <= Index(st) <= StatusIndex(s, o) && WellFormed(Step(s, e)) && RecordedAt(s, o, st)
    ensures RecordedAt(Step(s, e), o, st)
  {
  }

  /**
   In every interleaving no unreached stage is recorded, and the stages recorded are determined by the late writes.
   */
  lemma {:induction false} TimelineSafe(es: seq<Event>)
    ensures Recorded(Exec(es))
  {
    if es != [] {
      AlwaysSafe(es[..|es| - 1]);
      TimelineSafe(es[..|es| - 1]);
      StepRecorded(Exec(es[..|es| - 1]), es[|es| - 1]);
    }
  }

  /**
   A stage that was reached, and whose write is not still to come, is missing exactly when its write came late and no
   other late write was filed under it. Only FILA, PREPARO and ENTREGA can go missing.
   */
  lemma MissingIff(es: seq<Event>, o: nat, st: OrderStatus)
    requires o < |Exec(es).objs| && 1 <= Index(st) <= StatusIndex(Exec(es), o) && !Pending(Exec(es), o, Index(st))
    ensures var s := Exec(es);
            st !in s.objs[o].timeline <==> (o, Index(st)) in s.overtaken && (o, Index(st)) !in s.covered
    ensures st !in Exec(es).objs[o].timeline ==> st in {FILA, PREPARO, ENTREGA} && Index(st) < StatusIndex(Exec(es), o)
  {
    TimelineSafe(es);
    assert RecordedAt(Exec(es), o, st);
  }

  lemma ExecStep(es: seq<Event>, e: Event)
    ensures Exec(es + [e]) == Step(Exec(es), e)
  {
  }

  /** One order, at `st` with timeline `t`, and the stages overtaken and covered so far. */
  ghost predicate One(s: State, st: OrderStatus, t: map<OrderStatus, Time>,
                      lost: set<(nat, nat)>, found: set<(nat, nat)>)
  {
    && s.dict == [0] && s.objs == [NewRecord("a", [], "Ana", 0).(status := st, timeline := t)]
    && s.overtaken == lost && s.covered == found
  }

  lemma Then(es: seq<Event>, e: Event) returns (more: seq<Event>)
    ensures more == es + [e] && Exec(more) == Step(Exec(es), e)
  {
    ExecStep(es, e);
    more := es + [e];
  }

  /** Fila has stored order 0 and written its status, but not yet its timeline. */
  lemma FilaHalfway() returns (es: seq<Event>)
    ensures Exec(es).pc == START.pc[Fila := WriteTimeline(0, 0)]
    ensures One(Exec(es), FILA, map[PEDIDO := 0], {}, {})
  {
    assert Exec([]) == START;
    hide Exec;
    var f := Event(Fila, "a", "Ana", [], 0);
    es := Then([], f);
    assert Exec(es).pc == START.pc[Fila := Counting(0)] && One(Exec(es), PEDIDO, map[PEDIDO := 0], {}, {});
    es := Then(es, f);
    assert Exec(es).pc == START.pc[Fila := ReadIndex(0, 0)] && One(Exec(es), PEDIDO, map[PEDIDO := 0], {}, {});
    es := Then(es, f);
    assert Exec(es).pc == START.pc[Fila := WriteStatus(0, 0, 0)] && One(Exec(es), PEDIDO, map[PEDIDO := 0], {}, {});
    es := Then(es, f);
  }

  /** An agent scans and finds order 0 at its source. */
  lemma Finds(es0: seq<Event>, a: Agent, t: map<OrderStatus, Time>, lost: set<(nat, nat)>, found: set<(nat, nat)>)
    returns (es: seq<Event>)
    requires a != Fila && Exec(es0).pc[a] == Idle && One(Exec(es0), Source(a), t, lost, found)
    ensures Exec(es).pc == Exec(es0).pc[a := Chosen(a, Some(0))] && One(Exec(es), Source(a), t, lost, found)
  {
    hide Exec;
    var e := Event(a, "", "", [], 0);
    ghost var pc := Exec(es0).pc;
    es := Then(es0, e);
    assert Exec(es).pc == pc[a := Scanning([0], 0, None)] && One(Exec(es), Source(a), t, lost, found);
    es := Then(es, e);
    assert Exec(es).pc == pc[a := Scanning([0], 1, Some(0))] && One(Exec(es), Source(a), t, lost, found);
    es := Then(es, e);
  }

  /** An agent reads the index of order 0 and writes its next status. */
  lemma Writes(es0: seq<Event>, a: Agent, leg: nat, t: map<OrderStatus, Time>,
               lost: set<(nat, nat)>, found: set<(nat, nat)>)
    returns (es: seq<Event>)
    requires leg < 5 && Exec(es0).pc[a] == ReadIndex(0, leg) && One(Exec(es0), AtIndex(leg), t, lost, found)
    ensures Exec(es).pc == Exec(es0).pc[a := WriteTimeline(0, leg)] && One(Exec(es), AtIndex(leg + 1), t, lost, found)
  {
    hide Exec;
    var e := Event(a, "", "", [], 0);
    ghost var pc := Exec(es0).pc;
    es := Then(es0, e);
    assert Exec(es).pc == pc[a := WriteStatus(0, leg, leg)] && One(Exec(es), AtIndex(leg), t, lost, found);
    es := Then(es, e);
  }

  /** An agent takes order 0 from its source and writes the next status. */
  lemma TakesUp(es0: seq<Event>, a: Agent, t: map<OrderStatus, Time>, lost: set<(nat, nat)>, found: set<(nat, nat)>)
    returns (es: seq<Event>)
    requires a != Fila && Exec(es0).pc[a] == Idle && One(Exec(es0), Source(a), t, lost, found)
    ensures Exec(es).pc == Exec(es0).pc[a := WriteTimeline(0, SourceIndex(a))]
    ensures One(Exec(es), AtIndex(SourceIndex(a) + 1), t, lost, found)
  {
    hide Exec;
    es := Finds(es0, a, t, lost, found);
    if a == Preparo {
      es := Then(es, Event(a, "", "", [], 0));
    }
    hide Step, One;
    es := Writes(es, a, SourceIndex(a), t, lost, found);
  }

  /** Cozinha files COZINHA, sleeps, and writes PREPARO. */
  lemma WakesUp(es0: seq<Event>, t: map<OrderStatus, Time>, lost: set<(nat, nat)>, found: set<(nat, nat)>)
    returns (es: seq<Event>)
    requires Exec(es0).pc[Cozinha] == WriteTimeline(0, 1) && One(Exec(es0), COZINHA, t, lost, found)
    ensures Exec(es).pc == Exec(es0).pc[Cozinha := WriteTimeline(0, 2)]
    ensures One(Exec(es), PREPARO, t[COZINHA := 0], lost, found)
  {
    hide Exec;
    var e := Event(Cozinha, "", "", [], 0);
    es := Then(es0, e);
    assert Exec(es).pc == Exec(es0).pc[Cozinha := Sleeping(0, 2)];
    assert One(Exec(es), COZINHA, t[COZINHA := 0], lost, found);
    es := Then(es, e);
    hide Step, One;
    es := Writes(es, Cozinha, 2, t[COZINHA := 0], lost, found);
  }

  /** A write of the timeline that comes late is filed under the status the order has by then. */
  lemma FilesLate(es0: seq<Event>, a: Agent, leg: nat, st: OrderStatus, t: map<OrderStatus, Time>,
                  lost: set<(nat, nat)>, found: set<(nat, nat)>) returns (es: seq<Event>)
    requires Exec(es0).pc[a] == WriteTimeline(0, leg) && leg != 1 && leg + 1 < Index(st)
    requires One(Exec(es0), st, t, lost, found)
    ensures Exec(es).pc == Exec(es0).pc[a := Idle]
    ensures One(Exec(es), st, t[st := 0], lost + {(0, leg + 1)}, found + {(0, Index(st))})
  {
    hide Exec;
    es := Then(es0, Event(a, "", "", [], 0));
  }

  /** FILA is lost, and Cozinha has written PREPARO but not filed it. */
  lemma LosesFila() returns (es: seq<Event>)
    ensures Exec(es).pc == START.pc[Cozinha := WriteTimeline(0, 2)]
    ensures One(Exec(es), PREPARO, map[PEDIDO := 0, COZINHA := 0], {(0, 1)}, {(0, 2)})
  {
    hide Exec, Step, One;
    var t, none: set<(nat, nat)> := map[PEDIDO := 0], {};
    es := FilaHalfway();
    es := TakesUp(es, Cozinha, t, none, none);
    es := FilesLate(es, Fila, 0, COZINHA, t, none, none);
    var lost, found := none + {(0, 0 + 1)}, none + {(0, Index(COZINHA))};
    es := WakesUp(es, t[COZINHA := 0], lost, found);
    assert t[COZINHA := 0][COZINHA := 0] == map[PEDIDO := 0, COZINHA := 0] && lost == {(0, 1)} && found == {(0, 2)};
  }

  /** Preparo and Entrega move the order on. */
  lemma RunsAhead(es0: seq<Event>, t: map<OrderStatus, Time>, lost: set<(nat, nat)>, found: set<(nat, nat)>)
    returns (es: seq<Event>)
    requires Exec(es0).pc == START.pc[Cozinha := WriteTimeline(0, 2)] && One(Exec(es0), PREPARO, t, lost, found)
    ensures Exec(es).pc ==
            START.pc[Cozinha := WriteTimeline(0, 2)][Preparo := WriteTimeline(0, 3)][Entrega := WriteTimeline(0, 4)]
    ensures One(Exec(es), CONCLUIDO, t, lost, found)
  {
    hide Exec, Step, One;
    es := TakesUp(es0, Preparo, t, lost, found);
    es := TakesUp(es, Entrega, t, lost, found);
  }

  /** Then Cozinha and Preparo file late, and PREPARO and ENTREGA are lost. */
  lemma FilesBoth(es0: seq<Event>, t: map<OrderStatus, Time>, lost: set<(nat, nat)>, found: set<(nat, nat)>)
    returns (es: seq<Event>)
    requires Exec(es0).pc ==
             START.pc[Cozinha := WriteTimeline(0, 2)][Preparo := WriteTimeline(0, 3)][Entrega := WriteTimeline(0, 4)]
    requires One(Exec(es0), CONCLUIDO, t, lost, found)
    ensures Exec(es).pc == START.pc[Entrega := WriteTimeline(0, 4)]
    ensures One(Exec(es), CONCLUIDO, t[CONCLUIDO := 0][CONCLUIDO := 0], Exec(es).overtaken, Exec(es).covered)
  {
    hide Exec, Step;
    es := FilesLate(es0, Cozinha, 2, CONCLUIDO, t, lost, found);
    assert Exec(es).pc == START.pc[Preparo := WriteTimeline(0, 3)][Entrega := WriteTimeline(0, 4)];
    es := FilesLate(es, Preparo, 3, CONCLUIDO, t[CONCLUIDO := 0], Exec(es).overtaken, Exec(es).covered);
  }

  /** All three can go missing from one order: each agent moves it on between the two writes of the one before. */
  lemma TimelineCanLoseThree() returns (es: seq<Event>)
    ensures Exec(es).objs ==
      [NewRecord("a", [], "Ana", 0).(status := CONCLUIDO, timeline := map[PEDIDO := 0, COZINHA := 0, CONCLUIDO := 0])]
    ensures Exec(es).pc == START.pc
  {
    hide Exec, Step, One;
    es := LosesFila();
    var t := map[PEDIDO := 0, COZINHA := 0];
    es := RunsAhead(es, t, {(0, 1)}, {(0, 2)});
    es := FilesBoth(es, t, {(0, 1)}, {(0, 2)});
    es := FilesLast(es, t[CONCLUIDO := 0][CONCLUIDO := 0]);
    assert t[CONCLUIDO := 0][CONCLUIDO := 0][CONCLUIDO := 0] == map[PEDIDO := 0, COZINHA := 0, CONCLUIDO := 0];
  }

  lemma FilesLast(es0: seq<Event>, t: map<OrderStatus, Time>) returns (es: seq<Event>)
    requires Exec(es0).pc == START.pc[Entrega := WriteTimeline(0, 4)]
    requires One(Exec(es0), CONCLUIDO, t, Exec(es0).overtaken, Exec(es0).covered)
    ensures Exec(es).objs == [NewRecord("a", [], "Ana", 0).(status := CONCLUIDO, timeline := t[CONCLUIDO := 0])]
    ensures Exec(es).pc == START.pc
  {
    hide Exec;
    es := Then(es0, Event(Entrega, "", "", [], 0));
  }

  /** A late write can also fill in a stage whose own write came late: here Fila's does so for Cozinha's. */
  lemma LateWriteCovers() returns (es: seq<Event>)
    ensures One(Exec(es), ENTREGA, map[PEDIDO := 0, COZINHA := 0, PREPARO := 0, ENTREGA := 0],
                {(0, 1), (0, 3)}, {(0, 3), (0, 4)})
  {
    hide Exec, Step, One;
    var t, none: set<(nat, nat)> := map[PEDIDO := 0], {};
    es := FilaHalfway();
    es := TakesUp(es, Cozinha, t, none, none);
    es := WakesUp(es, t, none, none);
    es := FilesLate(es, Fila, 0, PREPARO, t[COZINHA := 0], none, none);
    var t', lost, found := t[COZINHA := 0][PREPARO := 0], none + {(0, 0 + 1)}, none + {(0, Index(PREPARO))};
    es := TakesUp(es, Preparo, t', lost, found);
    es := FilesLate(es, Cozinha, 2, ENTREGA, t', lost, found);
    assert t'[ENTREGA := 0] == map[PEDIDO := 0, COZINHA := 0, PREPARO := 0, ENTREGA := 0];
    assert lost + {(0, 2 + 1)} == {(0, 1), (0, 3)} && found + {(0, Index(ENTREGA))} == {(0, 3), (0, 4)};
  }

  /* ---------- flow conservation ---------- */

  function AtStage(objs: seq<Record>, k: nat): nat {
    if objs == [] then 0
    else AtStage(objs[..|objs| - 1], k) + if Index(objs[|objs| - 1].status) == k then 1 else 0
  }

  /** How often the agent that owns transition `leg` has made it. */
  function Made(log: seq<Write>, leg: nat): nat {
    if log == [] then 0
    else Made(log[..|log| - 1], leg) + if log[|log| - 1].leg == leg && log[|log| - 1].agent == Owner(leg) then 1 else 0
  }

  lemma {:induction false} AtStageUpdate(objs: seq<Record>, h: nat, r: Record, k: nat)
    requires h < |objs|
    ensures AtStage(objs[h := r], k) + (if Index(objs[h].status) == k then 1 else 0)
         == AtStage(objs, k) + (if Index(r.status) == k then 1 else 0)
  {
    var n := |objs| - 1;
    if h < n {
      assert objs[h := r][..n] == objs[..n][h := r];
      AtStageUpdate(objs[..n], h, r, k);
    } else {
      assert objs[h := r][..n] == objs[..n];
    }
  }

  /** The orders at stage `k` are those its makers have brought there less those the next agent has taken on. */
  ghost predicate ConservedAt(s: State, k: nat) {
    AtStage(s.objs, k) + (if k < 5 then Made(s.log, k) else 0) == if k == 0 then |s.objs| else Made(s.log, k - 1)
  }

  ghost predicate Conserved(s: State) {
    forall k: nat | k <= 5 :: ConservedAt(s, k)
  }

  lemma WriteConserved(s: State, e: Event, k: nat)
    requires Safe(s) && k <= 5 && ConservedAt(s, k) && s.pc[e.agent].WriteStatus?
    ensures ConservedAt(Step(s, e), k)
  {
    var a, s' := e.agent, Step(s, e);
    assert PcHolds(s, a, s.pc[a]) && HeldBelow(s.pc[a], |s.objs|);
    hide Safe, WellFormed;
    var h := s.pc[a].held;
    AtStageUpdate(s.objs, h, s'.objs[h], k);
    assert s'.log[..|s.log|] == s.log;
  }

  lemma StepConserved(s: State, e: Event, k: nat)
    requires Safe(s) && k <= 5 && ConservedAt(s, k)
    ensures ConservedAt(Step(s, e), k)
  {
    var a, s' := e.agent, Step(s, e);
    if s.pc[a].WriteStatus? {
      WriteConserved(s, e, k);
    } else if s.pc[a].WriteTimeline? {
      AtStageUpdate(s.objs, s.pc[a].held, s'.objs[s.pc[a].held], k);
    } else if s.pc[a].Idle? && a == Fila {
      assert s'.objs[..|s.objs|] == s.objs;
    }
  }

  lemma {:induction false} StagesCoverAll(objs: seq<Record>)
    ensures AtStage(objs, 0) + AtStage(objs, 1) + AtStage(objs, 2)
            + AtStage(objs, 3) + AtStage(objs, 4) + AtStage(objs, 5) == |objs|
  {
    if objs != [] { StagesCoverAll(objs[..|objs| - 1]); }
  }

  /**
   In every interleaving flow is conserved, counted by the transitions each agent makes on its own account: PEDIDO
   holds what was stored less what Fila queued, FILA what Fila queued less what Cozinha started, and so on to
   CONCLUIDO, which holds what Entrega delivered. The stages together hold every order.
   */
  lemma {:induction false} FlowConserved(es: seq<Event>)
    ensures Conserved(Exec(es))
    ensures var objs := Exec(es).objs;
            AtStage(objs, 0) + AtStage(objs, 1) + AtStage(objs, 2)
            + AtStage(objs, 3) + AtStage(objs, 4) + AtStage(objs, 5) == |objs|
  {
    StagesCoverAll(Exec(es).objs);
    if es != [] {
      AlwaysSafe(es[..|es| - 1]);
      FlowConserved(es[..|es| - 1]);
      forall k: nat | k <= 5
        ensures ConservedAt(Exec(es), k)
      {
        StepConserved(Exec(es[..|es| - 1]), es[|es| - 1], k);
      }
    }
  }

  /* ---------- the queue ---------- */

  /** Fila has stored an order and not yet counted it. */
  predicate Uncounted(s: State) {
    Fila in s.pc && s.pc[Fila].Counting?
  }

  /** The n-th order stored gets queue position n. */
  ghost predicate Numbered(s: State) {
    && |s.objs| == s.counter + (if Uncounted(s) then 1 else 0)
    && |s.positions| == s.counter && (forall i | 0 <= i < s.counter :: s.positions[i] == i + 1)
    && (Uncounted(s) ==> s.pc[Fila].held == s.counter)
  }

  /** Ids stored by the schedule are new when they are stored. */
  ghost predicate FreshSchedule(es: seq<Event>) {
    es == [] || (
      && FreshSchedule(es[..|es| - 1])
      && (var s, e := Exec(es[..|es| - 1]), es[|es| - 1];
          e.agent == Fila && s.pc[Fila] == Idle ==> Fresh(s.objs, e.id)))
  }

  lemma StepNumbered(s: State, e: Event)
    requires Safe(s) && Numbered(s)
    ensures Numbered(Step(s, e))
  {
  }

  lemma {:induction false} PositionsConsecutive(es: seq<Event>)
    ensures Numbered(Exec(es))
  {
    if es != [] {
      AlwaysSafe(es[..|es| - 1]);
      PositionsConsecutive(es[..|es| - 1]);
      StepNumbered(Exec(es[..|es| - 1]), es[|es| - 1]);
    }
  }

  ghost predicate Listed(s: State) {
    |s.dict| == |s.objs| && forall i | 0 <= i < |s.dict| :: s.dict[i] == i
  }

  lemma StepListed(s: State, e: Event)
    requires WellFormed(s) && Listed(s)
    requires e.agent == Fila && s.pc[Fila] == Idle ==> Fresh(s.objs, e.id)
    ensures Listed(Step(s, e))
  {
    PutRefBelow(s.objs, s.dict, e.id, |s.objs|);
    assert HeldBelow(s.pc[e.agent], |s.objs|);
  }

  /**
   With fresh ids `list_orders()` is every order in creation order, and between Fila runs its length is the queue
   counter.
   */
  lemma {:induction false} ListedInOrder(es: seq<Event>)
    requires FreshSchedule(es)
    ensures Listed(Exec(es))
    ensures !Uncounted(Exec(es)) ==> |Exec(es).dict| == Exec(es).counter
  {
    PositionsConsecutive(es);
    if es != [] {
      ListedInOrder(es[..|es| - 1]);
      StepListed(Exec(es[..|es| - 1]), es[|es| - 1]);
    }
  }

  /* ---------- an agent that is not interrupted ---------- */

  /** The last reference among the first `n` whose order the agent may take. */
  function LastEligible(objs: seq<Record>, refs: seq<nat>, n: nat, a: Agent): (r: Option<nat>)
    requires n <= |refs| && forall i | 0 <= i < |refs| :: refs[i] < |objs|
    ensures r.Some? ==> r.value < |objs| && Eligible(a, objs[r.value].status)
  {
    if n == 0 then None
    else if Eligible(a, objs[refs[n - 1]].status) then Some(refs[n - 1])
    else LastEligible(objs, refs, n - 1, a)
  }

  ghost function Alone(s: State, e: Event, n: nat): (s': State)
    requires WellFormed(s)
    ensures WellFormed(s')
  {
    if n == 0 then s
    else
      StepWellFormed(Alone(s, e, n - 1), e);
      Step(Alone(s, e, n - 1), e)
  }

  lemma AloneStep(s: State, e: Event, n: nat)
    requires WellFormed(s)
    ensures Alone(s, e, n + 1) == Step(Alone(s, e, n), e)
  {
    hide Step, WellFormed;
  }

  lemma {:induction false} AloneAdds(s: State, e: Event, n: nat, m: nat)
    requires WellFormed(s)
    ensures Alone(s, e, n + m) == Alone(Alone(s, e, n), e, m)
  {
    hide Step, WellFormed;
    if m > 0 {
      AloneAdds(s, e, n, m - 1);
      AloneStep(s, e, n + (m - 1));
      AloneStep(Alone(s, e, n), e, m - 1);
      hide Alone;
      assert n + m == n + (m - 1) + 1;
    }
  }

  /** The three steps of an uninterrupted `advance()` are `Advanced`. */
  lemma UninterruptedAdvance(s: State, e: Event)
    requires WellFormed(s) && s.pc[e.agent].ReadIndex? && StatusIndex(s, s.pc[e.agent].held) < 5
    ensures var h := s.pc[e.agent].held;
            && Alone(s, e, 3).objs == s.objs[h := Advanced(s.objs[h], e.now)]
            && Alone(s, e, 3).pc[e.agent] == Afterwards(h, s.pc[e.agent].leg)
  {
    assert Alone(s, e, 1) == Step(Alone(s, e, 0), e);
    assert Alone(s, e, 2) == Step(Alone(s, e, 1), e);
    assert Alone(s, e, 3) == Step(Alone(s, e, 2), e);
  }

  lemma {:induction false} UninterruptedScan(s: State, e: Event, n: nat)
    requires WellFormed(s) && s.pc[e.agent] == Scanning(s.dict, 0, None) && n <= |s.dict|
    ensures Alone(s, e, n) == s.(pc := s.pc[e.agent := Scanning(s.dict, n, LastEligible(s.objs, s.dict, n, e.agent))])
  {
    if n > 0 {
      UninterruptedScan(s, e, n - 1);
      assert Alone(s, e, n) == Step(Alone(s, e, n - 1), e);
    } else {
      assert s.pc == s.pc[e.agent := Scanning(s.dict, 0, None)];
    }
  }

  lemma {:induction false} LastIsNewest(objs: seq<Record>, refs: seq<nat>, n: nat, a: Agent)
    requires n <= |refs| && |refs| == |objs| && forall i | 0 <= i < |refs| :: refs[i] == i
    ensures LastEligible(objs, refs, n, a) == Newest(objs[..n], a)
  {
    if n > 0 {
      LastIsNewest(objs, refs, n - 1, a);
      assert objs[..n][..n - 1] == objs[..n - 1];
    }
  }

  /** On a store listed in creation order, an uninterrupted scan finds what the serial model calls the newest order. */
  lemma UninterruptedScanIsNewest(s: State, e: Event)
    requires WellFormed(s) && Listed(s) && s.pc[e.agent] == Scanning(s.dict, 0, None)
    ensures Alone(s, e, |s.dict|).objs == s.objs
    ensures Alone(s, e, |s.dict|).pc[e.agent] == Scanning(s.dict, |s.dict|, Newest(s.objs, e.agent))
  {
    UninterruptedScan(s, e, |s.dict|);
    LastIsNewest(s.objs, s.dict, |s.dict|, e.agent);
    assert s.objs[..|s.objs|] == s.objs;
  }

  /** The first advance of an uninterrupted run. */
  lemma UninterruptedStart(s: State, e: Event, k: nat) returns (n: nat)
    requires WellFormed(s) && e.agent != Fila && k < |s.objs| && Eligible(e.agent, s.objs[k].status)
    requires s.pc[e.agent] == Chosen(e.agent, Some(k))
    ensures Alone(s, e, n).objs == AdvanceAt(s.objs, k, e.now)
    ensures Alone(s, e, n).pc[e.agent] == Afterwards(k, SourceIndex(e.agent))
  {
    if e.agent == Preparo {
      WakesAlone(s, e, k, 3);
      hide Alone, Step, WellFormed;
      UninterruptedAdvance(Alone(s, e, 1), e);
      AloneAdds(s, e, 1, 3);
      n := 4;
    } else {
      hide Alone, Step;
      n := 3;
      UninterruptedAdvance(s, e);
    }
  }

  /** Cozinha wakes up and makes its second. */
  lemma UninterruptedWaking(s: State, e: Event, k: nat)
    requires WellFormed(s) && k < |s.objs| && StatusIndex(s, k) < 5 && s.pc[e.agent] == Sleeping(k, 2)
    ensures Alone(s, e, 4).objs == AdvanceAt(s.objs, k, e.now) && Alone(s, e, 4).pc[e.agent] == Idle
  {
    WakesAlone(s, e, k, 2);
    hide Alone, Step, WellFormed;
    UninterruptedAdvance(Alone(s, e, 1), e);
    AloneAdds(s, e, 1, 3);
  }

  lemma WakesAlone(s: State, e: Event, k: nat, leg: nat)
    requires WellFormed(s) && k < |s.objs| && s.pc[e.agent] == Sleeping(k, leg)
    ensures Alone(s, e, 1).objs == s.objs
    ensures e.agent in Alone(s, e, 1).pc && Alone(s, e, 1).pc[e.agent] == ReadIndex(k, leg)
  {
    AloneStep(s, e, 0);
    assert Alone(s, e, 0) == s;
  }

  /** From its source an uninterrupted run of Cozinha, Preparo or Entrega makes the advances of `AgentRun`. */
  lemma UninterruptedWork(s: State, e: Event, e': Event, k: nat) returns (n: nat, m: nat)
    requires WellFormed(s) && e.agent == e'.agent != Fila && k < |s.objs| && Eligible(e.agent, s.objs[k].status)
    requires s.pc[e.agent] == Chosen(e.agent, Some(k))
    ensures var s' := Alone(Alone(s, e, n), e', m);
            && s'.pc[e.agent] == Idle
            && s'.objs == if e.agent == Cozinha then AdvanceAt(AdvanceAt(s.objs, k, e.now), k, e'.now)
                          else AdvanceAt(s.objs, k, e.now)
  {
    hide Step;
    n := UninterruptedStart(s, e, k);
    m := 0;
    if e.agent == Cozinha {
      m := 4;
      UninterruptedWaking(Alone(s, e, n), e', k);
    }
  }

  lemma ScanBegins(s: State, e: Event)
    requires WellFormed(s) && Listed(s) && e.agent != Fila && s.pc[e.agent] == Idle
    ensures Alone(s, e, 1).objs == s.objs && Alone(s, e, 1).dict == s.dict && Listed(Alone(s, e, 1))
    ensures Alone(s, e, 1).pc[e.agent] == Scanning(s.dict, 0, None)
  {
    AloneStep(s, e, 0);
  }

  lemma ScanEnds(s: State, e: Event, snapshot: seq<nat>, newest: Option<nat>)
    requires WellFormed(s) && s.pc[e.agent] == Scanning(snapshot, |snapshot|, newest)
    ensures Step(s, e).objs == s.objs && WellFormed(Step(s, e)) && Step(s, e).pc[e.agent] == Chosen(e.agent, newest)
  {
    StepWellFormed(s, e);
  }

  lemma AloneAround(s: State, e: Event, d: nat)
    requires WellFormed(s)
    ensures Alone(s, e, d + 2) == Step(Alone(Alone(s, e, 1), e, d), e)
  {
    hide Alone, Step, WellFormed;
    AloneAdds(s, e, 1, d);
    AloneStep(s, e, d + 1);
  }

  /** From idle, an uninterrupted agent scans and takes up what the serial model calls the newest order. */
  lemma UninterruptedChoice(s: State, e: Event)
    requires WellFormed(s) && Listed(s) && e.agent != Fila && s.pc[e.agent] == Idle
    ensures var s' := Alone(s, e, |s.dict| + 2);
            s'.objs == s.objs && s'.pc[e.agent] == Chosen(e.agent, Newest(s.objs, e.agent))
  {
    hide Alone, Step, Newest, Chosen, HeldBelow;
    ScanBegins(s, e);
    UninterruptedScanIsNewest(Alone(s, e, 1), e);
    AloneAround(s, e, |s.dict|);
    ScanEnds(Alone(Alone(s, e, 1), e, |s.dict|), e, s.dict, Newest(s.objs, e.agent));
  }

  /**
   On a store listed in creation order an uninterrupted run of Cozinha, Preparo or Entrega is the run of the serial
   model, `e'` giving the clock from Cozinha's sleep on.
   */
  lemma UninterruptedRun(s: State, e: Event, e': Event) returns (n: nat, m: nat)
    requires WellFormed(s) && Listed(s) && e.agent == e'.agent != Fila && s.pc[e.agent] == Idle
    ensures var s' := Alone(Alone(s, e, n), e', m);
            s'.pc[e.agent] == Idle && s'.objs == AgentRun(e.agent, s.objs, e.now, e'.now)
  {
    hide Step, Listed, Eligible, HeldBelow;
    UninterruptedChoice(s, e);
    var d := |s.dict| + 2;
    match Newest(s.objs, e.agent)
    case None =>
      n, m := d, 0;
      assert Alone(Alone(s, e, d), e', 0) == Alone(s, e, d);
    case Some(k) =>
      hide Alone;
      var l;
      l, m := UninterruptedWork(Alone(s, e, d), e, e', k);
      AloneAdds(s, e, d, l);
      n := d + l;
  }

  lemma FilaStarts(s: State, e: Event)
    requires WellFormed(s) && e.agent == Fila && s.pc[Fila] == Idle
    ensures Alone(s, e, 2).objs == s.objs + [NewRecord(e.id, e.itens, e.nome, e.now)]
    ensures Fila in Alone(s, e, 2).pc && Alone(s, e, 2).pc[Fila] == ReadIndex(|s.objs|, 0)
  {
    AloneStep(s, e, 0);
    assert Alone(s, e, 0) == s;
    AloneStep(s, e, 1);
    hide Alone, WellFormed;
  }

  /** An uninterrupted Fila run under a new id is the one of the serial model. */
  lemma UninterruptedFila(s: State, e: Event, e': Event)
    requires WellFormed(s) && e.agent == e'.agent == Fila && s.pc[Fila] == Idle && Fresh(s.objs, e.id)
    ensures var s' := Alone(Alone(s, e, 2), e', 3);
            s'.pc[Fila] == Idle && s'.objs == FilaRun(s.objs, e.id, e.nome, e.itens, e.now, e'.now)
  {
    hide Step, Alone;
    FilaStarts(s, e);
    UninterruptedAdvance(Alone(s, e, 2), e');
    PutFresh(s.objs, Advanced(NewRecord(e.id, e.itens, e.nome, e.now), e'.now));
  }

  /* ---------- a scan that is interrupted ---------- */

  /**
   The scan runs over the orders of `olds`, the store as it began. Those that stood at the source then still do, and
   what the scan has found is at least as new as every one of them it has passed.
   */
  ghost predicate KeepsUp(s: State, a: Agent, olds: seq<Record>)
    requires WellFormed(s)
  {
    match s.pc[a]
    case Scanning(snapshot, next, newest) =>
      && |snapshot| == |olds| <= |s.objs| && (forall i | 0 <= i < |snapshot| :: snapshot[i] == i)
      && (newest.Some? ==> newest.value < next)
      && (forall k | 0 <= k < |olds| && olds[k].status == Source(a) :: s.objs[k].status == Source(a))
      && (forall k | 0 <= k < next && k < |olds| && olds[k].status == Source(a) :: newest.Some? && k <= newest.value)
    case _ => false
  }

  lemma SourceStays(s: State, e: Event, a: Agent, k: nat)
    requires Safe(s) && a != Fila && e.agent != a && k < |s.objs| && s.objs[k].status == Source(a)
    ensures k < |Step(s, e).objs| && Step(s, e).objs[k].status == Source(a)
  {
    assert PcHolds(s, e.agent, s.pc[e.agent]);
  }

  lemma OwnKeepsUp(s: State, e: Event, olds: seq<Record>)
    requires WellFormed(s) && e.agent != Fila && KeepsUp(s, e.agent, olds)
    requires Step(s, e).pc[e.agent].Scanning? && WellFormed(Step(s, e))
    ensures KeepsUp(Step(s, e), e.agent, olds)
  {
    assert HeldBelow(s.pc[e.agent], |s.objs|);
    assert s.pc[e.agent].next < |s.pc[e.agent].snapshot|;
    assert Eligible(e.agent, Source(e.agent));
  }

  lemma StepKeepsUp(s: State, e: Event, a: Agent, olds: seq<Record>)
    requires Safe(s) && a != Fila && KeepsUp(s, a, olds)
    requires Step(s, e).pc[a].Scanning?
    ensures WellFormed(Step(s, e)) && KeepsUp(Step(s, e), a, olds)
  {
    StepWellFormed(s, e);
    if e.agent != a {
      StepFrame(s, e, a);
      forall k | 0 <= k < |olds| && olds[k].status == Source(a)
        ensures Step(s, e).objs[k].status == Source(a)
      {
        SourceStays(s, e, a, k);
      }
      hide WellFormed, Safe, Step;
    } else {
      OwnKeepsUp(s, e, olds);
    }
  }

  lemma ScanGoesOn(es: seq<Event>, e: Event, a: Agent, olds: seq<Record>)
    requires a != Fila && KeepsUp(Exec(es), a, olds) && Exec(es + [e]).pc[a].Scanning?
    ensures KeepsUp(Exec(es + [e]), a, olds)
  {
    AlwaysSafe(es);
    ExecStep(es, e);
    hide Exec;
    StepKeepsUp(Exec(es), e, a, olds);
    hide Safe, KeepsUp;
  }

  lemma ScanStarts(s: State, a: Agent)
    requires WellFormed(s) && Listed(s) && s.pc[a] == Scanning(s.dict, 0, None)
    ensures KeepsUp(s, a, s.objs)
  {
  }

  /** The agent goes on scanning all through `es`. */
  ghost predicate ScansThrough(es0: seq<Event>, es: seq<Event>, a: Agent) {
    Exec(es0 + es).pc[a].Scanning? && (es != [] ==> ScansThrough(es0, es[..|es| - 1], a))
  }

  lemma {:induction false} ScanKeepsUp(es0: seq<Event>, es: seq<Event>, a: Agent)
    requires a != Fila && Listed(Exec(es0)) && Exec(es0).pc[a] == Scanning(Exec(es0).dict, 0, None)
    requires ScansThrough(es0, es, a)
    ensures KeepsUp(Exec(es0 + es), a, Exec(es0).objs)
  {
    hide Exec, KeepsUp, Step;
    if es == [] {
      assert es0 + es == es0;
      ScanStarts(Exec(es0), a);
    } else {
      var most, e := es[..|es| - 1], es[|es| - 1];
      assert es0 + es == es0 + most + [e];
      hide Listed;
      ScanKeepsUp(es0, most, a);
      ScanGoesOn(es0 + most, e, a, Exec(es0).objs);
    }
  }

  /** What may be said of the choice at the end of a scan that began on `olds`. */
  ghost predicate GoodChoice(a: Agent, olds: seq<Record>, objs: seq<Record>, newest: Option<nat>) {
    match newest
    case None => forall k | 0 <= k < |olds| :: olds[k].status != Source(a)
    case Some(h) =>
      && h < |olds| && h < |objs| && objs[h].status == Source(a)
      && forall k | 0 <= k < |olds| && olds[k].status == Source(a) :: k <= h
  }

  /**
   However a scan is interrupted, it gives up only if nothing stood at the agent's source when it began. Otherwise the
   agent goes on with an order that is at its source, was stored before the scan began, and is at least as new as
   every order that stood at the source then; if none did, the order came to the source during the scan.
   */
  lemma ScanChooses(es0: seq<Event>, es: seq<Event>, e: Event)
    requires e.agent != Fila && Listed(Exec(es0)) && Exec(es0).pc[e.agent] == Scanning(Exec(es0).dict, 0, None)
    requires ScansThrough(es0, es, e.agent)
    requires Exec(es0 + es).pc[e.agent].next == |Exec(es0 + es).pc[e.agent].snapshot|
    ensures var s, newest := Exec(es0 + es), Exec(es0 + es).pc[e.agent].newest;
            && GoodChoice(e.agent, Exec(es0).objs, s.objs, newest)
            && Step(s, e).pc[e.agent] == Chosen(e.agent, newest) && Step(s, e).objs == s.objs
  {
    ScanKeepsUp(es0, es, e.agent);
    AlwaysSafe(es0 + es);
    hide Exec;
    var s := Exec(es0 + es);
    ScanEnds(s, e, s.pc[e.agent].snapshot, s.pc[e.agent].newest);
    hide Step;
    assert PcHolds(s, e.agent, s.pc[e.agent]) && HeldBelow(s.pc[e.agent], |s.objs|);
  }
}
