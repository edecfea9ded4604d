/**
 The free regime: any number of runs of every agent in flight, interleaved anywhere between their advances.
 Each `advance()` is atomic and the clock never goes back. This admits more interleavings than the program has, in which
 every agent has one event loop and gives it up only to sleep; `OneLoopEach` says which schedules remain.
 */
module FreeRuns {
  import opened Strings
  import opened Orders
  import opened SerialRuns
  import opened Interleaving

  /** A run: its agent, the order it holds and the advances it has still to make. */
  datatype Run = Run(agent: Agent, held: nat, remaining: nat)

  /** `log` is the history of all advances, an advance of a concluded order being from the last index to itself. */
  datatype World = World(objs: seq<Record>, dict: seq<nat>, runs: seq<Run>, log: seq<Write>, clock: Time)

  datatype Move =
    | Begin(agent: Agent, id: string, nome: string, itens: seq<PastelItem>, now: Time)
    | Advance(run: nat, now: Time)

  const EMPTY := World([], [], [], [], 0)

  ghost predicate InRange(w: World) {
    && (forall i | 0 <= i < |w.dict| :: w.dict[i] < |w.objs|)
    && (forall i | 0 <= i < |w.runs| :: w.runs[i].held < |w.objs|)
  }

  /** The index from which the run's next advance is meant to start. */
  function Leg(r: Run): nat {
    match r.agent
    case Fila => 0
    case Cozinha => if r.remaining == 2 then 1 else 2
    case Preparo => 3
    case Entrega => 4
  }

  function Later(a: Time, b: Time): Time {
    if a < b then b else a
  }

  function Moved(w: World, m: Move): World
    requires InRange(w)
  {
    match m
    case Begin(a, id, nome, itens, now) =>
      var t := Later(w.clock, now);
      if a == Fila then
        w.(objs := w.objs + [NewRecord(id, itens, nome, t)],
           dict := PutRef(w.objs, w.dict, id, |w.objs|),
           runs := w.runs + [Run(Fila, |w.objs|, 1)],
           clock := t)
      else
        (match LastEligible(w.objs, w.dict, |w.dict|, a)
         case None => w.(clock := t)
         case Some(h) => w.(runs := w.runs + [Run(a, h, if a == Cozinha then 2 else 1)], clock := t))
    case Advance(r, now) =>
      var t := Later(w.clock, now);
      if r < |w.runs| && w.runs[r].remaining > 0 then
        var run, h := w.runs[r], w.runs[r].held;
        var r' := Advanced(w.objs[h], t);
        w.(objs := w.objs[h := r'],
           runs := w.runs[r := run.(remaining := run.remaining - 1)],
           log := w.log + [Write(run.agent, h, Leg(run), Index(w.objs[h].status), Index(r'.status))],
           clock := t)
      else w.(clock := t)
  }

  lemma MovedInRange(w: World, m: Move)
    requires InRange(w)
    ensures InRange(Moved(w, m))
  {
    if m.Begin? { PutRefBelow(w.objs, w.dict, m.id, |w.objs|); }
  }

  ghost function After(ms: seq<Move>): (w: World)
    ensures InRange(w)
  {
    if ms == [] then EMPTY
    else
      var w := After(ms[..|ms| - 1]);
      MovedInRange(w, ms[|ms| - 1]);
      Moved(w, ms[|ms| - 1])
  }

  ghost predicate CountedAt(w: World, o: nat)
    requires o < |w.objs|
  {
    && Index(w.objs[o].status) == (if |WritesOn(w.log, o)| < 5 then |WritesOn(w.log, o)| else 5)
    && Complete(w.objs[o]) && RecordedBy(w.objs[o], w.clock)
  }

  ghost predicate Counted(w: World) {
    && (forall i | 0 <= i < |w.log| :: w.log[i].order < |w.objs|)
    && (forall o | 0 <= o < |w.objs| :: CountedAt(w, o))
  }

  lemma MovedCounted(w: World, m: Move)
    requires InRange(w) && Counted(w)
    ensures Counted(Moved(w, m))
  {
    var w' := Moved(w, m);
    forall o | 0 <= o < |w'.objs|
      ensures CountedAt(w', o)
    {
      if o < |w.objs| {
        OldCounted(w, m, o);
      } else {
        NoWritesOn(w.log, o);
        FreshComplete(w'.objs[o], w'.clock);
      }
    }
  }

  lemma OldCounted(w: World, m: Move, o: nat)
    requires InRange(w) && o < |w.objs| && CountedAt(w, o)
    ensures CountedAt(Moved(w, m), o)
  {
    hide Complete, RecordedBy, LastEligible, PutRef;
    var w' := Moved(w, m);
    LaterRecorded(w.objs[o], w.clock, w'.clock);
    AdvancedComplete(w.objs[o], w'.clock);
    if |w'.log| > |w.log| {
      assert w'.log[..|w.log|] == w.log;
    }
  }

  lemma FreshComplete(r: Record, now: Time)
    requires r.status == PEDIDO && r.timeline == map[PEDIDO := now]
    ensures Complete(r) && RecordedBy(r, now)
  {
  }

  lemma LaterRecorded(r: Record, a: Time, b: Time)
    requires RecordedBy(r, a) && a <= b
    ensures RecordedBy(r, b)
  {
  }

  /**
   However the runs overlap: an order has moved exactly one stage per advance made on it, up to CONCLUIDO, and its
   timeline holds exactly the stages reached, at times that never go back.
   */
  lemma {:induction false} CountedAlways(ms: seq<Move>)
    ensures Counted(After(ms))
  {
    if ms != [] {
      CountedAlways(ms[..|ms| - 1]);
      MovedCounted(After(ms[..|ms| - 1]), ms[|ms| - 1]);
    }
  }

  lemma MovedAbsorbs(w: World, m: Move, o: nat)
    requires InRange(w) && o < |w.objs| && w.objs[o].status == CONCLUIDO
    ensures o < |Moved(w, m).objs| && Moved(w, m).objs[o] == w.objs[o]
  {
  }

  /** A concluded order never changes again, however many runs still hold it. */
  lemma {:induction false} ConcludedAbsorbs(ms: seq<Move>, more: seq<Move>, o: nat)
    requires o < |After(ms).objs| && After(ms).objs[o].status == CONCLUIDO
    ensures o < |After(ms + more).objs| && After(ms + more).objs[o] == After(ms).objs[o]
  {
    hide After, Moved;
    if more == [] {
      assert ms + more == ms;
    } else {
      var most, last := more[..|more| - 1], more[|more| - 1];
      ConcludedAbsorbs(ms, most, o);
      AfterMove(ms + most, last);
      assert ms + more == ms + most + [last];
      MovedAbsorbs(After(ms + most), last, o);
    }
  }

  lemma AfterMove(ms: seq<Move>, m: Move)
    ensures After(ms + [m]) == Moved(After(ms), m)
  {
  }

  /* ---------- when every advance is the commented transition ---------- */

  /** The transition that the comment beside the advance announces. */
  predicate AsCommented(x: Write) {
    x.agent == Owner(x.leg) && x.from == x.leg && x.to == x.leg + 1
  }

  ghost predicate AllCommented(w: World) {
    forall i | 0 <= i < |w.log| :: AsCommented(w.log[i])
  }

  ghost predicate Held(w: World, h: nat) {
    exists r | 0 <= r < |w.runs| :: w.runs[r].remaining > 0 && w.runs[r].held == h
  }

  /** The move begins a run on an order that an unfinished run holds. */
  ghost predicate Clashes(w: World, m: Move)
    requires InRange(w)
  {
    m.Begin? && m.agent != Fila && LastEligible(w.objs, w.dict, |w.dict|, m.agent).Some?
    && Held(w, LastEligible(w.objs, w.dict, |w.dict|, m.agent).value)
  }

  /** No run of the schedule selects an order that an unfinished run still holds. */
  ghost predicate Exclusive(ms: seq<Move>) {
    ms == [] || (Exclusive(ms[..|ms| - 1]) && !Clashes(After(ms[..|ms| - 1]), ms[|ms| - 1]))
  }

  ghost predicate Finished(w: World) {
    forall r | 0 <= r < |w.runs| :: w.runs[r].remaining == 0
  }

  predicate RunShape(r: Run) {
    r.remaining <= if r.agent == Cozinha then 2 else 1
  }

  /** Every unfinished run has its order to itself, at the index its next advance starts from. */
  ghost predicate Orderly(w: World) {
    && InRange(w) && AllCommented(w)
    && (forall r | 0 <= r < |w.runs| :: RunShape(w.runs[r]))
    && (forall r | 0 <= r < |w.runs| && w.runs[r].remaining > 0 ::
          Index(w.objs[w.runs[r].held].status) == Leg(w.runs[r]))
    && (forall r, q | 0 <= r < q < |w.runs| && w.runs[r].remaining > 0 && w.runs[q].remaining > 0 ::
          w.runs[r].held != w.runs[q].held)
    && (forall o | 0 <= o < |w.objs| && w.objs[o].status == COZINHA :: Held(w, o))
  }

  lemma BeginOrderly(w: World, m: Move)
    requires Orderly(w) && m.Begin? && !Clashes(w, m)
    ensures Orderly(Moved(w, m))
  {
    MovedInRange(w, m);
    var w' := Moved(w, m);
    assert w.runs <= w'.runs;
    forall o | 0 <= o < |w'.objs| && w'.objs[o].status == COZINHA
      ensures Held(w', o)
    {
      assert Held(w, o);
      var r :| 0 <= r < |w.runs| && w.runs[r].remaining > 0 && w.runs[r].held == o;
      assert w'.runs[r] == w.runs[r];
    }
  }

  lemma AdvanceHeld(w: World, m: Move, o: nat)
    requires Orderly(w) && m.Advance? && o < |Moved(w, m).objs| && Moved(w, m).objs[o].status == COZINHA
    ensures Held(Moved(w, m), o)
  {
    var w' := Moved(w, m);
    if w.objs[o].status == COZINHA {
      assert Held(w, o);
      var r :| 0 <= r < |w.runs| && w.runs[r].remaining > 0 && w.runs[r].held == o;
      assert w'.runs[r].held == o;
    } else {
      assert w'.runs[m.run].held == o;
    }
  }

  lemma AdvanceOrderly(w: World, m: Move)
    requires Orderly(w) && m.Advance?
    ensures Orderly(Moved(w, m))
  {
    forall o | 0 <= o < |Moved(w, m).objs| && Moved(w, m).objs[o].status == COZINHA
      ensures Held(Moved(w, m), o)
    {
      AdvanceHeld(w, m, o);
    }
    hide Held;
  }

  lemma {:induction false} ExclusiveOrderly(ms: seq<Move>)
    requires Exclusive(ms)
    ensures Orderly(After(ms))
  {
    if ms != [] {
      var w, m := After(ms[..|ms| - 1]), ms[|ms| - 1];
      ExclusiveOrderly(ms[..|ms| - 1]);
      if m.Begin? { BeginOrderly(w, m); } else { AdvanceOrderly(w, m); }
    }
  }

  /** Run `r` finds its order beyond the index it means to start from. */
  predicate Late(w: World, r: nat)
    requires InRange(w)
  {
    r < |w.runs| && w.runs[r].remaining > 0 && Leg(w.runs[r]) < Index(w.objs[w.runs[r].held].status)
  }

  /** Two unfinished runs mean to make the same transition of one order. */
  predicate Rivals(w: World, r: nat, q: nat) {
    && r < |w.runs| && q < |w.runs| && r != q
    && w.runs[r].remaining > 0 && w.runs[q].remaining > 0
    && w.runs[r].held == w.runs[q].held && Leg(w.runs[r]) == Leg(w.runs[q])
  }

  /** An advance has gone wrong or some unfinished run will make one that does. */
  ghost predicate Doomed(w: World)
    requires InRange(w)
  {
    !AllCommented(w) || (exists r :: Late(w, r)) || (exists r, q :: Rivals(w, r, q))
  }

  lemma ClashDooms(w: World, m: Move)
    requires Orderly(w) && Clashes(w, m)
    ensures InRange(Moved(w, m)) && Doomed(Moved(w, m))
  {
    MovedInRange(w, m);
    var w' := Moved(w, m);
    var h := LastEligible(w.objs, w.dict, |w.dict|, m.agent).value;
    var r :| 0 <= r < |w.runs| && w.runs[r].remaining > 0 && w.runs[r].held == h;
    assert w'.runs[r] == w.runs[r];
    if Leg(w'.runs[|w.runs|]) == Leg(w.runs[r]) {
      assert Rivals(w', r, |w.runs|);
    } else {
      assert Late(w', |w.runs|);
    }
  }

  lemma WrongStays(w: World, m: Move)
    requires InRange(w) && !AllCommented(w)
    ensures !AllCommented(Moved(w, m))
  {
    var w' := Moved(w, m);
    var i :| 0 <= i < |w.log| && !AsCommented(w.log[i]);
    assert w'.log[i] == w.log[i];
  }

  lemma LateStays(w: World, m: Move, r: nat)
    requires InRange(w) && Late(w, r)
    ensures InRange(Moved(w, m)) && Doomed(Moved(w, m))
  {
    MovedInRange(w, m);
    var w' := Moved(w, m);
    if m == Advance(r, m.now) {
      assert !AsCommented(w'.log[|w.log|]);
    } else {
      assert Late(w', r);
    }
  }

  lemma RivalsStay(w: World, m: Move, r: nat, q: nat)
    requires InRange(w) && Rivals(w, r, q)
    ensures InRange(Moved(w, m)) && Doomed(Moved(w, m))
  {
    MovedInRange(w, m);
    var w' := Moved(w, m);
    if m.Advance? && (m.run == r || m.run == q) {
      var other := if m.run == r then q else r;
      assert AsCommented(w'.log[|w.log|]) ==> Late(w', other);
    } else {
      assert Rivals(w', r, q);
    }
  }

  lemma DoomedStays(w: World, m: Move)
    requires InRange(w) && Doomed(w)
    ensures InRange(Moved(w, m)) && Doomed(Moved(w, m))
  {
    MovedInRange(w, m);
    if !AllCommented(w) {
      WrongStays(w, m);
    } else if r :| Late(w, r) {
      LateStays(w, m, r);
    } else {
      var r, q :| Rivals(w, r, q);
      RivalsStay(w, m, r, q);
    }
  }

  lemma {:induction false} SharingDooms(ms: seq<Move>)
    requires !Exclusive(ms)
    ensures Doomed(After(ms))
  {
    var most, m := ms[..|ms| - 1], ms[|ms| - 1];
    if Exclusive(most) {
      ExclusiveOrderly(most);
      ClashDooms(After(most), m);
    } else {
      SharingDooms(most);
      DoomedStays(After(most), m);
    }
  }

  /**
   Any number of runs may overlap: as long as none selects an order that an unfinished run holds, every advance is the
   commented transition; and once all runs are over, that is the only way it can be so.
   */
  lemma CommentedIff(ms: seq<Move>)
    ensures Exclusive(ms) ==> AllCommented(After(ms))
    ensures Finished(After(ms)) ==> (AllCommented(After(ms)) <==> Exclusive(ms))
  {
    if Exclusive(ms) {
      ExclusiveOrderly(ms);
    } else {
      SharingDooms(ms);
    }
  }

  ghost predicate Busy(w: World, a: Agent) {
    exists r | 0 <= r < |w.runs| :: w.runs[r].remaining > 0 && w.runs[r].agent == a
  }

  /** No agent begins a run while one of its own is unfinished. */
  ghost predicate OneEach(ms: seq<Move>) {
    ms == [] || (
      && OneEach(ms[..|ms| - 1])
      && (ms[|ms| - 1].Begin? ==> !Busy(After(ms[..|ms| - 1]), ms[|ms| - 1].agent)))
  }

  /** An agent without an unfinished run of its own never selects an order that is held. */
  lemma OwnOnlyClash(w: World, m: Move)
    requires Orderly(w) && Clashes(w, m)
    ensures Busy(w, m.agent)
  {
    var h := LastEligible(w.objs, w.dict, |w.dict|, m.agent).value;
    var r :| 0 <= r < |w.runs| && w.runs[r].remaining > 0 && w.runs[r].held == h;
    assert w.runs[r].agent == m.agent;
  }

  /** One run per agent is enough. */
  lemma {:induction false} OneEachExclusive(ms: seq<Move>)
    requires OneEach(ms)
    ensures Exclusive(ms)
  {
    if ms != [] {
      var w, m := After(ms[..|ms| - 1]), ms[|ms| - 1];
      OneEachExclusive(ms[..|ms| - 1]);
      ExclusiveOrderly(ms[..|ms| - 1]);
      if Clashes(w, m) { OwnOnlyClash(w, m); }
    }
  }

  /* ---------- one event loop per agent ---------- */

  /** The run has begun and not yet reached an await: only Preparo sleeps before its first advance. */
  predicate MidStep(r: Run) {
    r.agent != Preparo && r.remaining == if r.agent == Cozinha then 2 else 1
  }

  /** The agent whose event loop makes the move. */
  function Mover(w: World, m: Move): Option<Agent> {
    match m
    case Begin(a, _, _, _, _) => Some(a)
    case Advance(r, _) => if r < |w.runs| then Some(w.runs[r].agent) else None
  }

  /** While a run is in mid-step, its agent's event loop makes no other move than that run's. */
  ghost predicate LoopAllows(w: World, m: Move) {
    forall r | 0 <= r < |w.runs| && MidStep(w.runs[r]) && Mover(w, m) == Some(w.runs[r].agent) ::
      m.Advance? && m.run == r
  }

  /** The schedules that one event loop per agent can produce. */
  ghost predicate OneLoopEach(ms: seq<Move>) {
    ms == [] || (
      && OneLoopEach(ms[..|ms| - 1])
      && LoopAllows(After(ms[..|ms| - 1]), ms[|ms| - 1]))
  }

  /**
   With one event loop per agent, only two runs can be the first to select an order that is held: a Cozinha run whose
   order an earlier one left at COZINHA to sleep, and a Preparo run whose order an earlier one is asleep on.
   */
  lemma ClashIsOverSleep(ms: seq<Move>, m: Move)
    requires Exclusive(ms) && OneLoopEach(ms + [m]) && Clashes(After(ms), m)
    ensures var w := After(ms);
            var h := LastEligible(w.objs, w.dict, |w.dict|, m.agent).value;
            (m.agent == Cozinha && w.objs[h].status == COZINHA) || (m.agent == Preparo && w.objs[h].status == PREPARO)
  {
    ExclusiveOrderly(ms);
    var w := After(ms);
    assert (ms + [m])[..|ms|] == ms;
    var h := LastEligible(w.objs, w.dict, |w.dict|, m.agent).value;
    var r :| 0 <= r < |w.runs| && w.runs[r].remaining > 0 && w.runs[r].held == h;
    assert !MidStep(w.runs[r]) || w.runs[r].agent != m.agent;
  }

  lemma Then(ms: seq<Move>, m: Move) returns (more: seq<Move>)
    ensures more == ms + [m] && After(more) == Moved(After(ms), m)
    ensures OneLoopEach(more) <==> OneLoopEach(ms) && LoopAllows(After(ms), m)
  {
    AfterMove(ms, m);
    more := ms + [m];
    assert more[..|ms|] == ms;
  }

  /* ---------- three schedules ---------- */

  /** Fila and Cozinha run; while Cozinha sleeps Fila stores "b" and a second Cozinha run takes it; both wake up. */
  const OVERLAP: seq<Move> := [
    Begin(Fila, "a", "Ana", [], 0), Advance(0, 0),
    Begin(Cozinha, "", "", [], 0), Advance(1, 0),
    Begin(Fila, "b", "Bia", [], 0), Advance(2, 0),
    Begin(Cozinha, "", "", [], 0), Advance(3, 0),
    Advance(1, 0), Advance(3, 0)
  ]

  /** Fila runs; one Cozinha run takes the order to COZINHA and sleeps, a second takes it from there; both wake up. */
  const TWO_COZINHA: seq<Move> := [
    Begin(Fila, "a", "Ana", [], 0), Advance(0, 0),
    Begin(Cozinha, "", "", [], 0), Advance(1, 0),
    Begin(Cozinha, "", "", [], 0), Advance(2, 0),
    Advance(1, 0), Advance(2, 0)
  ]

  /** Fila and Cozinha run; two Preparo runs take the order, sleep, and both go on. */
  const TWO_PREPARO: seq<Move> := [
    Begin(Fila, "a", "Ana", [], 0), Advance(0, 0),
    Begin(Cozinha, "", "", [], 0), Advance(1, 0), Advance(1, 0),
    Begin(Preparo, "", "", [], 0), Begin(Preparo, "", "", [], 0), Advance(2, 0), Advance(3, 0)
  ]

  /** One order at FILA, and Fila's run over. */
  lemma OneQueued() returns (ms: seq<Move>)
    ensures ms == [Begin(Fila, "a", "Ana", [], 0), Advance(0, 0)] && OneLoopEach(ms) && AllCommented(After(ms))
    ensures var w := After(ms);
            && w.dict == [0] && |w.objs| == 1 && w.objs[0].status == FILA && w.objs[0].id == "a"
            && w.runs == [Run(Fila, 0, 0)]
  {
    ms := Then([], Begin(Fila, "a", "Ana", [], 0));
    assert After(ms).runs == [Run(Fila, 0, 1)];
    ms := Then(ms, Advance(0, 0));
  }

  /**
   One run per agent is not necessary: after eight moves two Cozinha runs are asleep, each on its own order, and in
   the end all runs are over and both orders stand at PREPARO, every advance having been as commented.
   */
  lemma OverlapOnTwoOrders()
    ensures OneLoopEach(OVERLAP) && !OneEach(OVERLAP) && Exclusive(OVERLAP) && AllCommented(After(OVERLAP))
    ensures After(OVERLAP[..8]).runs == [Run(Fila, 0, 0), Run(Cozinha, 0, 1), Run(Fila, 1, 0), Run(Cozinha, 1, 1)]
    ensures var w := After(OVERLAP);
            Finished(w) && |w.objs| == 2 && w.objs[0].status == PREPARO && w.objs[1].status == PREPARO
  {
    var two := BothCooking();
    hide After, Complete, Exclusive, OneEach, OneLoopEach;
    var ms := Then(two, Advance(1, 0));
    assert After(ms).runs == [Run(Fila, 0, 0), Run(Cozinha, 0, 0), Run(Fila, 1, 0), Run(Cozinha, 1, 1)];
    ms := Then(ms, Advance(3, 0));
    assert After(ms).log == After(two).log + [Write(Cozinha, 0, 2, 2, 3), Write(Cozinha, 1, 2, 2, 3)];
    CommentedIff(ms);
    assert ms == OVERLAP && two == OVERLAP[..8] && ms == two + [Advance(1, 0), Advance(3, 0)];
    OneEachPrefix(two, [Advance(1, 0), Advance(3, 0)]);
  }

  lemma BothCooking() returns (ms: seq<Move>)
    ensures ms == OVERLAP[..8] && OneLoopEach(ms) && !OneEach(ms) && AllCommented(After(ms))
    ensures After(ms).runs == [Run(Fila, 0, 0), Run(Cozinha, 0, 1), Run(Fila, 1, 0), Run(Cozinha, 1, 1)]
    ensures var objs := After(ms).objs; |objs| == 2 && objs[0].status == COZINHA && objs[1].status == COZINHA
  {
    ms := OneAsleepOneQueued();
    hide After, Complete, Exclusive, OneEach, OneLoopEach;
    var six := ms;
    assert After(ms).runs[1].remaining > 0;
    NowTwo(ms, Begin(Cozinha, "", "", [], 0));
    ms := Then(ms, Begin(Cozinha, "", "", [], 0));
    assert After(ms).runs == [Run(Fila, 0, 0), Run(Cozinha, 0, 1), Run(Fila, 1, 0), Run(Cozinha, 1, 2)];
    ms := Then(ms, Advance(3, 0));
    OneEachPrefix(six + [Begin(Cozinha, "", "", [], 0)], [Advance(3, 0)]);
    assert ms == six + [Begin(Cozinha, "", "", [], 0)] + [Advance(3, 0)];
  }

  /** Order 0 is at COZINHA, its Cozinha run asleep; order 1 is at FILA. */
  lemma OneAsleepOneQueued() returns (ms: seq<Move>)
    ensures ms == OVERLAP[..6] && OneLoopEach(ms) && AllCommented(After(ms)) && After(ms).dict == [0, 1]
    ensures After(ms).runs == [Run(Fila, 0, 0), Run(Cozinha, 0, 1), Run(Fila, 1, 0)]
    ensures var objs := After(ms).objs; |objs| == 2 && objs[0].status == COZINHA && objs[1].status == FILA
  {
    ms := OneQueued();
    hide After, Complete, Exclusive, OneLoopEach;
    ms := Then(ms, Begin(Cozinha, "", "", [], 0));
    assert After(ms).runs == [Run(Fila, 0, 0), Run(Cozinha, 0, 2)] && After(ms).dict == [0];
    ms := Then(ms, Advance(1, 0));
    ghost var objs := After(ms).objs;
    assert After(ms).runs == [Run(Fila, 0, 0), Run(Cozinha, 0, 1)] && objs[0].id == "a";
    ms := Then(ms, Begin(Fila, "b", "Bia", [], 0));
    assert PutRef(objs, [0], "b", 1) == [0] + PutRef(objs, [], "b", 1);
    assert After(ms).runs == [Run(Fila, 0, 0), Run(Cozinha, 0, 1), Run(Fila, 1, 1)] && After(ms).dict == [0, 1];
    ms := Then(ms, Advance(2, 0));
  }

  lemma NowTwo(ms: seq<Move>, m: Move)
    requires m.Begin? && Busy(After(ms), m.agent)
    ensures !OneEach(ms + [m])
  {
  }

  lemma {:induction false} OneEachPrefix(ms: seq<Move>, more: seq<Move>)
    requires !OneEach(ms)
    ensures !OneEach(ms + more)
  {
    if more == [] {
      assert ms + more == ms;
    } else {
      OneEachPrefix(ms, more[..|more| - 1]);
      assert (ms + more)[..|ms + more| - 1] == ms + more[..|more| - 1];
    }
  }

  /**
   The commented transitions fail here: the second of two overlapping Cozinha runs picks the order its first has at
   COZINHA, and the two conclude it although neither Preparo nor Entrega ever ran.
   */
  lemma TwoCozinhaRunsConclude()
    ensures OneLoopEach(TWO_COZINHA) && !Exclusive(TWO_COZINHA)
    ensures var w := After(TWO_COZINHA); |w.objs| == 1 && w.objs[0].status == CONCLUIDO && Finished(w)
  {
    var ms := OneQueued();
    hide After, Complete, Exclusive, OneLoopEach;
    var c := Begin(Cozinha, "", "", [], 0);
    ms := Then(ms, c);
    assert After(ms).runs == [Run(Fila, 0, 0), Run(Cozinha, 0, 2)];
    ms := Then(ms, Advance(1, 0));
    assert After(ms).objs[0].status == COZINHA && After(ms).runs == [Run(Fila, 0, 0), Run(Cozinha, 0, 1)];
    ms := Then(ms, c);
    assert After(ms).runs == [Run(Fila, 0, 0), Run(Cozinha, 0, 1), Run(Cozinha, 0, 2)];
    ms := Then(ms, Advance(2, 0));
    assert After(ms).objs[0].status == PREPARO;
    assert After(ms).runs == [Run(Fila, 0, 0), Run(Cozinha, 0, 1), Run(Cozinha, 0, 1)];
    ms := Then(ms, Advance(1, 0));
    assert After(ms).objs[0].status == ENTREGA;
    assert After(ms).runs == [Run(Fila, 0, 0), Run(Cozinha, 0, 0), Run(Cozinha, 0, 1)];
    assert After(ms).log[|After(ms).log| - 1] == Write(Cozinha, 0, 2, 3, 4);
    WrongStays(After(ms), Advance(2, 0));
    ms := Then(ms, Advance(2, 0));
    CommentedIff(ms);
    assert ms == TWO_COZINHA;
  }

  /** Two overlapping Preparo runs do the same: both take the order at PREPARO, and it concludes without Entrega. */
  lemma TwoPreparoRunsConclude()
    ensures OneLoopEach(TWO_PREPARO) && !Exclusive(TWO_PREPARO)
    ensures var w := After(TWO_PREPARO); |w.objs| == 1 && w.objs[0].status == CONCLUIDO && Finished(w)
  {
    var ms := OneQueued();
    hide After, Complete, Exclusive, OneLoopEach;
    ms := Then(ms, Begin(Cozinha, "", "", [], 0));
    assert After(ms).runs == [Run(Fila, 0, 0), Run(Cozinha, 0, 2)];
    ms := Then(ms, Advance(1, 0));
    assert After(ms).runs == [Run(Fila, 0, 0), Run(Cozinha, 0, 1)];
    ms := Then(ms, Advance(1, 0));
    assert After(ms).objs[0].status == PREPARO && After(ms).runs == [Run(Fila, 0, 0), Run(Cozinha, 0, 0)];
    var p := Begin(Preparo, "", "", [], 0);
    ms := Then(ms, p);
    ms := Then(ms, p);
    assert After(ms).runs == [Run(Fila, 0, 0), Run(Cozinha, 0, 0), Run(Preparo, 0, 1), Run(Preparo, 0, 1)];
    ms := Then(ms, Advance(2, 0));
    ms := Then(ms, Advance(3, 0));
    assert After(ms).log[|After(ms).log| - 1] == Write(Preparo, 0, 3, 4, 5);
    CommentedIff(ms);
    assert ms == TWO_PREPARO;
  }
}
