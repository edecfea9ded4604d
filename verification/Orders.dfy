/**
 Orders and the in-memory store: `Order.advance`, `create_order`, `get_order`, `list_orders`.
 Timestamps are abstract natural numbers read from a clock the caller supplies.
 */
module Orders {
  type Time = nat

  datatype OrderStatus = PEDIDO | FILA | COZINHA | PREPARO | ENTREGA | CONCLUIDO

  datatype BordaType = NORMAL | BORDA_QUEIJO | CATUPIRY

  datatype SaborType = CARNE | FRANGO | QUEIJO | PALMITO | CARNE_QUEIJO

  datatype PastelItem = PastelItem(sabor: SaborType, quantidade: nat, borda: BordaType, observacoes: string)

  /** The value of an order at one moment. */
  datatype Record = Record(
    id: string,
    itens: seq<PastelItem>,
    clienteNome: string,
    timestamp: Time,
    status: OrderStatus,
    timeline: map<OrderStatus, Time>)

  /** Position of a status in `list(OrderStatus)`. */
  function Index(s: OrderStatus): (i: nat)
    ensures i < 6 && AtIndex(i) == s
  {
    match s
    case PEDIDO => 0
    case FILA => 1
    case COZINHA => 2
    case PREPARO => 3
    case ENTREGA => 4
    case CONCLUIDO => 5
  }

  function AtIndex(i: nat): OrderStatus {
    if i == 0 then PEDIDO else if i == 1 then FILA else if i == 2 then COZINHA
    else if i == 3 then PREPARO else if i == 4 then ENTREGA else CONCLUIDO
  }

  /**
   `advance` on the value of an order: one step along the sequence, recorded in the timeline, or nothing at the end.
   */
  function Advanced(r: Record, now: Time): Record {
    var idx := Index(r.status);
    if idx < 5 then
      var next := AtIndex(idx + 1);
      r.(status := next, timeline := r.timeline[next := now])
    else r
  }

  function NewRecord(id: string, itens: seq<PastelItem>, nome: string, now: Time): Record {
    Record(id, itens, nome, now, PEDIDO, map[PEDIDO := now])
  }

  /** The timeline holds exactly the stages up to the current one, with times that never go back. */
  ghost predicate Complete(r: Record) {
    && (forall st: OrderStatus :: st in r.timeline <==> Index(st) <= Index(r.status))
    && (forall st: OrderStatus, st': OrderStatus | st in r.timeline && st' in r.timeline && Index(st) <= Index(st') ::
          r.timeline[st] <= r.timeline[st'])
  }

  /** No time in the timeline is later than `now`. */
  ghost predicate RecordedBy(r: Record, now: Time) {
    forall st | st in r.timeline :: r.timeline[st] <= now
  }

  lemma AdvancedComplete(r: Record, now: Time)
    requires Complete(r) && RecordedBy(r, now)
    ensures Complete(Advanced(r, now)) && RecordedBy(Advanced(r, now), now)
    ensures Index(Advanced(r, now).status) == (if Index(r.status) < 5 then Index(r.status) + 1 else 5)
    ensures Advanced(r, now).(status := r.status, timeline := r.timeline) == r
  {
  }

  class Order {
    const id: string
    const itens: seq<PastelItem>
    const clienteNome: string
    const timestamp: Time
    var status: OrderStatus
    var timeline: map<OrderStatus, Time>

    function View(): Record
      reads this
    {
      Record(id, itens, clienteNome, timestamp, status, timeline)
    }

    constructor (id: string, clienteNome: string, itens: seq<PastelItem>, now: Time)
      ensures View() == Record(id, itens, clienteNome, now, PEDIDO, map[])
    {
      this.id, this.clienteNome, this.itens, this.timestamp := id, clienteNome, itens, now;
      status, timeline := PEDIDO, map[];
    }

    method Advance(now: Time) returns (r: OrderStatus)
      modifies this
      ensures View() == Advanced(old(View()), now) && r == status
    {
      var idx := Index(status);
      if idx < 5 {
        status := AtIndex(idx + 1);
        timeline := timeline[status := now];
      }
      r := status;
    }
  }

  /* ---------- the store: a dict in insertion order ---------- */

  type Store = seq<Record>

  ghost predicate DistinctIds(s: Store) {
    forall i, j | 0 <= i < j < |s| :: s[i].id != s[j].id
  }

  ghost predicate Fresh(s: Store, id: string) {
    forall i | 0 <= i < |s| :: s[i].id != id
  }

  /** `_orders[r.id] = r`: an existing key keeps its place, a new one goes last. */
  function Put(s: Store, r: Record): Store {
    if s == [] then [r]
    else if s[0].id == r.id then [r] + s[1..]
    else [s[0]] + Put(s[1..], r)
  }

  lemma {:induction false} PutFresh(s: Store, r: Record)
    requires Fresh(s, r.id)
    ensures Put(s, r) == s + [r]
  {
    if s != [] {
      assert forall i | 0 <= i < |s[1..]| :: s[1..][i] == s[i + 1];
      PutFresh(s[1..], r);
    }
  }

  lemma {:induction false} PutExisting(s: Store, r: Record, k: nat)
    requires k < |s| && s[k].id == r.id && DistinctIds(s)
    ensures Put(s, r) == s[k := r]
  {
    if k > 0 {
      assert forall i | 0 <= i < |s[1..]| :: s[1..][i] == s[i + 1];
      assert s[0].id != r.id;
      PutExisting(s[1..], r, k - 1);
      assert [s[0]] + s[1..][k - 1 := r] == s[k := r];
    }
  }

  class OrderStore {
    var orders: seq<Order>
    var queueCounter: nat

    ghost predicate Valid()
      reads this, orders
    {
      forall i, j | 0 <= i < j < |orders| :: orders[i].id != orders[j].id
    }

    ghost function Contents(): (s: Store)
      reads this, orders
      ensures |s| == |orders| && forall i | 0 <= i < |s| :: s[i] == orders[i].View()
    {
      seq(|orders|, i requires 0 <= i < |orders| reads this, orders => orders[i].View())
    }

    constructor ()
      ensures Valid() && orders == [] && queueCounter == 0
    {
      orders, queueCounter := [], 0;
    }

    method CreateOrder(id: string, clienteNome: string, itens: seq<PastelItem>, now: Time)
      returns (order: Order, ghost k: nat)
      requires Valid()
      modifies this`orders
      ensures Valid() && fresh(order) && k < |orders| && orders[k] == order
      ensures order.View() == NewRecord(id, itens, clienteNome, now)
      ensures order.id == id && order.itens == itens && order.clienteNome == clienteNome && order.timestamp == now
      ensures order.status == PEDIDO && order.timeline == map[PEDIDO := now]
      ensures Contents() == Put(old(Contents()), order.View())
      ensures forall i | 0 <= i < |orders| && orders[i] != order :: orders[i] in old(orders)
    {
      order := new Order(id, clienteNome, itens, now);
      order.timeline := order.timeline[PEDIDO := now];
      assert order.View() == NewRecord(id, itens, clienteNome, now);
      hide NewRecord;
      ghost var before := Contents();
      var at := 0;
      while at < |orders| && orders[at].id != id
        invariant at <= |orders|
        invariant forall i | 0 <= i < at :: orders[i].id != id
      {
        at := at + 1;
      }
      k := at;
      if at < |orders| {
        orders := orders[at := order];
        PutExisting(before, order.View(), at);
        assert Contents() == before[at := order.View()];
      } else {
        orders := orders + [order];
        PutFresh(before, order.View());
        assert Contents() == before + [order.View()];
      }
    }

    method GetOrder(id: string) returns (order: Order?)
      requires Valid()
      ensures order == null <==> Fresh(Contents(), id)
      ensures order != null ==> order in orders && order.id == id
    {
      for k := 0 to |orders|
        invariant forall i | 0 <= i < k :: orders[i].id != id
      {
        if orders[k].id == id {
          assert Contents()[k].id == id;
          return orders[k];
        }
      }
      return null;
    }
  }
}
