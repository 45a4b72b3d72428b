/**
 The market's rows and the cached indexes that summarise them: per-trader position
 lists, the open-position counter, and the pending-order counters.
 */
module MarketStore {
  import opened Types

  const MAX_OPEN_POSITIONS_TOTAL: nat := 1000
  const MAX_OPEN_POSITIONS_PER_TRADER: nat := 32
  const MAX_OPEN_ORDERS_TOTAL: nat := 2000
  const MAX_OPEN_ORDERS_PER_TRADER: nat := 128

  datatype Store = Store(
    positions: map<nat, Position>,
    traderPositions: map<Address, seq<nat>>,
    openPositionCount: nat,
    partialLiqTs: map<nat, nat>,
    orders: map<nat, Order>,
    openOrderCount: nat,
    orderCountOf: map<Address, nat>,
    crossPositions: map<Address, seq<nat>>)
  {
    function ListOf(trader: Address): seq<nat> {
      if trader in traderPositions then traderPositions[trader] else []
    }

    function CountOf(trader: Address): nat {
      if trader in orderCountOf then orderCountOf[trader] else 0
    }

    function CrossOf(trader: Address): seq<nat> {
      if trader in crossPositions then crossPositions[trader] else []
    }

    predicate WasPending(id: nat) {
      id in orders && orders[id].status == Pending
    }
  }

  const FRESH := Store(map[], map[], 0, map[], map[], 0, map[], map[])

  // ------------------------------------------------------------------ operations

  function SaturatingPred(n: nat): nat {
    if n == 0 then 0 else n - 1
  }

  /** The ids other than `id`, in order. */
  function Removed(ids: seq<nat>, id: nat): seq<nat> {
    if ids == [] then []
    else
      var last := ids[|ids| - 1];
      Removed(ids[..|ids| - 1], id) + if last == id then [] else [last]
  }

  /** A save goes through unless it creates a row beyond a cap. */
  predicate CanSavePosition(s: Store, p: Position) {
    p.id !in s.positions ==>
      |s.ListOf(p.trader)| < MAX_OPEN_POSITIONS_PER_TRADER && s.openPositionCount < MAX_OPEN_POSITIONS_TOTAL
  }

  function PositionSaved(s: Store, p: Position): Store {
    if !CanSavePosition(s, p) then s
    else if p.id in s.positions then s.(positions := s.positions[p.id := p])
    else
      s.(positions := s.positions[p.id := p],
         traderPositions := s.traderPositions[p.trader := s.ListOf(p.trader) + [p.id]],
         openPositionCount := s.openPositionCount + 1)
  }

  function PositionDeleted(s: Store, id: nat, trader: Address): Store {
    var list := Removed(s.ListOf(trader), id);
    s.(positions := s.positions - {id},
       partialLiqTs := s.partialLiqTs - {id},
       traderPositions := if |list| != |s.ListOf(trader)| then s.traderPositions[trader := list] else s.traderPositions,
       openPositionCount := if id in s.positions then SaturatingPred(s.openPositionCount) else s.openPositionCount)
  }

  /** An order save goes through unless it enters the pending set beyond a cap. */
  predicate CanSaveOrder(s: Store, o: Order, wasCounted: bool) {
    o.status == Pending && !wasCounted ==>
      s.CountOf(o.trader) < MAX_OPEN_ORDERS_PER_TRADER && s.openOrderCount < MAX_OPEN_ORDERS_TOTAL
  }

  function OrderWritten(s: Store, o: Order, wasCounted: bool): Store {
    if !CanSaveOrder(s, o, wasCounted) then s
    else
      var written := s.(orders := s.orders[o.id := o]);
      if o.status == Pending && !wasCounted then
        written.(orderCountOf := s.orderCountOf[o.trader := s.CountOf(o.trader) + 1],
                 openOrderCount := s.openOrderCount + 1)
      else if wasCounted && o.status != Pending then
        written.(orderCountOf := s.orderCountOf[o.trader := SaturatingPred(s.CountOf(o.trader))],
                 openOrderCount := SaturatingPred(s.openOrderCount))
      else written
  }

  function OrderSaved(s: Store, o: Order): Store {
    OrderWritten(s, o, s.WasPending(o.id))
  }

  function StatusUpdated(s: Store, id: nat, status: OrderStatus): Store {
    if id in s.orders then OrderWritten(s, s.orders[id].(status := status), s.WasPending(id)) else s
  }

  function PositionIdSet(s: Store, id: nat, positionId: nat): Store {
    if id in s.orders then s.(orders := s.orders[id := s.orders[id].(positionId := positionId)]) else s
  }

  function CrossAdded(s: Store, trader: Address, id: nat): Store {
    if id in s.CrossOf(trader) then s
    else s.(crossPositions := s.crossPositions[trader := s.CrossOf(trader) + [id]])
  }

  function CrossRemoved(s: Store, trader: Address, id: nat): Store {
    s.(crossPositions := s.crossPositions[trader := Removed(s.CrossOf(trader), id)])
  }

  // ------------------------------------------------------------ the stored object

  /** The contract's storage. A call that panics is rolled back and answers false. */
  class MarketStorage {
    var positions: map<nat, Position>
    var traderPositions: map<Address, seq<nat>>
    var openPositionCount: nat
    var partialLiqTs: map<nat, nat>
    var orders: map<nat, Order>
    var openOrderCount: nat
    var orderCountOf: map<Address, nat>
    var crossPositions: map<Address, seq<nat>>

    constructor ()
      ensures State() == FRESH
    {
      positions, traderPositions, openPositionCount, partialLiqTs := map[], map[], 0, map[];
      orders, openOrderCount, orderCountOf, crossPositions := map[], 0, map[], map[];
    }

    function State(): Store
      reads this
    {
      Store(positions, traderPositions, openPositionCount, partialLiqTs, orders, openOrderCount, orderCountOf, crossPositions)
    }

    method SavePosition(p: Position) returns (ok: bool)
      modifies this
      ensures ok == CanSavePosition(old(State()), p)
      ensures State() == PositionSaved(old(State()), p)
    {
      var savedPositions, savedLists := positions, traderPositions;
      var isNew := p.id !in positions;
      positions := positions[p.id := p];
      if !isNew {
        return true;
      }
      var list := if p.trader in traderPositions then traderPositions[p.trader] else [];
      if |list| >= MAX_OPEN_POSITIONS_PER_TRADER {
        positions := savedPositions;
        return false;
      }
      traderPositions := traderPositions[p.trader := list + [p.id]];
      if openPositionCount >= MAX_OPEN_POSITIONS_TOTAL {
        positions, traderPositions := savedPositions, savedLists;
        return false;
      }
      openPositionCount := openPositionCount + 1;
      return true;
    }

    method DeletePosition(id: nat, trader: Address)
      modifies this
      ensures State() == PositionDeleted(old(State()), id, trader)
    {
      var existed := id in positions;
      positions := positions - {id};
      partialLiqTs := partialLiqTs - {id};
      var list := if trader in traderPositions then traderPositions[trader] else [];
      var newList := Without(list, id);
      if |newList| != |list| {
        traderPositions := traderPositions[trader := newList];
      }
      if existed {
        openPositionCount := if openPositionCount == 0 then 0 else openPositionCount - 1;
      }
    }

    method SaveOrderWithPrev(o: Order, wasCounted: bool) returns (ok: bool)
      modifies this
      ensures ok == CanSaveOrder(old(State()), o, wasCounted)
      ensures State() == OrderWritten(old(State()), o, wasCounted)
    {
      var savedOrders := orders;
      var nowCounted := o.status == Pending;
      orders := orders[o.id := o];
      var perTrader := if o.trader in orderCountOf then orderCountOf[o.trader] else 0;
      if nowCounted && !wasCounted {
        if perTrader >= MAX_OPEN_ORDERS_PER_TRADER || openOrderCount >= MAX_OPEN_ORDERS_TOTAL {
          orders := savedOrders;
          return false;
        }
        orderCountOf := orderCountOf[o.trader := perTrader + 1];
        openOrderCount := openOrderCount + 1;
      } else if wasCounted && !nowCounted {
        orderCountOf := orderCountOf[o.trader := if perTrader == 0 then 0 else perTrader - 1];
        openOrderCount := if openOrderCount == 0 then 0 else openOrderCount - 1;
      }
      return true;
    }

    method SaveOrder(o: Order) returns (ok: bool)
      modifies this
      ensures State() == OrderSaved(old(State()), o)
      ensures ok == CanSaveOrder(old(State()), o, old(State()).WasPending(o.id))
    {
      var wasCounted := o.id in orders && orders[o.id].status == Pending;
      ok := SaveOrderWithPrev(o, wasCounted);
    }

    method UpdateOrderStatus(id: nat, status: OrderStatus)
      modifies this
      ensures State() == StatusUpdated(old(State()), id, status)
    {
      if id in orders {
        var order := orders[id];
        var wasCounted := order.status == Pending;
        var _ := SaveOrderWithPrev(order.(status := status), wasCounted);
      }
    }

    method SetOrderPositionId(id: nat, positionId: nat)
      modifies this
      ensures State() == PositionIdSet(old(State()), id, positionId)
    {
      if id in orders {
        orders := orders[id := orders[id].(positionId := positionId)];
      }
    }

    method AddCrossMarginPosition(trader: Address, id: nat)
      modifies this
      ensures State() == CrossAdded(old(State()), trader, id)
    {
      var ids := if trader in crossPositions then crossPositions[trader] else [];
      var found := false;
      for i := 0 to |ids|
        invariant !found && id !in ids[..i]
      {
        if ids[i] == id {
          found := true;
          break;
        }
      }
      assert found <==> id in ids by {
        assert ids[..|ids|] == ids;
      }
      if !found {
        crossPositions := crossPositions[trader := ids + [id]];
      }
    }

    method RemoveCrossMarginPosition(trader: Address, id: nat)
      modifies this
      ensures State() == CrossRemoved(old(State()), trader, id)
    {
      var ids := if trader in crossPositions then crossPositions[trader] else [];
      var newIds := Without(ids, id);
      crossPositions := crossPositions[trader := newIds];
    }
  }

  /** Rebuilds a list without one id. */
  method Without(ids: seq<nat>, id: nat) returns (rest: seq<nat>)
    ensures rest == Removed(ids, id)
  {
    rest := [];
    for i := 0 to |ids|
      invariant rest == Removed(ids[..i], id)
    {
      assert ids[..i + 1][..i] == ids[..i];
      if ids[i] != id {
        rest := rest + [ids[i]];
      }
    }
    assert ids[..|ids|] == ids;
  }

  // ------------------------------------------------------------- index invariant

  predicate NoDuplicates(ids: seq<nat>) {
    forall i, j :: 0 <= i < j < |ids| ==> ids[i] != ids[j]
  }

  /** The list of one trader names exactly that trader's rows, each once. */
  ghost predicate ListAgrees(positions: map<nat, Position>, list: seq<nat>, trader: Address) {
    && NoDuplicates(list)
    && |list| <= MAX_OPEN_POSITIONS_PER_TRADER
    && (forall id :: id in list <==> id in positions && positions[id].trader == trader)
  }

  /** The counter counts the rows, and each trader's list names that trader's rows, each once. */
  ghost predicate PositionsAgree(s: Store) {
    && s.openPositionCount == |s.positions| <= MAX_OPEN_POSITIONS_TOTAL
    && (forall t: Address :: ListAgrees(s.positions, s.ListOf(t), t))
  }

  function PendingIds(orders: map<nat, Order>): set<nat> {
    set id | id in orders && orders[id].status == Pending
  }

  function PendingOf(orders: map<nat, Order>, trader: Address): set<nat> {
    set id | id in orders && orders[id].status == Pending && orders[id].trader == trader
  }

  predicate RowsNamed(orders: map<nat, Order>) {
    forall id :: id in orders ==> orders[id].id == id
  }

  /** The order counters count the pending rows, in total and per trader; rows are stored under their own id. */
  ghost predicate OrdersAgree(s: Store) {
    && RowsNamed(s.orders)
    && s.openOrderCount == |PendingIds(s.orders)| <= MAX_OPEN_ORDERS_TOTAL
    && (forall t: Address :: CountAgrees(s, t))
  }

  predicate CountAgrees(s: Store, trader: Address) {
    s.CountOf(trader) == |PendingOf(s.orders, trader)| && s.CountOf(trader) <= MAX_OPEN_ORDERS_PER_TRADER
  }

  datatype Op =
    | Save(position: Position)
    | Delete(id: nat, trader: Address)
    | PutOrder(order: Order)
    | SetStatus(orderId: nat, status: OrderStatus)
    | SetPositionId(orderId: nat, positionId: nat)
    | MarkPartialLiq(id: nat, ts: nat)
    | AddCross(trader: Address, id: nat)
    | RemoveCross(trader: Address, id: nat)

  function Apply(s: Store, op: Op): Store {
    match op
    case Save(p) => PositionSaved(s, p)
    case Delete(id, trader) => PositionDeleted(s, id, trader)
    case PutOrder(o) => OrderSaved(s, o)
    case SetStatus(id, status) => StatusUpdated(s, id, status)
    case SetPositionId(id, positionId) => PositionIdSet(s, id, positionId)
    case MarkPartialLiq(id, ts) => s.(partialLiqTs := s.partialLiqTs[id := ts])
    case AddCross(trader, id) => CrossAdded(s, trader, id)
    case RemoveCross(trader, id) => CrossRemoved(s, trader, id)
  }

  /** A row keeps its trader: a save over an existing row carries the same trader,
      and a delete names the trader of the row it removes. */
  predicate KeepsTrader(s: Store, op: Op) {
    match op
    case Save(p) => p.id in s.positions ==> s.positions[p.id].trader == p.trader
    case Delete(id, trader) => id in s.positions ==> s.positions[id].trader == trader
    case PutOrder(o) => o.id in s.orders ==> s.orders[o.id].trader == o.trader
    case _ => true
  }

  function Run(s: Store, ops: seq<Op>): Store {
    if ops == [] then s else Apply(Run(s, ops[..|ops| - 1]), ops[|ops| - 1])
  }

  predicate Disciplined(s: Store, ops: seq<Op>) {
    ops != [] ==> Disciplined(s, ops[..|ops| - 1]) && KeepsTrader(Run(s, ops[..|ops| - 1]), ops[|ops| - 1])
  }

  // ---------------------------------------------------------------- list removal

  lemma {:induction false} RemovedContents(ids: seq<nat>, id: nat)
    ensures forall x :: x in Removed(ids, id) <==> x in ids && x != id
    ensures |Removed(ids, id)| <= |ids|
    ensures id !in ids ==> Removed(ids, id) == ids
    ensures id in ids ==> |Removed(ids, id)| < |ids|
    ensures NoDuplicates(ids) ==> NoDuplicates(Removed(ids, id))
  {
    if ids != [] {
      var init, last := ids[..|ids| - 1], ids[|ids| - 1];
      assert ids == init + [last];
      RemovedContents(init, id);
      if NoDuplicates(ids) {
        assert NoDuplicates(init);
        assert last !in init;
      }
    }
  }

  // ------------------------------------------------------------ positions agree

  lemma SaveKeepsPositions(s: Store, p: Position)
    requires PositionsAgree(s) && KeepsTrader(s, Save(p))
    ensures PositionsAgree(PositionSaved(s, p))
  {
    if CanSavePosition(s, p) {
      KeysAdded(s.positions, p.id, p);
      if p.id in s.positions {
        RewriteKeepsLists(s, p);
        assert forall a: Address :: PositionSaved(s, p).ListOf(a) == s.ListOf(a);
      } else {
        InsertKeepsLists(s, p);
      }
    }
  }

  lemma RewriteKeepsLists(s: Store, p: Position)
    requires PositionsAgree(s) && p.id in s.positions && s.positions[p.id].trader == p.trader
    ensures forall a: Address :: ListAgrees(s.positions[p.id := p], s.ListOf(a), a)
  {
    forall a: Address
      ensures ListAgrees(s.positions[p.id := p], s.ListOf(a), a)
    {
      assert ListAgrees(s.positions, s.ListOf(a), a);
    }
  }

  lemma InsertKeepsLists(s: Store, p: Position)
    requires PositionsAgree(s) && p.id !in s.positions && CanSavePosition(s, p)
    ensures forall a: Address :: ListAgrees(PositionSaved(s, p).positions, PositionSaved(s, p).ListOf(a), a)
  {
    var t := PositionSaved(s, p);
    forall a: Address
      ensures ListAgrees(t.positions, t.ListOf(a), a)
    {
      assert ListAgrees(s.positions, s.ListOf(a), a);
      assert t.ListOf(a) == if a == p.trader then s.ListOf(a) + [p.id] else s.ListOf(a);
    }
  }

  lemma KeysAdded<V>(m: map<nat, V>, id: nat, v: V)
    ensures |m[id := v]| == if id in m then |m| else |m| + 1
  {
    assert m[id := v].Keys == m.Keys + {id};
    assert |m[id := v].Keys| == |m[id := v]| && |m.Keys| == |m|;
  }

  lemma KeysRemoved<V>(m: map<nat, V>, id: nat)
    ensures |m - {id}| == if id in m then |m| - 1 else |m|
  {
    assert (m - {id}).Keys == m.Keys - {id};
    assert |(m - {id}).Keys| == |m - {id}| && |m.Keys| == |m|;
  }

  lemma DeleteKeepsPositions(s: Store, id: nat, trader: Address)
    requires PositionsAgree(s) && KeepsTrader(s, Delete(id, trader))
    ensures PositionsAgree(PositionDeleted(s, id, trader))
  {
    var t := PositionDeleted(s, id, trader);
    KeysRemoved(s.positions, id);
    RemovedContents(s.ListOf(trader), id);
    forall a: Address
      ensures ListAgrees(t.positions, t.ListOf(a), a)
    {
      assert ListAgrees(s.positions, s.ListOf(a), a) && ListAgrees(s.positions, s.ListOf(trader), trader);
      assert t.ListOf(a) == if a == trader then Removed(s.ListOf(a), id) else s.ListOf(a);
    }
  }

  // --------------------------------------------------------------- orders agree

  function Flag(b: bool): nat {
    if b then 1 else 0
  }

  /** Was this id pending, and for this trader? */
  predicate PendingFor(orders: map<nat, Order>, id: nat, trader: Address) {
    id in orders && orders[id].status == Pending && orders[id].trader == trader
  }

  lemma SizeAfterPut(ids: set<nat>, id: nat, present: bool)
    ensures |ids - {id} + if present then {id} else {}| == |ids| - Flag(id in ids) + Flag(present)
  {
    if id in ids {
      assert ids == ids - {id} + {id};
    } else {
      assert ids == ids - {id};
    }
  }

  /** How a write of one order row moves the size of the pending set. */
  lemma PendingAfterWrite(orders: map<nat, Order>, o: Order)
    ensures |PendingIds(orders[o.id := o])|
         == |PendingIds(orders)| - Flag(o.id in orders && orders[o.id].status == Pending) + Flag(o.status == Pending)
  {
    SizeAfterPut(PendingIds(orders), o.id, o.status == Pending);
    PendingWritten(orders, o);
  }

  lemma PendingWritten(orders: map<nat, Order>, o: Order)
    ensures PendingIds(orders[o.id := o]) == PendingIds(orders) - {o.id} + if o.status == Pending then {o.id} else {}
    ensures o.id in PendingIds(orders) <==> o.id in orders && orders[o.id].status == Pending
  {
  }

  lemma PendingOfAfterWrite(orders: map<nat, Order>, o: Order, trader: Address)
    ensures |PendingOf(orders[o.id := o], trader)|
         == |PendingOf(orders, trader)| - Flag(PendingFor(orders, o.id, trader))
            + Flag(o.status == Pending && o.trader == trader)
  {
    SizeAfterPut(PendingOf(orders, trader), o.id, o.status == Pending && o.trader == trader);
    PendingOfWritten(orders, o, trader);
  }

  lemma PendingOfWritten(orders: map<nat, Order>, o: Order, trader: Address)
    ensures PendingOf(orders[o.id := o], trader)
         == PendingOf(orders, trader) - {o.id} + if o.status == Pending && o.trader == trader then {o.id} else {}
    ensures o.id in PendingOf(orders, trader) <==> PendingFor(orders, o.id, trader)
  {
  }

  lemma WriteKeepsOrders(s: Store, o: Order)
    requires OrdersAgree(s)
    requires o.id in s.orders ==> s.orders[o.id].trader == o.trader
    ensures OrdersAgree(OrderWritten(s, o, s.WasPending(o.id)))
  {
    if CanSaveOrder(s, o, s.WasPending(o.id)) {
      PendingAfterWrite(s.orders, o);
      forall a: Address
        ensures CountAgrees(OrderWritten(s, o, s.WasPending(o.id)), a)
      {
        assert CountAgrees(s, o.trader);
        WriteKeepsCount(s, o, a);
      }
      assert CountAgrees(s, o.trader);
      SomePending(s.orders, o);
    }
  }

  lemma WriteKeepsCount(s: Store, o: Order, trader: Address)
    requires CountAgrees(s, trader) && CountAgrees(s, o.trader)
    requires o.id in s.orders ==> s.orders[o.id].trader == o.trader
    requires CanSaveOrder(s, o, s.WasPending(o.id))
    ensures CountAgrees(OrderWritten(s, o, s.WasPending(o.id)), trader)
  {
    PendingOfAfterWrite(s.orders, o, trader);
    SomePending(s.orders, o);
  }

  lemma SomePending(orders: map<nat, Order>, o: Order)
    ensures o.id in orders && orders[o.id].status == Pending ==> |PendingIds(orders)| > 0
    ensures PendingFor(orders, o.id, o.trader) ==> |PendingOf(orders, o.trader)| > 0
  {
    assert o.id in orders && orders[o.id].status == Pending ==> o.id in PendingIds(orders);
    assert PendingFor(orders, o.id, o.trader) ==> o.id in PendingOf(orders, o.trader);
  }

  lemma PositionIdKeepsPending(orders: map<nat, Order>, id: nat, positionId: nat)
    requires id in orders
    ensures var orders' := orders[id := orders[id].(positionId := positionId)];
            && PendingIds(orders') == PendingIds(orders)
            && forall t: Address :: PendingOf(orders', t) == PendingOf(orders, t)
  {
  }

  lemma PositionIdKeepsOrders(s: Store, id: nat, positionId: nat)
    requires OrdersAgree(s)
    ensures OrdersAgree(PositionIdSet(s, id, positionId))
  {
    if id in s.orders {
      PositionIdKeepsPending(s.orders, id, positionId);
      forall a: Address
        ensures CountAgrees(PositionIdSet(s, id, positionId), a)
      {
        assert CountAgrees(s, a);
      }
    }
  }

  lemma OtherWritesKeepOrders(s: Store, t: Store)
    requires OrdersAgree(s)
    requires t.openOrderCount == s.openOrderCount && t.orderCountOf == s.orderCountOf && t.orders == s.orders
    ensures OrdersAgree(t)
  {
    forall a: Address
      ensures CountAgrees(t, a)
    {
      assert CountAgrees(s, a);
    }
  }

  lemma OtherWritesKeepPositions(s: Store, t: Store)
    requires PositionsAgree(s)
    requires t.positions == s.positions && t.traderPositions == s.traderPositions
    requires t.openPositionCount == s.openPositionCount
    ensures PositionsAgree(t)
  {
    forall a: Address
      ensures t.ListOf(a) == s.ListOf(a)
    {
    }
  }

  lemma StepKeepsPositions(s: Store, op: Op)
    requires PositionsAgree(s) && KeepsTrader(s, op)
    ensures PositionsAgree(Apply(s, op))
  {
    match op {
      case Save(p) => SaveKeepsPositions(s, p);
      case Delete(id, trader) => DeleteKeepsPositions(s, id, trader);
      case _ =>
        OtherOpsLeavePositions(s, op);
        OtherWritesKeepPositions(s, Apply(s, op));
    }
  }

  lemma OtherOpsLeavePositions(s: Store, op: Op)
    requires !op.Save? && !op.Delete?
    ensures var t := Apply(s, op);
            && t.positions == s.positions && t.traderPositions == s.traderPositions
            && t.openPositionCount == s.openPositionCount
  {
  }

  lemma StepKeepsOrders(s: Store, op: Op)
    requires OrdersAgree(s) && KeepsTrader(s, op)
    ensures OrdersAgree(Apply(s, op))
  {
    match op {
      case PutOrder(o) => WriteKeepsOrders(s, o);
      case SetStatus(id, status) => StatusKeepsOrders(s, id, status);
      case SetPositionId(id, positionId) => PositionIdKeepsOrders(s, id, positionId);
      case _ => OtherWritesKeepOrders(s, Apply(s, op));
    }
  }

  lemma StatusKeepsOrders(s: Store, id: nat, status: OrderStatus)
    requires OrdersAgree(s)
    ensures OrdersAgree(StatusUpdated(s, id, status))
  {
    if id in s.orders {
      WriteKeepsOrders(s, s.orders[id].(status := status));
    }
  }

  /** In every state reachable from a fresh store, with each row id keeping one
      trader, the indexes agree with the rows and the caps hold. */
  lemma {:induction false} IndexesAgreeInEveryRun(ops: seq<Op>)
    requires Disciplined(FRESH, ops)
    ensures PositionsAgree(Run(FRESH, ops)) && OrdersAgree(Run(FRESH, ops))
  {
    if ops == [] {
      assert PendingIds(map[]) == {};
      assert forall t: Address :: FRESH.ListOf(t) == [] && PendingOf(map[], t) == {};
    } else {
      IndexesAgreeInEveryRun(ops[..|ops| - 1]);
      StepKeepsPositions(Run(FRESH, ops[..|ops| - 1]), ops[|ops| - 1]);
      StepKeepsOrders(Run(FRESH, ops[..|ops| - 1]), ops[|ops| - 1]);
    }
  }

  // -------------------------------------------------------- sum over the traders

  function SumCounts(s: Store, traders: seq<Address>): nat {
    if traders == [] then 0
    else SumCounts(s, traders[..|traders| - 1]) + s.CountOf(traders[|traders| - 1])
  }

  function PendingOfAll(orders: map<nat, Order>, traders: seq<Address>): set<nat> {
    set id | id in orders && orders[id].status == Pending && orders[id].trader in traders
  }

  predicate Distinct(traders: seq<Address>) {
    forall i, j :: 0 <= i < j < |traders| ==> traders[i] != traders[j]
  }

  lemma PendingOfMore(orders: map<nat, Order>, traders: seq<Address>, last: Address)
    requires last !in traders
    ensures |PendingOfAll(orders, traders + [last])| == |PendingOfAll(orders, traders)| + |PendingOf(orders, last)|
  {
    assert PendingOfAll(orders, traders + [last]) == PendingOfAll(orders, traders) + PendingOf(orders, last);
    assert PendingOfAll(orders, traders) !! PendingOf(orders, last);
  }

  lemma {:induction false} CountsAddUp(s: Store, traders: seq<Address>)
    requires OrdersAgree(s) && Distinct(traders)
    ensures SumCounts(s, traders) == |PendingOfAll(s.orders, traders)|
  {
    if traders == [] {
      assert PendingOfAll(s.orders, traders) == {};
    } else {
      var init, last := traders[..|traders| - 1], traders[|traders| - 1];
      assert traders == init + [last];
      CountsAddUp(s, init);
      PendingOfMore(s.orders, init, last);
      assert CountAgrees(s, last);
    }
  }

  /** The per-trader counters add up to the total: over any list of distinct
      traders that leaves out nobody with a pending order. */
  lemma TotalIsSumOfTraders(s: Store, traders: seq<Address>)
    requires OrdersAgree(s) && Distinct(traders)
    requires forall id :: id in s.orders && s.orders[id].status == Pending ==> s.orders[id].trader in traders
    ensures s.openOrderCount == SumCounts(s, traders)
  {
    CountsAddUp(s, traders);
    assert PendingOfAll(s.orders, traders) == PendingIds(s.orders);
  }

  // ------------------------------------------------------------- no-op transitions

  /** A second delete of the same position changes nothing, and deleting an id
      that has no row leaves everything but its grace marker alone. */
  lemma DeletesAreIdempotent(s: Store, id: nat, trader: Address)
    requires PositionsAgree(s) && KeepsTrader(s, Delete(id, trader))
    ensures var t := PositionDeleted(s, id, trader); PositionDeleted(t, id, trader) == t
    ensures id !in s.positions ==> PositionDeleted(s, id, trader) == s.(partialLiqTs := s.partialLiqTs - {id})
  {
    RemovedContents(s.ListOf(trader), id);
    AbsentDelete(PositionDeleted(s, id, trader), id, trader);
    if id !in s.positions {
      ListNamesRows(s, id, trader);
      AbsentDelete(s, id, trader);
    }
  }

  /** Deleting what is neither a row nor listed only drops the grace marker. */
  lemma AbsentDelete(s: Store, id: nat, trader: Address)
    requires id !in s.positions && id !in s.ListOf(trader)
    ensures PositionDeleted(s, id, trader) == s.(partialLiqTs := s.partialLiqTs - {id})
    ensures id !in s.partialLiqTs ==> PositionDeleted(s, id, trader) == s
  {
    RemovedContents(s.ListOf(trader), id);
    assert s.positions - {id} == s.positions;
    if id !in s.partialLiqTs {
      assert s.partialLiqTs - {id} == s.partialLiqTs;
    }
  }

  lemma ListNamesRows(s: Store, id: nat, trader: Address)
    requires PositionsAgree(s)
    ensures id in s.ListOf(trader) <==> id in s.positions && s.positions[id].trader == trader
  {
    assert ListAgrees(s.positions, s.ListOf(trader), trader);
  }

  /** Saving and then deleting a new position restores the store, apart from the
      empty list a trader's first position leaves behind and the id's grace marker. */
  lemma SaveThenDelete(s: Store, p: Position)
    requires PositionsAgree(s) && p.id !in s.positions && CanSavePosition(s, p)
    ensures var t := PositionDeleted(PositionSaved(s, p), p.id, p.trader);
            && t == s.(traderPositions := t.traderPositions, partialLiqTs := s.partialLiqTs - {p.id})
            && forall a: Address :: t.ListOf(a) == s.ListOf(a)
  {
    ListNamesRows(s, p.id, p.trader);
    AppendThenRemove(s.ListOf(p.trader), p.id);
    AddThenDropRow(s.positions, p);
  }

  lemma AppendThenRemove(ids: seq<nat>, id: nat)
    requires id !in ids
    ensures Removed(ids + [id], id) == ids
  {
    RemovedContents(ids, id);
    assert (ids + [id])[..|ids|] == ids;
  }

  lemma AddThenDropRow(positions: map<nat, Position>, p: Position)
    requires p.id !in positions
    ensures positions[p.id := p] - {p.id} == positions
  {
  }

  /** Leaving the pending set twice counts once: after any status that is not
      Pending, every further such status leaves both counters as they are. */
  lemma DoubleCancelCountsOnce(s: Store, id: nat, first: OrderStatus, second: OrderStatus)
    requires OrdersAgree(s) && first != Pending && second != Pending
    ensures var once := StatusUpdated(s, id, first);
            var twice := StatusUpdated(once, id, second);
            && twice.openOrderCount == once.openOrderCount
            && twice.orderCountOf == once.orderCountOf
            && (first == second ==> twice == once)
            && (s.WasPending(id) ==> once.openOrderCount == s.openOrderCount - 1)
            && (!s.WasPending(id) ==> once.openOrderCount == s.openOrderCount)
  {
    if id in s.orders {
      PendingAfterWrite(s.orders, s.orders[id].(status := first));
      var once := StatusUpdated(s, id, first);
      assert once.orders[id].id == id;
      assert once.orders[id := once.orders[id]] == once.orders;
    }
  }

  // ------------------------------------------------------------- unseeded stores

  /** What an in-place upgrade starts from: order rows stored under their own id, and
      counters that may lag behind their rows because nobody has seeded them yet. The
      position lists are not part of this. */
  ghost predicate CountersLag(s: Store) {
    && RowsNamed(s.orders)
    && s.openPositionCount <= |s.positions|
    && s.openOrderCount <= |PendingIds(s.orders)|
    && (forall t: Address :: s.CountOf(t) <= |PendingOf(s.orders, t)|)
  }

  lemma WriteKeepsLag(s: Store, o: Order)
    requires CountersLag(s)
    requires o.id in s.orders ==> s.orders[o.id].trader == o.trader
    ensures CountersLag(OrderWritten(s, o, s.WasPending(o.id)))
  {
    var t := OrderWritten(s, o, s.WasPending(o.id));
    if CanSaveOrder(s, o, s.WasPending(o.id)) {
      PendingAfterWrite(s.orders, o);
      forall a: Address
        ensures t.CountOf(a) <= |PendingOf(t.orders, a)|
      {
        PendingOfAfterWrite(s.orders, o, a);
        assert s.CountOf(a) <= |PendingOf(s.orders, a)|;
      }
    }
  }

  lemma OtherWritesKeepLag(s: Store, t: Store)
    requires CountersLag(s)
    requires t.openOrderCount == s.openOrderCount && t.orderCountOf == s.orderCountOf && t.orders == s.orders
    requires t.openPositionCount <= |t.positions|
    ensures CountersLag(t)
  {
    forall a: Address
      ensures t.CountOf(a) == s.CountOf(a)
    {
    }
  }

  lemma PositionIdKeepsLag(s: Store, id: nat, positionId: nat)
    requires CountersLag(s)
    ensures CountersLag(PositionIdSet(s, id, positionId))
  {
    if id in s.orders {
      PositionIdKeepsPending(s.orders, id, positionId);
    }
  }

  lemma SaveKeepsLag(s: Store, p: Position)
    requires CountersLag(s)
    ensures CountersLag(PositionSaved(s, p))
  {
    KeysAdded(s.positions, p.id, p);
    OtherWritesKeepLag(s, PositionSaved(s, p));
  }

  lemma DeleteKeepsLag(s: Store, id: nat, trader: Address)
    requires CountersLag(s)
    ensures CountersLag(PositionDeleted(s, id, trader))
  {
    KeysRemoved(s.positions, id);
    OtherWritesKeepLag(s, PositionDeleted(s, id, trader));
  }

  lemma StatusKeepsLag(s: Store, id: nat, status: OrderStatus)
    requires CountersLag(s)
    ensures CountersLag(StatusUpdated(s, id, status))
  {
    if id in s.orders {
      WriteKeepsLag(s, s.orders[id].(status := status));
    }
  }

  lemma StepKeepsLag(s: Store, op: Op)
    requires CountersLag(s) && KeepsTrader(s, op)
    ensures CountersLag(Apply(s, op))
  {
    match op {
      case Save(p) => SaveKeepsLag(s, p);
      case Delete(id, trader) => DeleteKeepsLag(s, id, trader);
      case PutOrder(o) => WriteKeepsLag(s, o);
      case SetStatus(id, status) => StatusKeepsLag(s, id, status);
      case SetPositionId(id, positionId) => PositionIdKeepsLag(s, id, positionId);
      case _ => OtherWritesKeepLag(s, Apply(s, op));
    }
  }

  /** Without seeding the counters never over-report: saturation keeps them at or
      below the rows they stand for, over every run. */
  lemma {:induction false} UnseededCountersNeverExceedRows(s: Store, ops: seq<Op>)
    requires CountersLag(s) && Disciplined(s, ops)
    ensures CountersLag(Run(s, ops))
  {
    if ops != [] {
      UnseededCountersNeverExceedRows(s, ops[..|ops| - 1]);
      StepKeepsLag(Run(s, ops[..|ops| - 1]), ops[|ops| - 1]);
    }
  }

  // ------------------------------------------------------------------ cross list

  /** The cross list never holds an id twice; a remove takes the id out and
      undoes the add that put it in. */
  lemma CrossListIsASet(s: Store, trader: Address, id: nat)
    requires NoDuplicates(s.CrossOf(trader))
    ensures NoDuplicates(CrossAdded(s, trader, id).CrossOf(trader))
    ensures NoDuplicates(CrossRemoved(s, trader, id).CrossOf(trader))
    ensures id !in CrossRemoved(s, trader, id).CrossOf(trader)
    ensures CrossAdded(CrossAdded(s, trader, id), trader, id) == CrossAdded(s, trader, id)
    ensures id !in s.CrossOf(trader) ==>
              CrossRemoved(CrossAdded(s, trader, id), trader, id).CrossOf(trader) == s.CrossOf(trader)
  {
    var ids := s.CrossOf(trader);
    RemovedContents(ids, id);
    assert (ids + [id])[..|ids|] == ids;
  }
}
