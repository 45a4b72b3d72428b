/**
 What the market's storage holds after a run of writes: each row, marker and list is
 that of the last write that touched it, and a write is refused only at a cap.
 */
module StoreRows {
  import opened Wrappers
  import opened Types
  import opened MarketStore

  function At<V>(m: map<nat, V>, id: nat): Option<V> {
    if id in m then Some(m[id]) else None
  }

  // -------------------------------------------------------------------- positions

  /** The position of the last successful save of the id with no later delete. */
  function LastSaved(s: Store, ops: seq<Op>, id: nat): Option<Position> {
    if ops == [] then At(s.positions, id)
    else
      var before, op := LastSaved(s, ops[..|ops| - 1], id), ops[|ops| - 1];
      match op
      case Save(p) => if p.id == id && CanSavePosition(Run(s, ops[..|ops| - 1]), p) then Some(p) else before
      case Delete(deleted, _) => if deleted == id then None else before
      case _ => before
  }

  lemma StepMovesRow(s: Store, op: Op, id: nat)
    ensures At(Apply(s, op).positions, id) ==
            if op.Save? && op.position.id == id && CanSavePosition(s, op.position) then Some(op.position)
            else if op.Delete? && op.id == id then None
            else At(s.positions, id)
  {
    if !op.Save? && !op.Delete? {
      OtherOpsLeavePositions(s, op);
    }
  }

  /** Over every run each position row is exactly what was last saved under its id. */
  lemma {:induction false} RowsAreLastSaved(s: Store, ops: seq<Op>, id: nat)
    ensures At(Run(s, ops).positions, id) == LastSaved(s, ops, id)
  {
    if ops != [] {
      RowsAreLastSaved(s, ops[..|ops| - 1], id);
      StepMovesRow(Run(s, ops[..|ops| - 1]), ops[|ops| - 1], id);
    }
  }

  /** A save that goes through stores the given position and touches no other row. */
  lemma SaveStores(s: Store, p: Position, other: nat)
    requires CanSavePosition(s, p)
    ensures var t := PositionSaved(s, p);
            At(t.positions, p.id) == Some(p) && (other != p.id ==> At(t.positions, other) == At(s.positions, other))
  {
  }

  function RowsOf(s: Store, trader: Address): set<nat> {
    set id | id in s.positions && s.positions[id].trader == trader
  }

  function Members(ids: seq<nat>): set<nat> {
    set id | id in ids
  }

  lemma {:induction false} DistinctSize(ids: seq<nat>)
    requires NoDuplicates(ids)
    ensures |Members(ids)| == |ids|
  {
    if ids == [] {
      assert Members(ids) == {};
    } else {
      var init, last := ids[..|ids| - 1], ids[|ids| - 1];
      DistinctSize(init);
      LastIsNew(ids);
      assert Members(ids) == Members(init) + {last};
    }
  }

  lemma LastIsNew(ids: seq<nat>)
    requires ids != [] && NoDuplicates(ids)
    ensures var init, last := ids[..|ids| - 1], ids[|ids| - 1];
            NoDuplicates(init) && last !in init && forall id :: id in ids <==> id in init || id == last
  {
    var init, last := ids[..|ids| - 1], ids[|ids| - 1];
    assert ids == init + [last];
  }

  /** In every run that keeps traders, a save is refused exactly when it would create
      the trader's 33rd or the market's 1001st row. */
  lemma SaveRefusedExactly(ops: seq<Op>, p: Position)
    requires Disciplined(FRESH, ops)
    ensures var s := Run(FRESH, ops);
            CanSavePosition(s, p) <==> (p.id in s.positions || (|RowsOf(s, p.trader)| < 32 && |s.positions| < 1000))
  {
    IndexesAgreeInEveryRun(ops);
    var s := Run(FRESH, ops);
    assert ListAgrees(s.positions, s.ListOf(p.trader), p.trader);
    assert RowsOf(s, p.trader) == Members(s.ListOf(p.trader));
    DistinctSize(s.ListOf(p.trader));
  }

  // ----------------------------------------------------------------------- orders

  /** The order as the last successful writes of its id left it. */
  function LastWritten(s: Store, ops: seq<Op>, id: nat): Option<Order> {
    if ops == [] then At(s.orders, id)
    else
      var before, op, now := LastWritten(s, ops[..|ops| - 1], id), ops[|ops| - 1], Run(s, ops[..|ops| - 1]);
      match op
      case PutOrder(o) => if o.id == id && CanSaveOrder(now, o, now.WasPending(o.id)) then Some(o) else before
      case SetStatus(updated, status) =>
        if updated == id && before.Some? && CanSaveOrder(now, before.value.(status := status), now.WasPending(id))
        then Some(before.value.(status := status)) else before
      case SetPositionId(updated, positionId) =>
        if updated == id && before.Some? then Some(before.value.(positionId := positionId)) else before
      case _ => before
  }

  lemma WriteMovesOrder(s: Store, o: Order, wasCounted: bool, id: nat)
    ensures At(OrderWritten(s, o, wasCounted).orders, id) ==
            if o.id == id && CanSaveOrder(s, o, wasCounted) then Some(o) else At(s.orders, id)
  {
  }

  lemma OthersLeaveOrders(s: Store, op: Op)
    requires !op.PutOrder? && !op.SetStatus? && !op.SetPositionId?
    ensures Apply(s, op).orders == s.orders
  {
  }

  lemma StepMovesOrder(s: Store, op: Op, id: nat)
    requires RowsNamed(s.orders)
    ensures At(Apply(s, op).orders, id) ==
            match op
            case PutOrder(o) => if o.id == id && CanSaveOrder(s, o, s.WasPending(o.id)) then Some(o) else At(s.orders, id)
            case SetStatus(updated, status) =>
              if updated == id && id in s.orders && CanSaveOrder(s, s.orders[id].(status := status), s.WasPending(id))
              then Some(s.orders[id].(status := status)) else At(s.orders, id)
            case SetPositionId(updated, positionId) =>
              if updated == id && id in s.orders then Some(s.orders[id].(positionId := positionId)) else At(s.orders, id)
            case _ => At(s.orders, id)
  {
    match op {
      case PutOrder(o) => WriteMovesOrder(s, o, s.WasPending(o.id), id);
      case SetStatus(updated, status) =>
        if updated in s.orders {
          WriteMovesOrder(s, s.orders[updated].(status := status), s.WasPending(updated), id);
        }
      case SetPositionId(updated, positionId) =>
      case _ => OthersLeaveOrders(s, op);
    }
  }

  /** Over every run each order row is exactly what the last writes of its id made it. */
  lemma {:induction false} OrdersAreLastWritten(ops: seq<Op>, id: nat)
    requires Disciplined(FRESH, ops)
    ensures At(Run(FRESH, ops).orders, id) == LastWritten(FRESH, ops, id)
  {
    if ops != [] {
      OrdersAreLastWritten(ops[..|ops| - 1], id);
      IndexesAgreeInEveryRun(ops[..|ops| - 1]);
      StepMovesOrder(Run(FRESH, ops[..|ops| - 1]), ops[|ops| - 1], id);
    }
  }

  /** A status change is refused exactly when it would bring back the trader's 129th or
      the market's 2001st pending order. */
  lemma WriteRefusedExactly(ops: seq<Op>, o: Order)
    requires Disciplined(FRESH, ops)
    ensures var s := Run(FRESH, ops);
            CanSaveOrder(s, o, s.WasPending(o.id)) <==>
              (o.status != Pending || s.WasPending(o.id)
               || (|PendingOf(s.orders, o.trader)| < 128 && |PendingIds(s.orders)| < 2000))
  {
    IndexesAgreeInEveryRun(ops);
    assert CountAgrees(Run(FRESH, ops), o.trader);
  }

  // ------------------------------------------------------- markers and cross lists

  /** The time of the last partial liquidation marked with no later delete. */
  function LastMarked(s: Store, ops: seq<Op>, id: nat): Option<nat> {
    if ops == [] then At(s.partialLiqTs, id)
    else
      var before, op := LastMarked(s, ops[..|ops| - 1], id), ops[|ops| - 1];
      if op.Delete? && op.id == id then None
      else if op.MarkPartialLiq? && op.id == id then Some(op.ts)
      else before
  }

  lemma StepMovesMarker(s: Store, op: Op, id: nat)
    ensures At(Apply(s, op).partialLiqTs, id) ==
            if op.Delete? && op.id == id then None
            else if op.MarkPartialLiq? && op.id == id then Some(op.ts)
            else At(s.partialLiqTs, id)
  {
  }

  lemma {:induction false} MarkersAreLastMarked(s: Store, ops: seq<Op>, id: nat)
    ensures At(Run(s, ops).partialLiqTs, id) == LastMarked(s, ops, id)
  {
    if ops != [] {
      MarkersAreLastMarked(s, ops[..|ops| - 1], id);
      StepMovesMarker(Run(s, ops[..|ops| - 1]), ops[|ops| - 1], id);
    }
  }

  /** The last add or remove of this id in this trader's cross list was an add. */
  predicate LastAdded(s: Store, ops: seq<Op>, trader: Address, id: nat) {
    if ops == [] then id in s.CrossOf(trader)
    else
      var op := ops[|ops| - 1];
      op == AddCross(trader, id) || (op != RemoveCross(trader, id) && LastAdded(s, ops[..|ops| - 1], trader, id))
  }

  lemma StepMovesCross(s: Store, op: Op, trader: Address, id: nat)
    ensures id in Apply(s, op).CrossOf(trader) <==>
            op == AddCross(trader, id) || (op != RemoveCross(trader, id) && id in s.CrossOf(trader))
  {
    match op {
      case AddCross(other, added) =>
      case RemoveCross(other, removed) => RemovedContents(s.CrossOf(other), removed);
      case _ => OthersLeaveCross(s, op);
    }
  }

  lemma OthersLeaveCross(s: Store, op: Op)
    requires !op.AddCross? && !op.RemoveCross?
    ensures Apply(s, op).crossPositions == s.crossPositions
  {
  }

  /** A trader's cross list holds exactly the ids added and not removed since. */
  lemma {:induction false} CrossHoldsLastAdded(s: Store, ops: seq<Op>, trader: Address, id: nat)
    ensures id in Run(s, ops).CrossOf(trader) <==> LastAdded(s, ops, trader, id)
  {
    if ops != [] {
      CrossHoldsLastAdded(s, ops[..|ops| - 1], trader, id);
      StepMovesCross(Run(s, ops[..|ops| - 1]), ops[|ops| - 1], trader, id);
    }
  }
}
