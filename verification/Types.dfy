/** Entities shared by the market contract's components. */
module Types {

  type Address = string
  type Symbol = string

  datatype Direction = Long | Short

  datatype Position = Position(
    id: nat,
    trader: Address,
    asset: Symbol,
    collateral: int,
    size: int,
    entryPrice: int,
    direction: Direction,
    leverage: nat,
    liquidationPrice: int,
    timestamp: nat,
    entryCumulativeFunding: int,
    marginMode: nat)

  datatype OrderStatus = Pending | Executed | Cancelled | CancelledSlippage | Expired

  /** The fields of an order that the counters and the reconcile path look at. */
  datatype Order = Order(id: nat, trader: Address, status: OrderStatus, positionId: nat)

  /** Per-market risk ladder entry. */
  datatype AssetRiskParams = AssetRiskParams(
    maxLeverage: nat,
    imBps: nat,
    mmBps: nat,
    closeOutBps: nat,
    maxPositionSize: int,
    fundingClampBps: nat,
    skewScale: int)
  {
    /** The structural check made by the admin setter. */
    predicate IsValid() {
      && imBps > 0
      && mmBps > 0
      && mmBps == imBps / 2
      && imBps >= 400
      && maxLeverage >= 1
      && maxLeverage <= 10_000 / imBps
      && closeOutBps < mmBps
      && maxPositionSize > 0
      && fundingClampBps <= 1_000
      && skewScale >= 0
    }
  }
}
