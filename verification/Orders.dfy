/** Sides, orders and fills, as the engine tracks them. */
module Orders {

  datatype Option<+T> = None | Some(value: T)

  type OrderId = int

  /** One book: an instrument and one of its outcomes. */
  datatype Slot = Slot(instrument: nat, outcome: nat)

  datatype Side = Buy | Sell {
    function Opposite(): Side {
      if Buy? then Sell else Buy
    }

    /** +1 for a buy, -1 for a sell: the sign a fill applies to a position. */
    function Signum(): int {
      if Buy? then 1 else -1
    }
  }

  datatype Kind = Market | Limit(limit: int)

  datatype TimeInForce = GoodTilCancel | ImmediateOrCancel | FillOrKill

  datatype Status =
    | InFlight | Untriggered | Accepted | PartiallyFilled
    | Filled | Cancelled | Rejected
  {
    predicate IsTerminal() {
      Filled? || Cancelled? || Rejected?
    }
  }

  datatype Trigger = Above(price: int) | Below(price: int) {
    predicate FiresAt(reference: int) {
      match this
      case Above(p) => reference >= p
      case Below(p) => reference <= p
    }
  }

  datatype Order = Order(
    id: OrderId,
    slot: Slot,
    side: Side,
    kind: Kind,
    quantity: int,
    filled: int,
    tif: TimeInForce,
    status: Status,
    reduceOnly: bool,
    postOnly: bool,
    trigger: Option<Trigger>)
  {
    /** Quantity not yet filled. */
    function Remaining(): int {
      quantity - filled
    }

    predicate IsOpen() {
      !status.IsTerminal()
    }

    /** The price cap this order will accept, if any. */
    function LimitPrice(): Option<int> {
      match kind
      case Market => None
      case Limit(p) => Some(p)
    }

    predicate WouldOverfill(q: int) {
      filled + q > quantity
    }

    function RecordFill(q: int): Order {
      var total := filled + q;
      this.(filled := total, status := if total == quantity then Filled else PartiallyFilled)
    }
  }

  datatype Fill = Fill(
    orderId: OrderId,
    slot: Slot,
    side: Side,
    price: int,
    quantity: int,
    commission: int,
    isTaker: bool)
  {
    function Signed(): int {
      quantity * side.Signum()
    }
  }
}
