/** The trade decision of `main()`: the holdability signal against the
    current position in the traded ETF, and the quote each order side uses. */
module Trading {

  import opened Wrappers

  /** Order side (`sjc.Action`). */
  datatype Action = Buy | Sell

  /** What the run should do about the position. */
  datatype Intent = Place(action: Action) | NoOp

  /** A day, limit, odd-lot order for the fixed instrument. */
  datatype Order = Order(action: Action, quantity: int, price: real)

  /** The decision table: hold and not held -> buy; not hold and held ->
      sell; otherwise nothing ("already held" / "nothing to sell"). */
  function Decide(holdable: bool, onHand: bool): (intent: Intent)
    ensures intent == Place(Buy) <==> holdable && !onHand
    ensures intent == Place(Sell) <==> !holdable && onHand
    ensures intent == NoOp <==> holdable == onHand
  {
    if holdable then
      if onHand then NoOp else Place(Buy)
    else
      if onHand then Place(Sell) else NoOp
  }

  /** The holding the intent aims at: a buy is meant to open the position,
      a sell to close it. (Whether it does depends on the order filling and
      on `--trade-amount` covering the position; neither is known here.) */
  function IntendedHolding(onHand: bool, intent: Intent): bool
  {
    match intent
    case Place(Buy) => true
    case Place(Sell) => false
    case NoOp => onHand
  }

  /** The decision aims at the holding the signal asks for, and an order is
      placed only when the current holding and the signal disagree. */
  lemma DecisionAlignsPosition(holdable: bool, onHand: bool)
    ensures IntendedHolding(onHand, Decide(holdable, onHand)) == holdable
    ensures Decide(holdable, onHand).Place? <==> onHand != holdable
  {
  }

  /** The price each side trades at: a buy at the best ask (`get_sell_price`,
      the price sellers ask), a sell at the best bid (`get_buy_price`).
      `None` when that snapshot query failed. */
  function QuoteFor(action: Action, ask: Option<real>, bid: Option<real>): (price: Option<real>)
  {
    match action
    case Buy => ask
    case Sell => bid
  }
}
