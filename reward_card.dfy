/**
 * One reward tile of the catalogue: whether it can be redeemed with the
 * points shown, and what its button and stock line display.
 */
module RewardCard {
  import opened Types

  const RedeemLabel: string := "Canjear"
  const InsufficientLabel: string := "Puntos insuficientes"

  /** `userPoints >= reward.points_required` */
  predicate CanRedeem(userPoints: int, reward: Reward)
  {
    userPoints >= reward.pointsRequired
  }

  /** `disabled={!canRedeem}`: the button is disabled exactly when the points fall short. */
  predicate ButtonDisabled(userPoints: int, reward: Reward): (r: bool)
    ensures r <==> userPoints < reward.pointsRequired
  {
    !CanRedeem(userPoints, reward)
  }

  /** The button text follows the same test as its enablement. */
  function ButtonLabel(userPoints: int, reward: Reward): (r: string)
    ensures r == RedeemLabel <==> !ButtonDisabled(userPoints, reward)
    ensures r == InsufficientLabel <==> ButtonDisabled(userPoints, reward)
  {
    if CanRedeem(userPoints, reward) then RedeemLabel else InsufficientLabel
  }

  /**
   * `available_quantity !== null && available_quantity !== undefined`; both
   * absent forms are `None` here, so the stock line shows exactly a present quantity.
   */
  predicate ShowsQuantity(reward: Reward): (r: bool)
    ensures r <==> reward.availableQuantity.Some?
  {
    match reward.availableQuantity
    case Some(_) => true
    case None => false
  }
}
