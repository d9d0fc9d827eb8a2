/** Cancellation refunds: proration tiers by time before pickup. */
module Cancellation {
  import opened Domain
  import opened Quoting

  const HOUR_MS := 60 * 60 * 1000

  datatype Refunded = Refunded(refund: int, pct: nat, penalty: int)

  /** Percentage of the fees refunded; `lead` is the time before pickup in milliseconds. */
  function RefundPct(policy: Policy, lead: nat): (pct: nat)
    ensures pct in {0, 50, 100}
  {
    match policy
    case Flexible => if lead >= 24 * HOUR_MS then 100 else 50
    case Moderate => if lead >= 72 * HOUR_MS then 100 else if lead >= 24 * HOUR_MS then 50 else 0
    case Strict => if lead >= 7 * 24 * HOUR_MS then 100 else 0
  }

  function ComputeRefund(policy: Policy, startsAt: Time, cancelledAt: Time, total: int, deposit: int): Refunded {
    var lead := if startsAt - cancelledAt < 0 then 0 else startsAt - cancelledAt;
    var pct := RefundPct(policy, lead);
    var refund := deposit + RoundDiv((total - deposit) * pct, 100);
    Refunded(refund, pct, total - refund)
  }

  lemma RefundOfBase(base: nat, pct: nat)
    requires pct in {0, 50, 100}
    ensures 0 <= RoundDiv(base * pct, 100) <= base
    ensures pct == 0 ==> RoundDiv(base * pct, 100) == 0
    ensures pct == 100 ==> RoundDiv(base * pct, 100) == base
  {
  }

  /** The deposit always comes back whole, nothing beyond the total does, and the two shares add up. */
  lemma RefundWithinTotal(policy: Policy, startsAt: Time, cancelledAt: Time, total: int, deposit: int)
    requires 0 <= deposit <= total
    ensures var r := ComputeRefund(policy, startsAt, cancelledAt, total, deposit);
            deposit <= r.refund <= total && r.refund + r.penalty == total
  {
    RefundOfBase(total - deposit, ComputeRefund(policy, startsAt, cancelledAt, total, deposit).pct);
  }

  /** Hours of notice that still give everything back. */
  function FullNotice(policy: Policy): nat {
    match policy
    case Flexible => 24
    case Moderate => 72
    case Strict => 7 * 24
  }

  /** Hours of notice that still give half of the fees back, if any do. */
  function HalfNotice(policy: Policy): Option<nat> {
    match policy
    case Flexible => Some(0)
    case Moderate => Some(24)
    case Strict => None
  }

  predicate Notice(startsAt: Time, at: Time, hours: nat) { hours == 0 || startsAt - at >= hours * 3_600_000 }

  /**
   * Nothing is kept exactly with full notice, or without fees, or when the fees are one minor unit and the half of
   * it rounds up; nothing but the deposit comes back exactly without any such notice, or without fees;
   * in between, half of the fees does, rounded up.
   */
  lemma RefundTiers(policy: Policy, startsAt: Time, at: Time, total: int, deposit: int)
    requires 0 <= deposit <= total
    ensures var r := ComputeRefund(policy, startsAt, at, total, deposit);
            var half := HalfNotice(policy).Some? && Notice(startsAt, at, HalfNotice(policy).value);
            && r.pct == (if Notice(startsAt, at, FullNotice(policy)) then 100 else if half then 50 else 0)
            && (r.penalty == 0
                <==> total == deposit || Notice(startsAt, at, FullNotice(policy)) || (half && total == deposit + 1))
            && (r.refund == deposit <==> total == deposit || !(half || Notice(startsAt, at, FullNotice(policy))))
            && (half && !Notice(startsAt, at, FullNotice(policy)) ==>
                0 <= 2 * (r.refund - deposit) - (total - deposit) <= 1)
  {
    var r := ComputeRefund(policy, startsAt, at, total, deposit);
    var full := Notice(startsAt, at, FullNotice(policy));
    var half := HalfNotice(policy).Some? && Notice(startsAt, at, HalfNotice(policy).value);
    assert r.pct == if full then 100 else if half then 50 else 0;
    RefundOfBase(total - deposit, r.pct);
    HalfOfBase(total - deposit);
  }

  lemma HalfOfBase(base: nat)
    ensures 0 <= 2 * RoundDiv(base * 50, 100) - base <= 1
  {
  }

  /** Waiting never increases the refund. */
  lemma RefundNeverGrows(policy: Policy, startsAt: Time, early: Time, late: Time, total: int, deposit: int)
    requires 0 <= deposit <= total && early <= late
    ensures ComputeRefund(policy, startsAt, late, total, deposit).refund
         <= ComputeRefund(policy, startsAt, early, total, deposit).refund
  {
    RefundOfBase(total - deposit, ComputeRefund(policy, startsAt, early, total, deposit).pct);
    RefundOfBase(total - deposit, ComputeRefund(policy, startsAt, late, total, deposit).pct);
  }

  /** At every moment flexible is at least as generous as moderate, and moderate as strict. */
  lemma PoliciesOrdered(startsAt: Time, at: Time, total: int, deposit: int)
    requires 0 <= deposit <= total
    ensures ComputeRefund(Strict, startsAt, at, total, deposit).refund
         <= ComputeRefund(Moderate, startsAt, at, total, deposit).refund
         <= ComputeRefund(Flexible, startsAt, at, total, deposit).refund
  {
    RefundOfBase(total - deposit, ComputeRefund(Flexible, startsAt, at, total, deposit).pct);
    RefundOfBase(total - deposit, ComputeRefund(Moderate, startsAt, at, total, deposit).pct);
    RefundOfBase(total - deposit, ComputeRefund(Strict, startsAt, at, total, deposit).pct);
  }
}
