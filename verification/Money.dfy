/** Money is kept in whole cents.  The stores compare amounts in yuan with
    tolerances of 0.004 and 0.005; here those comparisons are written in mills
    (a tenth of a cent), so the tolerances are 4 and 5. */
module Money {

  datatype Method = WeChat | Alipay | Bank | Cash | Other
  datatype ItemStatus = Unpaid | Partial | Paid

  function Max(a: int, b: int): int { if a >= b then a else b }
  function Min(a: int, b: int): int { if a <= b then a else b }

  /** Go's integer division truncates toward zero. */
  function GoDiv(a: int, b: int): int
    requires b > 0
  {
    if a >= 0 then a / b else -((-a) / b)
  }

  /** The fee of a principal: WeChat charges 0.1 % rounded up to the next cent. */
  function Fee(base: int, via: Method): int {
    if via == WeChat then GoDiv(base + 999, 1000) else 0
  }

  function Payable(base: int, via: Method): int {
    base + Fee(base, via)
  }

  /** The WeChat fee is the least whole number of cents that covers 0.1 %; nothing else costs a fee. */
  lemma FeeIsLeastCover(base: int, via: Method, f: int)
    requires base >= 0
    ensures Fee(base, via) >= 0
    ensures via == WeChat ==> (f >= Fee(base, via) <==> 1000 * f >= base)
    ensures via != WeChat ==> Fee(base, via) == 0
  {}

  function Sum(xs: seq<int>): int {
    if xs == [] then 0 else Sum(xs[..|xs| - 1]) + xs[|xs| - 1]
  }

  function FeeOfParts(parts: seq<int>, via: Method): int {
    if parts == [] then 0
    else FeeOfParts(parts[..|parts| - 1], via) + Fee(parts[|parts| - 1], via)
  }

  /** Splitting a payment into n parts costs between 0 and n - 1 cents more fee. */
  lemma {:induction false} SplitFee(parts: seq<int>, via: Method)
    requires |parts| > 0
    requires forall i :: 0 <= i < |parts| ==> parts[i] >= 0
    ensures Sum(parts) >= 0
    ensures 0 <= FeeOfParts(parts, via) - Fee(Sum(parts), via) <= |parts| - 1
  {
    var n := |parts| - 1;
    if n == 0 {
      assert parts[..n] == [];
    } else {
      SplitFee(parts[..n], via);
    }
  }

  /** Both ends of the splitting range are reached. */
  lemma SplitFeeTight()
    ensures FeeOfParts([1000, 1000], WeChat) == Fee(Sum([1000, 1000]), WeChat)
    ensures FeeOfParts([1, 1], WeChat) == Fee(Sum([1, 1]), WeChat) + 1
  {
    assert [1000, 1000][..1] == [1000] && [1000][..0] == [];
    assert [1, 1][..1] == [1] && [1][..0] == [];
    assert FeeOfParts([1000], WeChat) == 1 && Sum([1000]) == 1000;
    assert FeeOfParts([1], WeChat) == 1 && Sum([1]) == 1;
  }

  /** The classifier used when stored statuses are recalculated. */
  function RecalcStatus(paid: int, amount: int): ItemStatus {
    if paid <= 0 then Unpaid
    else if 10 * paid + 4 >= 10 * amount then Paid
    else Partial
  }

  /** The order list's own classifier, written separately in its base view. */
  function ListStatus(paid: int, amount: int): ItemStatus {
    if 10 * Min(paid, amount) <= 4 then Unpaid
    else if 10 * Max(amount - paid, 0) <= 4 then Paid
    else Partial
  }

  function Remaining(paid: int, amount: int): int {
    Max(amount - paid, 0)
  }

  /** The over-payment test of a payment line. */
  predicate Exceeds(amount: int, remaining: int) {
    10 * amount - 10 * remaining > 5
  }

  /** The "still owes money" test of the unpaid export and of payable items. */
  predicate StillOwes(paid: int, amount: int) {
    10 * Remaining(paid, amount) > 5
  }

  /** In whole cents every tolerance is an exact comparison. */
  lemma TolerancesAreExact(paid: int, amount: int)
    ensures RecalcStatus(paid, amount) == (if paid <= 0 then Unpaid else if paid >= amount then Paid else Partial)
    ensures Exceeds(paid, amount) <==> paid > amount
    ensures StillOwes(paid, amount) <==> paid < amount
  {}

  /** The two classifiers agree except on an item that costs nothing and yet has
      money applied to it. */
  lemma ClassifiersAgree(paid: int, amount: int)
    ensures RecalcStatus(paid, amount) == ListStatus(paid, amount) <==> !(amount <= 0 < paid)
  {}
}
