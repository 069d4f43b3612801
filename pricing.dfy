/** The 10% tax formula shared by the order router and the checkout sheet. */
module Pricing {

  /** `subtotal * 0.1`, read as an exact rational (no floating point). */
  const TaxRate: real := 0.1

  datatype Totals = Totals(subtotal: real, tax: real, grandTotal: real)

  /** `tax = subtotal * 0.1; grandTotal = subtotal + tax`. */
  function TotalsOf(subtotal: int): (t: Totals)
    ensures t.subtotal == subtotal as real
    ensures t.tax == t.subtotal / 10.0
    ensures t.grandTotal == t.subtotal + t.tax
    ensures t.grandTotal == t.subtotal * 1.1
    ensures subtotal >= 0 ==> 0.0 <= t.tax <= t.grandTotal
  {
    var s := subtotal as real;
    var tax := s * TaxRate;
    Totals(s, tax, s + tax)
  }
}
