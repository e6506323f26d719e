/** Manual payments. A payment's id is its position in the table. */
module Payments {
  import opened Calendar

  datatype PaymentStatus = Recorded | Reversed

  datatype Payment = Payment(customer: nat, amount: int, receivedOn: Date, status: PaymentStatus, version: nat)

  /** The one permitted change of a payment. */
  function Reverse(ps: seq<Payment>, p: nat, version: nat): seq<Payment>
    requires p < |ps|
  {
    ps[p := ps[p].(status := Reversed, version := version)]
  }
}
