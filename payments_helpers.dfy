/** Display helpers for payments (`utils/paymentsHelpers.ts`): the archived test and the
    badge colours for a status and for a payment method, and the amount label. */
module PaymentsHelpers {
  import opened Common
  import opened Entities

  const Green: string := "bg-green-100 text-green-800"
  const Yellow: string := "bg-yellow-100 text-yellow-800"
  const Red: string := "bg-red-100 text-red-800"
  const Blue: string := "bg-blue-100 text-blue-800"
  const Purple: string := "bg-purple-100 text-purple-800"
  const Gray: string := "bg-gray-100 text-gray-800"

  /** `isPaymentArchived`: `Boolean(payment.archived)`, so an absent flag counts as not archived. */
  function IsPaymentArchived(p: Payment): (r: bool)
    ensures r <==> p.archived == Some(true)
    ensures p.archived == None ==> !r
  {
    Truthy(p.archived)
  }

  /** `badgeClassForStatus`: green exactly for "Completed", yellow exactly for "Pending",
      red for anything else. */
  function BadgeClassForStatus(status: string): (r: string)
    ensures r == Green <==> status == "Completed"
    ensures r == Yellow <==> status == "Pending"
    ensures r == Red <==> status != "Completed" && status != "Pending"
  {
    if status == "Completed" then Green
    else if status == "Pending" then Yellow
    else Red
  }

  /** `badgeClassForMethod`: green exactly for "M-Pesa", blue for "Bank Transfer", purple
      for "Card", gray for anything else (so "Cash"). */
  function BadgeClassForMethod(payMethod: string): (r: string)
    ensures r == Green <==> payMethod == "M-Pesa"
    ensures r == Blue <==> payMethod == "Bank Transfer"
    ensures r == Purple <==> payMethod == "Card"
    ensures r == Gray <==> payMethod != "M-Pesa" && payMethod != "Bank Transfer" && payMethod != "Card"
  {
    if payMethod == "M-Pesa" then Green
    else if payMethod == "Bank Transfer" then Blue
    else if payMethod == "Card" then Purple
    else Gray
  }

  /** `formatAmountKES`: "KES " followed by the locale rendering of the amount, which is
      a parameter here (`toLocaleString`). */
  function FormatAmountKES(amount: int, localeNumber: int -> string): (r: string)
    ensures |r| >= 4 && r[..4] == "KES "
    ensures r[4..] == localeNumber(amount)
  {
    "KES " + localeNumber(amount)
  }
}
