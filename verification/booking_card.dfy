/** The provider's booking card: a colour and a capitalised label for the
    status, and the Cancel and Complete buttons, which exist only for an
    upcoming booking and only when the page supplies both handlers. This UI
    guard is the only place an "upcoming only" rule exists. */
module BookingCard {
  import opened Wrappers
  import opened Text
  import opened Database

  /** The fields of a booking the card shows. */
  datatype CardBooking = CardBooking(id: string, bookingNumber: string, patientName: string, date: string, time: string, status: Status)

  datatype Button = CancelButton | CompleteButton

  const UpcomingColor := "text-blue-600 bg-blue-50"
  const CompletedColor := "text-green-600 bg-green-50"
  const CancelledColor := "text-red-600 bg-red-50"
  const OtherColor := "text-gray-600 bg-gray-50"

  /** `getStatusColor`, over the status text: blue, green and red for the
      three statuses and grey for anything else. */
  function StatusColor(status: string): (r: string)
    ensures r == UpcomingColor <==> status == "upcoming"
    ensures r == CompletedColor <==> status == "completed"
    ensures r == CancelledColor <==> status == "cancelled"
    ensures r == OtherColor <==> status != "upcoming" && status != "completed" && status != "cancelled"
  {
    if status == "upcoming" then UpcomingColor
    else if status == "completed" then CompletedColor
    else if status == "cancelled" then CancelledColor
    else OtherColor
  }

  /** No status the store holds is shown in grey, and the three are told
      apart by colour. */
  lemma StatusColorsDistinct(a: Status, b: Status)
    ensures StatusColor(StatusName(a)) != OtherColor
    ensures StatusColor(StatusName(a)) == StatusColor(StatusName(b)) <==> a == b
  {
  }

  /** The status with its first character upper-cased. */
  function StatusLabel(s: Status): (r: string)
    ensures |r| == |StatusName(s)| && |r| > 0
    ensures 'A' <= r[0] <= 'Z' && LowerChar(r[0]) == StatusName(s)[0]
    ensures r[1..] == StatusName(s)[1..]
  {
    CapitalizeFirst(StatusName(s))
  }

  lemma StatusLabels()
    ensures StatusLabel(Upcoming) == "Upcoming"
    ensures StatusLabel(Completed) == "Completed"
    ensures StatusLabel(Cancelled) == "Cancelled"
  {
  }

  /** The buttons the card renders, given which handlers the page passed. */
  function Buttons(b: CardBooking, hasCancel: bool, hasComplete: bool): (r: seq<Button>)
    ensures |r| > 0 <==> b.status == Upcoming && hasCancel && hasComplete
    ensures |r| > 0 ==> r == [CancelButton, CompleteButton]
  {
    if b.status == Upcoming && hasCancel && hasComplete then [CancelButton, CompleteButton] else []
  }

  /** A press: the handler of the pressed button receives the booking id;
      a button that is not rendered cannot be pressed. */
  function Click(b: CardBooking, hasCancel: bool, hasComplete: bool, button: Button): (r: Option<(Button, string)>)
    ensures r.Some? <==> button in Buttons(b, hasCancel, hasComplete)
    ensures r.Some? ==> r.value == (button, b.id) && b.status == Upcoming
  {
    if button in Buttons(b, hasCancel, hasComplete) then Some((button, b.id)) else None
  }
}
