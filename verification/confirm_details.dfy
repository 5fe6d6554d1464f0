/** The booking confirmation page: it sends an incomplete draft back to the
    category step, renders nothing without a package and a provider, and
    "Book now" only assembles the booking summary and opens the popup. No
    appointment reaches the store: the page's world carries the store's
    tables to make that visible. */
module ConfirmDetails {
  import opened Wrappers
  import opened BookingFlow
  import Database

  datatype PaymentMethod = Cash | Card

  datatype PatientDetails = PatientDetails(fullName: string, gender: string, age: int, problem: string)

  datatype BookingData = BookingData(
    providerName: string,
    patient: PatientDetails,
    date: string,
    time: string,
    duration: int,
    packageTitle: string,
    payment: PaymentMethod,
    amount: int,
    total: int)

  /** What the popup shows. */
  datatype PopupData = PopupData(bookingId: string, doctorName: string, date: string, time: string)

  /** The page's state, the draft store it reads, and the store's tables. */
  datatype Page = Page(draft: Draft, payment: PaymentMethod, popupOpen: bool, db: Database.Tables)

  const CategoryRoute := "/patient/category"

  /** The route the redirect effect navigates to, if any. */
  function Redirect(d: Draft): (r: Option<string>)
    ensures r.Some? <==> !IsComplete(d)
    ensures r.Some? ==> r.value == CategoryRoute
  {
    if IsComplete(d) then None else Some(CategoryRoute)
  }

  /** The page renders only with a package and a provider selected. */
  predicate Renders(d: Draft) {
    d.package.Some? && d.provider.Some?
  }

  /** A complete draft always renders; a rendering draft need not be
      complete (a missing date renders the page and redirects at once). */
  lemma RenderGuardWeakerThanRedirect(d: Draft, p: ProviderChoice, pkg: PackageChoice)
    ensures IsComplete(d) ==> Renders(d)
    ensures var e := Initial.(provider := Some(p), package := Some(pkg));
      Renders(e) && Redirect(e) == Some(CategoryRoute)
  {
  }

  /** The fixed patient the page shows, whose problem is the draft's concern. */
  function Patient(d: Draft): (r: PatientDetails)
    ensures r.problem == d.concern
    ensures r.fullName == "Esther Howard" && r.gender == "Male" && r.age == 26
  {
    PatientDetails("Esther Howard", "Male", 26, d.concern)
  }

  /** `generateBookingId` ignores its input altogether. */
  const BookingId := "20231104"

  function Popup(d: Draft): (r: PopupData)
    requires Renders(d)
    ensures r.bookingId == BookingId
    ensures r.doctorName == d.provider.value.name && r.date == d.date && r.time == d.time
  {
    PopupData(BookingId, d.provider.value.name, d.date, d.time)
  }

  /** `handleBookNow`: the summary it logs and the page it leaves. The amount
      and the total are the package price, or 0 without one; the popup opens
      and nothing else changes, the store least of all. */
  function BookNow(p: Page): (r: (Page, BookingData))
    requires Renders(p.draft)
    ensures r.0 == p.(popupOpen := true)
    ensures r.0.db == p.db && r.0.draft == p.draft
    ensures r.1.amount == r.1.total == p.draft.package.value.price.GetOr(0)
    ensures r.1.providerName == p.draft.provider.value.name && r.1.patient == Patient(p.draft)
    ensures r.1.date == p.draft.date && r.1.time == p.draft.time && r.1.duration == p.draft.duration
    ensures r.1.packageTitle == p.draft.package.value.title && r.1.payment == p.payment
  {
    var pkg := p.draft.package.value;
    var price := match pkg.price case Some(v) => (if v != 0 then v else 0) case None => 0;
    var data := BookingData(p.draft.provider.value.name, Patient(p.draft), p.draft.date, p.draft.time,
                            p.draft.duration, pkg.title, p.payment, price, price);
    (p.(popupOpen := true), data)
  }

  /** `handleClosePopup`: closes the popup and keeps the draft. */
  function ClosePopup(p: Page): (r: Page)
    ensures !r.popupOpen
    ensures r.draft == p.draft && r.db == p.db && r.payment == p.payment
  {
    p.(popupOpen := false)
  }

  /** `handleDoneFromPopup`: closes the popup, resets the draft and goes to
      the category step. */
  function DoneFromPopup(p: Page): (r: (Page, string))
    ensures !r.0.popupOpen && r.0.draft == Initial && r.0.db == p.db
    ensures r.1 == CategoryRoute
    ensures !IsComplete(r.0.draft)
  {
    (p.(popupOpen := false, draft := Reset(p.draft)), CategoryRoute)
  }

  /** Booking, closing and booking again leaves the store as it was and the
      draft intact: the flow never creates an appointment. */
  lemma BookingCreatesNoAppointment(p: Page)
    requires Renders(p.draft)
    ensures var q := ClosePopup(BookNow(p).0);
      q.db == p.db && q.draft == p.draft && BookNow(q).0.db == p.db
    ensures DoneFromPopup(BookNow(p).0).0.db.appointments == p.db.appointments
  {
  }
}
