/** The booking draft store: one record the wizard steps fill field by
    field (category, provider, appointment type, package with its duration,
    then date, time, concern and address), a wholesale reset, and the
    completeness test the confirmation page relies on. */
module BookingFlow {
  import opened Wrappers

  datatype AppointmentKind = Voice | Video | Messaging | InPerson

  /** The fields of the chosen package the flow reads. */
  datatype PackageChoice = PackageChoice(title: string, price: Option<int>)

  /** The fields of the chosen provider the flow reads. */
  datatype ProviderChoice = ProviderChoice(id: string, name: string)

  datatype Draft = Draft(
    category: Option<string>,
    provider: Option<ProviderChoice>,
    kind: Option<AppointmentKind>,
    package: Option<PackageChoice>,
    duration: int,
    date: string,
    time: string,
    concern: string,
    address: string)

  /** The four text fields of the last step. */
  datatype Details = Details(date: string, time: string, concern: string, address: string)

  /** The record the store starts from and every reset restores. */
  const Initial: Draft := Draft(None, None, None, None, 30, "", "", "", "")

  /** `isBookingComplete`: the truthiness of category, provider, type,
      package, date and time; concern, address and duration play no part. */
  predicate IsComplete(d: Draft) {
    Truthy(d.category) && d.provider.Some? && d.kind.Some? && d.package.Some? && d.date != "" && d.time != ""
  }

  function SetCategory(d: Draft, category: string): (r: Draft)
    ensures r.category == Some(category)
    ensures r.(category := d.category) == d
  {
    d.(category := Some(category))
  }

  function SetProvider(d: Draft, p: ProviderChoice): (r: Draft)
    ensures r.provider == Some(p)
    ensures r.(provider := d.provider) == d
  {
    d.(provider := Some(p))
  }

  function SetAppointmentType(d: Draft, k: AppointmentKind): (r: Draft)
    ensures r.kind == Some(k)
    ensures r.(kind := d.kind) == d
  {
    d.(kind := Some(k))
  }

  /** Sets the package and the duration together. */
  function SetPackageDetails(d: Draft, p: PackageChoice, duration: int): (r: Draft)
    ensures r.package == Some(p) && r.duration == duration
    ensures r.(package := d.package, duration := d.duration) == d
  {
    d.(package := Some(p), duration := duration)
  }

  /** Overwrites exactly date, time, concern and address. */
  function SetAppointmentDetails(d: Draft, x: Details): (r: Draft)
    ensures r.date == x.date && r.time == x.time && r.concern == x.concern && r.address == x.address
    ensures r.(date := d.date, time := d.time, concern := d.concern, address := d.address) == d
  {
    d.(date := x.date, time := x.time, concern := x.concern, address := x.address)
  }

  function Reset(d: Draft): (r: Draft)
    ensures r.duration == 30 && r.category.None? && r.provider.None? && r.kind.None? && r.package.None?
    ensures r.date == "" && r.time == "" && r.concern == "" && r.address == ""
    ensures !IsComplete(r)
  {
    Initial
  }

  /** Completeness spelled out field by field: both directions. */
  lemma IsCompleteIff(d: Draft)
    ensures IsComplete(d) <==>
      d.category.Some? && d.category.value != "" && d.provider.Some? && d.kind.Some?
      && d.package.Some? && |d.date| > 0 && |d.time| > 0
  {
  }

  /** Concern, address and duration never decide completeness. */
  lemma CompletenessIgnoresConcernAddressDuration(d: Draft, concern: string, address: string, duration: int)
    ensures IsComplete(d.(concern := concern, address := address, duration := duration)) == IsComplete(d)
  {
  }

  /** Setters are last-write-wins. */
  lemma SettersLastWriteWins(d: Draft, c1: string, c2: string, p1: ProviderChoice, p2: ProviderChoice,
                             k1: AppointmentKind, k2: AppointmentKind, q1: PackageChoice, q2: PackageChoice,
                             n1: int, n2: int, x1: Details, x2: Details)
    ensures SetCategory(SetCategory(d, c1), c2) == SetCategory(d, c2)
    ensures SetPackageDetails(SetPackageDetails(d, q1, n1), q2, n2) == SetPackageDetails(d, q2, n2)
    ensures SetProvider(SetProvider(d, p1), p2) == SetProvider(d, p2)
    ensures SetAppointmentType(SetAppointmentType(d, k1), k2) == SetAppointmentType(d, k2)
    ensures SetAppointmentDetails(SetAppointmentDetails(d, x1), x2) == SetAppointmentDetails(d, x2)
  {
  }

  /** An empty category is falsy, so the draft stays incomplete whatever
      else is filled in. */
  lemma EmptyCategoryIncomplete(d: Draft)
    ensures !IsComplete(SetCategory(d, ""))
  {
  }

  /** Walking the wizard once from a reset draft completes it exactly when
      the category, date and time given are non-empty. */
  lemma WizardCompletes(c: string, p: ProviderChoice, k: AppointmentKind, pkg: PackageChoice, duration: int, x: Details)
    ensures var d := SetAppointmentDetails(SetPackageDetails(SetAppointmentType(SetProvider(SetCategory(Initial, c), p), k), pkg, duration), x);
      IsComplete(d) <==> c != "" && x.date != "" && x.time != ""
  {
  }

  /** Skipping any selection step leaves the draft incomplete. */
  lemma SkippedStepIncomplete(c: string, p: ProviderChoice, k: AppointmentKind, pkg: PackageChoice, duration: int, x: Details)
    ensures !IsComplete(SetAppointmentDetails(SetPackageDetails(SetAppointmentType(SetCategory(Initial, c), k), pkg, duration), x))
    ensures !IsComplete(SetAppointmentDetails(SetPackageDetails(SetProvider(SetCategory(Initial, c), p), pkg, duration), x))
    ensures !IsComplete(SetAppointmentDetails(SetAppointmentType(SetProvider(SetCategory(Initial, c), p), k), x))
    ensures !IsComplete(SetPackageDetails(SetAppointmentType(SetProvider(SetCategory(Initial, c), p), k), pkg, duration))
  {
  }
}
