/** The add-benefit modal: six text fields, a validator that rebuilds the
    error map from scratch, editing that blanks the edited field's shown
    error, and a submit that is gated on validity and on no save being in
    flight, then either resets the form and asks to close or keeps it. */
module InsuranceForm {
  import opened Wrappers
  import opened Numbers

  datatype Field = BenefitType | ProviderName | PolicyNumber | TotalAmount | UsedAmount | RenewalDate

  datatype Form = Form(
    benefitType: string,
    providerName: string,
    policyNumber: string,
    totalAmount: string,
    usedAmount: string,
    renewalDate: string)

  const Blank := Form("", "", "", "", "", "")

  /** `errors`: the message per field; a present key with "" shows nothing. */
  type Errors = map<Field, string>

  const BenefitTypeRequired := "Benefit type is required"
  const ProviderRequired := "Insurance provider is required"
  const TotalRequired := "Total amount is required"
  const TotalNotPositive := "Total amount must be a positive number"
  const UsedRequired := "Used amount is required"
  const UsedNegative := "Used amount must be a non-negative number"
  const UsedExceedsTotal := "Used amount cannot exceed total amount"

  function Get(f: Form, field: Field): string {
    match field
    case BenefitType => f.benefitType
    case ProviderName => f.providerName
    case PolicyNumber => f.policyNumber
    case TotalAmount => f.totalAmount
    case UsedAmount => f.usedAmount
    case RenewalDate => f.renewalDate
  }

  /** `{ ...prev, [field]: value }`. */
  function Set(f: Form, field: Field, value: string): (r: Form)
    ensures Get(r, field) == value
    ensures forall g :: g != field ==> Get(r, g) == Get(f, g)
  {
    match field
    case BenefitType => f.(benefitType := value)
    case ProviderName => f.(providerName := value)
    case PolicyNumber => f.(policyNumber := value)
    case TotalAmount => f.(totalAmount := value)
    case UsedAmount => f.(usedAmount := value)
    case RenewalDate => f.(renewalDate := value)
  }

  /** The total field's message, if any. */
  function TotalError(total: string): (r: Option<string>)
    ensures r.None? <==> total != "" && ToNumber(total).Some? && ToNumber(total).value > 0.0
    ensures r.Some? ==> r.value == (if total == "" then TotalRequired else TotalNotPositive)
  {
    var n := ToNumber(total);
    if total == "" then Some(TotalRequired)
    else if n.None? || n.value <= 0.0 then Some(TotalNotPositive)
    else None
  }

  /** The used field's message, if any. It is compared against
      `Number(total)` even when the total itself is wrong, and not at all
      when the total is NaN. */
  function UsedError(used: string, total: string): (r: Option<string>)
    ensures used == "" ==> r == Some(UsedRequired)
    ensures used != "" && (ToNumber(used).None? || ToNumber(used).value < 0.0) ==> r == Some(UsedNegative)
    ensures r.None? <==>
      && used != ""
      && ToNumber(used).Some? && ToNumber(used).value >= 0.0
      && (ToNumber(total).None? || ToNumber(used).value <= ToNumber(total).value)
    ensures r.Some? && r.value == UsedExceedsTotal ==> ToNumber(total).Some? && ToNumber(used).value > ToNumber(total).value
  {
    var n := ToNumber(used);
    var t := ToNumber(total);
    if used == "" then Some(UsedRequired)
    else if n.None? || n.value < 0.0 then Some(UsedNegative)
    else if t.Some? && n.value > t.value then Some(UsedExceedsTotal)
    else None
  }

  /** The message `validateForm` records for a field, if any. */
  function FieldError(f: Form, field: Field): (r: Option<string>)
    ensures field == BenefitType ==> (r.Some? <==> f.benefitType == "") && (r.Some? ==> r.value == BenefitTypeRequired)
    ensures field == ProviderName ==> (r.Some? <==> f.providerName == "") && (r.Some? ==> r.value == ProviderRequired)
    ensures field == PolicyNumber || field == RenewalDate ==> r.None?
    ensures r.Some? ==> r.value != ""
  {
    match field
    case BenefitType => if f.benefitType == "" then Some(BenefitTypeRequired) else None
    case ProviderName => if f.providerName == "" then Some(ProviderRequired) else None
    case TotalAmount => TotalError(f.totalAmount)
    case UsedAmount => UsedError(f.usedAmount, f.totalAmount)
    case PolicyNumber => None
    case RenewalDate => None
  }

  const Fields: set<Field> := {BenefitType, ProviderName, PolicyNumber, TotalAmount, UsedAmount, RenewalDate}

  lemma FieldsComplete()
    ensures forall g: Field :: g in Fields
  {
    forall g: Field ensures g in Fields {
      match g
      case BenefitType =>
      case ProviderName =>
      case PolicyNumber =>
      case TotalAmount =>
      case UsedAmount =>
      case RenewalDate =>
    }
  }

  /** `validateForm`'s error map, rebuilt from nothing: one entry per field
      with a message, and no other key. */
  function Validate(f: Form): (errs: Errors)
    ensures forall g :: g in errs <==> FieldError(f, g).Some?
    ensures forall g :: g in errs ==> errs[g] == FieldError(f, g).value
  {
    FieldsComplete();
    map g | g in Fields && FieldError(f, g).Some? :: FieldError(f, g).value
  }

  /** `Object.keys(newErrors).length === 0`. */
  predicate Valid(f: Form) {
    |Validate(f)| == 0
  }

  /** The form is valid exactly when type and provider are filled in, the
      total is a positive number and the used amount a number between zero
      and the total. */
  lemma ValidIff(f: Form)
    ensures Valid(f) <==>
      && f.benefitType != "" && f.providerName != ""
      && f.totalAmount != "" && f.usedAmount != ""
      && ToNumber(f.totalAmount).Some? && ToNumber(f.usedAmount).Some?
      && 0.0 <= ToNumber(f.usedAmount).value <= ToNumber(f.totalAmount).value
      && ToNumber(f.totalAmount).value > 0.0
  {
    var errs := Validate(f);
    if |errs| == 0 {
      assert FieldError(f, BenefitType).None? && FieldError(f, ProviderName).None?;
      assert FieldError(f, TotalAmount).None? && FieldError(f, UsedAmount).None?;
    } else {
      var g :| g in errs;
      assert FieldError(f, g).Some?;
    }
  }

  /** Policy number and renewal date never decide validity. */
  lemma PolicyAndRenewalUnchecked(f: Form, policy: string, renewal: string)
    ensures Validate(f.(policyNumber := policy, renewalDate := renewal)) == Validate(f)
  {
    var g := f.(policyNumber := policy, renewalDate := renewal);
    assert forall h :: FieldError(g, h) == FieldError(f, h);
  }

  /** An empty total counts as 0 in the comparison, so a used amount above
      zero also draws the "exceed" message next to "required". */
  lemma EmptyTotalStillCompared(f: Form)
    requires f.totalAmount == "" && f.usedAmount == "5"
    ensures Validate(f)[TotalAmount] == TotalRequired
    ensures Validate(f)[UsedAmount] == UsedExceedsTotal
  {
    TrimWithoutSpace("5");
    assert AllDigits("5");
    assert FieldError(f, TotalAmount) == Some(TotalRequired);
    assert FieldError(f, UsedAmount) == Some(UsedExceedsTotal);
  }

  /** Whether a field shows its error (`errors.x && <p>…</p>`). */
  predicate Shown(errs: Errors, field: Field) {
    field in errs && errs[field] != ""
  }

  /** `handleInputChange`: the field takes the value, and a shown error of
      that field is blanked (the key stays, with ""). */
  function HandleInputChange(f: Form, errs: Errors, field: Field, value: string): (r: (Form, Errors))
    ensures r.0 == Set(f, field, value)
    ensures r.1.Keys == errs.Keys
    ensures !Shown(r.1, field)
    ensures forall g :: g != field && g in errs ==> r.1[g] == errs[g]
  {
    (Set(f, field, value), if field in errs && errs[field] != "" then errs[field := ""] else errs)
  }

  /** Editing hides only the edited field's error; the others stay shown or
      hidden as they were. */
  lemma EditHidesOnlyThatField(f: Form, errs: Errors, field: Field, value: string, g: Field)
    requires g != field
    ensures Shown(HandleInputChange(f, errs, field, value).1, g) == Shown(errs, g)
  {
  }

  datatype Modal = Modal(form: Form, errors: Errors, saving: bool)

  const Opened := Modal(Blank, map[], false)

  /** The first half of `handleSubmit`, up to `await onSave(formData)`: the
      errors are always rebuilt; the form goes out only when it is valid and
      no save is in flight, which sets `isSaving`. */
  datatype Submission = Submission(modal: Modal, sent: Option<Form>)

  function BeginSubmit(m: Modal): (r: Submission)
    ensures r.modal.errors == Validate(m.form) && r.modal.form == m.form
    ensures r.sent.Some? <==> Valid(m.form) && !m.saving
    ensures r.sent.Some? ==> r.sent.value == m.form && r.modal.saving
    ensures r.sent.None? ==> r.modal.saving == m.saving
  {
    var errs := Validate(m.form);
    if |errs| != 0 || m.saving then Submission(m.(errors := errs), None)
    else Submission(m.(errors := errs, saving := true), Some(m.form))
  }

  /** The second half, once `onSave` settles: on success the form is
      cleared and `onClose` is called; a rejection is only logged; saving
      ends either way. */
  datatype Settled = Settled(modal: Modal, closeRequested: bool)

  function FinishSubmit(m: Modal, save: Completion): (r: Settled)
    ensures !r.modal.saving && r.modal.errors == m.errors
    ensures r.closeRequested <==> save.Resolved?
    ensures save.Resolved? ==> r.modal.form == Blank
    ensures save.Rejected? ==> r.modal.form == m.form
  {
    match save
    case Resolved => Settled(m.(form := Blank, saving := false), true)
    case Rejected(_) => Settled(m.(saving := false), false)
  }

  /** While a save is in flight a second submit sends nothing. */
  lemma NoSecondSubmitWhileSaving(m: Modal)
    requires BeginSubmit(m).sent.Some?
    ensures BeginSubmit(BeginSubmit(m).modal).sent.None?
  {
  }

  /** However the save ends, the modal can be submitted again afterwards. */
  lemma SubmitAgainAfterSettling(m: Modal, save: Completion)
    requires BeginSubmit(m).sent.Some?
    ensures var s := FinishSubmit(BeginSubmit(m).modal, save).modal;
      save.Rejected? ==> BeginSubmit(s).sent == Some(m.form)
  {
  }
}
