/** The insurance benefits page: one item per benefit with its remaining
    share and a colour and icon taken in turn from four, and the save
    handler the add-benefit modal calls, which parses the amounts with
    `parseInt`, adds the benefit, and closes the modal on success. The
    handler catches a failed add and only alerts, so the modal, which
    clears itself and closes whenever its save resolves, does so after a
    failure too. `SubmitAsWritten` is that flow; `SubmitCorrected` is the
    flow with the failure passed on to the modal. While the hook is loading
    the page shows only a spinner, so an add with a user signed in unmounts
    the modal, which comes back with a blank form. */
module InsurancePage {
  import opened Wrappers
  import opened Text
  import opened Numbers
  import opened InsuranceForm
  import Hook = InsuranceHook

  datatype Color = Blue | Green | Purple | Orange

  datatype Icon = HouseIcon | ActivityIcon | CheckIcon | PersonIcon

  const Colors: seq<Color> := [Blue, Green, Purple, Orange]
  const Icons: seq<Icon> := [HouseIcon, ActivityIcon, CheckIcon, PersonIcon]

  /** `Math.round(remaining / total * 100)` with no guard on the total:
      `None` when the quotient is not a finite number (a zero total). */
  function RemainingPercentage(total: int, used: int): (r: Option<int>)
    ensures r.None? <==> total == 0
    ensures total > 0 ==> r == Some(Hook.RoundPercent(total - used, total))
    ensures total < 0 ==> r == Some(Hook.RoundPercent(used - total, -total))
  {
    if total > 0 then Some(Hook.RoundPercent(total - used, total))
    else if total < 0 then Some(Hook.RoundPercent(used - total, -total))
    else None
  }

  datatype BenefitItem = BenefitItem(
    id: string,
    category: string,
    icon: Icon,
    totalAmount: int,
    usedAmount: int,
    remainingPercentage: Option<int>,
    color: Color)

  function Item(b: Hook.Benefit, i: nat): BenefitItem {
    BenefitItem(b.id, b.benefitType, Icons[i % 4], b.totalAmount, b.usedAmount,
                RemainingPercentage(b.totalAmount, b.usedAmount), Colors[i % 4])
  }

  /** `benefitItems`: the benefits in order, the i-th styled with the
      (i mod 4)-th colour and icon. */
  function Items(benefits: seq<Hook.Benefit>): (r: seq<BenefitItem>)
    ensures |r| == |benefits|
    ensures forall i :: 0 <= i < |benefits| ==>
      && r[i].id == benefits[i].id && r[i].category == benefits[i].benefitType
      && r[i].totalAmount == benefits[i].totalAmount && r[i].usedAmount == benefits[i].usedAmount
      && r[i].remainingPercentage == RemainingPercentage(benefits[i].totalAmount, benefits[i].usedAmount)
      && r[i].color == Colors[i % 4] && r[i].icon == Icons[i % 4]
  {
    seq(|benefits|, i requires 0 <= i < |benefits| => Item(benefits[i], i))
  }

  /** The styles repeat every four items and differ within any four in a row. */
  lemma StylesCycle(benefits: seq<Hook.Benefit>, i: nat, j: nat)
    requires i < j < |benefits|
    ensures var r := Items(benefits);
      (r[i].color == r[j].color <==> (j - i) % 4 == 0) && (r[i].icon == r[j].icon <==> (j - i) % 4 == 0)
  {
    var r := Items(benefits);
    assert r[i].color == Colors[i % 4] && r[j].color == Colors[j % 4];
    assert r[i].icon == Icons[i % 4] && r[j].icon == Icons[j % 4];
    SameResidue(i, j);
    StylesDistinct(i % 4, j % 4);
  }

  lemma SameResidue(i: nat, j: nat)
    requires i < j
    ensures (j - i) % 4 == 0 <==> i % 4 == j % 4
  {
  }

  lemma StylesDistinct(a: nat, b: nat)
    requires a < 4 && b < 4
    ensures Colors[a] == Colors[b] <==> a == b
    ensures Icons[a] == Icons[b] <==> a == b
  {
  }

  /** A benefit's remaining share and its used share, both rounded, add up
      to 100, or to 101 when both round a half upwards. */
  lemma {:induction false} RemainingComplementsUsed(total: int, used: int)
    requires total > 0
    ensures 100 <= RemainingPercentage(total, used).value + Hook.RoundPercent(used, total) <= 101
  {
    var r1 := Hook.RoundPercent(used, total);
    var r2 := Hook.RoundPercent(total - used, total);
    var d := 2 * total;
    assert d * (r1 + r2) <= 202 * total;
    assert d * (r1 + r2 + 2) > 202 * total;
    if r1 + r2 > 101 {
      Hook.MulMonotone(d, 102, r1 + r2);
    }
    if r1 + r2 < 100 {
      Hook.MulMonotone(d, r1 + r2 + 2, 101);
    }
  }

  datatype Page = Page(hook: Hook.HookState, modalOpen: bool, alert: Option<string>)

  const SaveFailed := "Failed to add benefit. Please try again."

  /** `handleAddBenefit`. */
  function OpenModal(p: Page): (r: Page)
    ensures r.modalOpen && r.hook == p.hook && r.alert == p.alert
  {
    p.(modalOpen := true)
  }

  /** Both amounts read as integers under `parseInt`. */
  predicate Parses(f: Form) {
    ParseInt(f.totalAmount).Some? && ParseInt(f.usedAmount).Some?
  }

  /** What `handleSaveBenefit` passes to `addBenefit`. */
  function Input(f: Form): (r: Hook.BenefitInput)
    requires Parses(f)
    ensures r.benefitType == f.benefitType && r.providerName == f.providerName
    ensures r.policyNumber == f.policyNumber && r.renewalDate == f.renewalDate
    ensures r.totalAmount == ParseInt(f.totalAmount).value && r.usedAmount == ParseInt(f.usedAmount).value
  {
    Hook.BenefitInput(f.benefitType, f.providerName, f.policyNumber,
                      ParseInt(f.totalAmount).value, ParseInt(f.usedAmount).value, f.renewalDate)
  }

  /** For amounts typed as plain numerals, a valid form saves the whole
      part of each amount: the fraction the validator accepted is dropped. */
  lemma SavedAmountsTruncate(f: Form)
    requires Valid(f)
    requires forall i :: 0 <= i < |f.totalAmount| ==> !IsSpace(f.totalAmount[i])
    requires forall i :: 0 <= i < |f.usedAmount| ==> !IsSpace(f.usedAmount[i])
    requires |f.totalAmount| > 0 && |f.usedAmount| > 0 && IsDigit(f.totalAmount[0]) && IsDigit(f.usedAmount[0])
    ensures Parses(f) && ToNumber(f.totalAmount).Some? && ToNumber(f.usedAmount).Some?
    ensures Input(f).totalAmount == ToNumber(f.totalAmount).value.Floor
    ensures Input(f).usedAmount == ToNumber(f.usedAmount).value.Floor
    ensures 0 <= Input(f).usedAmount <= Input(f).totalAmount
  {
    ValidIff(f);
    ParseIntTruncates(f.totalAmount);
    ParseIntTruncates(f.usedAmount);
  }

  /** `handleSaveBenefit` as written: the add's failure is alerted and
      swallowed, so the returned promise always resolves. Without a user the
      add is a bare return and the modal closes as after a success. */
  function SaveAsWritten(p: Page, user: Option<string>, f: Form, reply: Result<Stamp>): (r: (Page, Completion))
    requires Parses(f)
    ensures r.1 == Resolved
    ensures var e := Hook.AddBenefit(p.hook, user, Input(f), reply);
      && r.0.hook == e.state
      && (e.result.Err? ==> r.0.alert == Some(SaveFailed) && r.0.modalOpen == p.modalOpen)
      && (e.result.Ok? ==> r.0.alert == p.alert && !r.0.modalOpen)
  {
    var e := Hook.AddBenefit(p.hook, user, Input(f), reply);
    match e.result
    case Err(_) => (p.(hook := e.state, alert := Some(SaveFailed)), Resolved)
    case Ok(_) => (p.(hook := e.state, modalOpen := false), Resolved)
  }

  /** The same handler passing the failure on after the alert. */
  function SaveCorrected(p: Page, user: Option<string>, f: Form, reply: Result<Stamp>): (r: (Page, Completion))
    requires Parses(f)
    ensures var e := Hook.AddBenefit(p.hook, user, Input(f), reply);
      && r.0.hook == e.state
      && (e.result.Err? ==> r.0.alert == Some(SaveFailed) && r.0.modalOpen == p.modalOpen && r.1 == Rejected(e.result.message))
      && (e.result.Ok? ==> r.0.alert == p.alert && !r.0.modalOpen && r.1 == Resolved)
  {
    var e := Hook.AddBenefit(p.hook, user, Input(f), reply);
    match e.result
    case Err(msg) => (p.(hook := e.state, alert := Some(SaveFailed)), Rejected(msg))
    case Ok(_) => (p.(hook := e.state, modalOpen := false), Resolved)
  }

  /** The page with its modal. */
  datatype Screen = Screen(page: Page, modal: Modal)

  /** A form that goes out can be parsed by the save handler. */
  predicate SendsParsable(m: Modal) {
    Valid(m.form) && !m.saving ==> Parses(m.form)
  }

  /** The modal settles with the handler's outcome; its `onClose` closes the
      page's modal. When the save showed the spinner (`remounted`) the modal
      was unmounted meanwhile: the settling instance is gone, its `onClose`
      still reaches the page, and the modal on screen is a fresh one. */
  function Settle(p: Page, m: Modal, save: Completion, remounted: bool): (r: Screen)
    ensures remounted ==> r.modal == Opened
    ensures !remounted ==> r.modal == FinishSubmit(m, save).modal
    ensures r.page.modalOpen == (p.modalOpen && !save.Resolved?)
    ensures r.page.hook == p.hook && r.page.alert == p.alert
  {
    var s := FinishSubmit(m, save);
    Screen(if s.closeRequested then p.(modalOpen := false) else p, if remounted then Opened else s.modal)
  }

  /** One submit of the modal against the page as written. */
  function SubmitAsWritten(sc: Screen, user: Option<string>, reply: Result<Stamp>): (r: Screen)
    requires SendsParsable(sc.modal)
    ensures BeginSubmit(sc.modal).sent.None? ==> r == Screen(sc.page, BeginSubmit(sc.modal).modal)
    ensures BeginSubmit(sc.modal).sent.Some? ==> !r.page.modalOpen && r.modal.form == Blank && !r.modal.saving
    ensures BeginSubmit(sc.modal).sent.Some? && user.Some? ==> r.modal == Opened
  {
    var b := BeginSubmit(sc.modal);
    if b.sent.None? then Screen(sc.page, b.modal)
    else
      var saved := SaveAsWritten(sc.page, user, b.sent.value, reply);
      Settle(saved.0, b.modal, saved.1, Hook.AddSetsLoading(user))
  }

  /** A failed add still clears what the user typed and closes the modal,
      behind the alert asking them to try again. As written every add with
      a user signed in fails so, with `Hook.MissingAdd`. */
  lemma FailedAddClosesAndClears(sc: Screen, user: string, e: string)
    requires sc.page.modalOpen && !sc.modal.saving && Valid(sc.modal.form) && Parses(sc.modal.form)
    requires sc.modal.form != Blank
    ensures var r := SubmitAsWritten(sc, Some(user), Err(e));
      && r.page.alert == Some(SaveFailed)
      && r.page.hook.benefits == sc.page.hook.benefits
      && !r.page.modalOpen
      && r.modal.form == Blank != sc.modal.form
  {
  }

  /** One submit of the modal against the corrected handler. */
  function SubmitCorrected(sc: Screen, user: Option<string>, reply: Result<Stamp>): (r: Screen)
    requires SendsParsable(sc.modal)
    ensures BeginSubmit(sc.modal).sent.None? ==> r == Screen(sc.page, BeginSubmit(sc.modal).modal)
    ensures BeginSubmit(sc.modal).sent.Some? ==> !r.modal.saving
    ensures BeginSubmit(sc.modal).sent.Some? && user.Some? ==> r.modal == Opened
  {
    var b := BeginSubmit(sc.modal);
    if b.sent.None? then Screen(sc.page, b.modal)
    else
      var saved := SaveCorrected(sc.page, user, b.sent.value, reply);
      Settle(saved.0, b.modal, saved.1, Hook.AddSetsLoading(user))
  }

  /** With the correction the modal closes exactly when the benefit was
      added, and a failure keeps it open for the retry the alert asks for.
      The typed input is lost either way: the spinner shown during the add
      remounted the modal with a blank form and no errors. */
  lemma CorrectedClosesOnlyAfterAdd(sc: Screen, user: string, reply: Result<Stamp>)
    requires sc.page.modalOpen && !sc.modal.saving && Valid(sc.modal.form) && Parses(sc.modal.form)
    ensures var r := SubmitCorrected(sc, Some(user), reply);
      && (r.page.modalOpen <==> reply.Err?)
      && r.modal == Opened
      && (reply.Err? ==> r.page.alert == Some(SaveFailed) && r.page.hook.benefits == sc.page.hook.benefits)
      && (reply.Ok? ==> |r.page.hook.benefits| == |sc.page.hook.benefits| + 1)
  {
  }
}
