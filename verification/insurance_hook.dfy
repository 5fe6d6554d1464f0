/** `useInsuranceBenefits`: the patient's insurance benefits with their
    totals, a fetch that falls back to four built-in benefits, and add,
    update and delete actions. The client's store module defines none of
    the four benefit calls the hook makes, so as written each of them
    throws a `TypeError` inside its `try`: the `...AsWritten` members model
    that. `Fetch`, `AddBenefit`, `UpdateBenefit` and `DeleteBenefit` model
    the hook against a store that has the calls, each given that store's
    reply: an insert replies with the id and time the store assigns to the
    row it was sent. */
module InsuranceHook {
  import opened Wrappers
  import opened Keyed

  datatype Benefit = Benefit(
    id: string,
    patientId: string,
    benefitType: string,
    providerName: string,
    policyNumber: string,
    totalAmount: int,
    usedAmount: int,
    renewalDate: string,
    createdAt: string,
    updatedAt: string)

  /** What `addBenefit` is given: a benefit without id, patient and times. */
  datatype BenefitInput = BenefitInput(
    benefitType: string,
    providerName: string,
    policyNumber: string,
    totalAmount: int,
    usedAmount: int,
    renewalDate: string)

  datatype HookState = HookState(benefits: seq<Benefit>, loading: bool, error: Option<string>)

  /** The hook's state after a handler and the value its promise resolves
      with (`Ok(None)` for a bare `return`) or the error it throws. */
  datatype Effect<T> = Effect(state: HookState, result: Result<Option<T>>)

  /** `overallBenefits`. */
  datatype Overall = Overall(total: int, used: int, usedPercentage: int, remaining: int)

  function TotalOf(b: Benefit): int { b.totalAmount }
  function UsedOf(b: Benefit): int { b.usedAmount }

  /** `Math.round(100 * a / b)` for a positive `b`, in exact arithmetic: the
      nearest integer to `100a/b`, halves rounding up. */
  function RoundPercent(a: int, b: int): (r: int)
    requires b > 0
    ensures 2 * b * r <= 200 * a + b < 2 * b * r + 2 * b
  {
    var n := 200 * a + b;
    var d := 2 * b;
    var q := n / d;
    assert n == d * q + n % d;
    q
  }

  /** A share of a whole, rounded, lies between 0 and 100. */
  lemma RoundPercentBounded(a: int, b: int)
    requires 0 <= a <= b && b > 0
    ensures 0 <= RoundPercent(a, b) <= 100
  {
    var r := RoundPercent(a, b);
    var d := 2 * b;
    if r > 100 {
      MulMonotone(d, 101, r);
    }
    if r < 0 {
      MulMonotone(d, r + 1, 0);
    }
  }

  lemma MulMonotone(x: int, y: int, z: int)
    requires x >= 0 && y <= z
    ensures x * y <= x * z
  {
    assert x * z - x * y == x * (z - y);
  }

  function OverallOf(benefits: seq<Benefit>): (r: Overall)
    ensures r.total == Sum(benefits, TotalOf) && r.used == Sum(benefits, UsedOf)
    ensures r.remaining == r.total - r.used
    ensures r.total > 0 ==> 2 * r.total * r.usedPercentage <= 200 * r.used + r.total < 2 * r.total * (r.usedPercentage + 1)
    ensures r.total <= 0 ==> r.usedPercentage == 0
  {
    var total := Sum(benefits, TotalOf);
    var used := Sum(benefits, UsedOf);
    Overall(total, used, if total > 0 then RoundPercent(used, total) else 0, total - used)
  }

  /** When no benefit is overdrawn or negative, nothing remains negative and
      the used share is a percentage. */
  lemma {:induction false} OverallWithinBounds(benefits: seq<Benefit>)
    requires forall i :: 0 <= i < |benefits| ==> 0 <= benefits[i].usedAmount <= benefits[i].totalAmount
    ensures var o := OverallOf(benefits); 0 <= o.used <= o.total && o.remaining >= 0 && 0 <= o.usedPercentage <= 100
  {
    SumNonNegative(benefits, UsedOf);
    SumMonotone(benefits, UsedOf, TotalOf);
    var o := OverallOf(benefits);
    if o.total > 0 {
      RoundPercentBounded(o.used, o.total);
    }
  }

  /** Appending one benefit adds its amounts to the totals. */
  lemma {:induction false} OverallAppend(benefits: seq<Benefit>, b: Benefit)
    ensures OverallOf(benefits + [b]).total == OverallOf(benefits).total + b.totalAmount
    ensures OverallOf(benefits + [b]).used == OverallOf(benefits).used + b.usedAmount
  {
    SumAppend(benefits, [b], TotalOf);
    SumAppend(benefits, [b], UsedOf);
    assert [b][1..] == [];
  }

  const MockProvider := "Blue Cross Insurance"

  function Mock(id: string, patientId: string, kind: string, policy: string, total: int, used: int, renewal: string, now: string): Benefit {
    Benefit(id, patientId, kind, MockProvider, policy, total, used, renewal, now, now)
  }

  /** `mockInsuranceBenefits`: four benefits of the patient; `renewal` is the
      next first of January and `now` the current time, which the model
      takes as given. */
  function MockBenefits(patientId: string, renewal: string, now: string): (r: seq<Benefit>)
    ensures |r| == 4
    ensures forall i :: 0 <= i < |r| ==> r[i].patientId == patientId && r[i].providerName == MockProvider
    ensures forall i :: 0 <= i < |r| ==> 0 <= r[i].usedAmount <= r[i].totalAmount
  {
    [ Mock("1", patientId, "Dentistry", "DEN123456", 1000, 300, renewal, now),
      Mock("2", patientId, "Physiotherapy", "PHY123456", 800, 200, renewal, now),
      Mock("3", patientId, "Massage Therapy", "MAS123456", 600, 150, renewal, now),
      Mock("4", patientId, "Chiropractic", "CHI123456", 500, 100, renewal, now) ]
  }

  /** The fallback benefits total 2900 with 750 used, 26% once rounded. */
  lemma MockOverall(patientId: string, renewal: string, now: string)
    ensures OverallOf(MockBenefits(patientId, renewal, now)) == Overall(2900, 750, 26, 2150)
  {
    var m := MockBenefits(patientId, renewal, now);
    assert m[3..][1..] == [] && m[2..][1..] == m[3..] && m[1..][1..] == m[2..];
    assert Sum(m[3..], TotalOf) == 500 && Sum(m[3..], UsedOf) == 100;
    assert Sum(m[2..], TotalOf) == 1100 && Sum(m[2..], UsedOf) == 250;
    assert Sum(m[1..], TotalOf) == 1900 && Sum(m[1..], UsedOf) == 450;
    assert Sum(m, TotalOf) == 2900 && Sum(m, UsedOf) == 750;
    assert RoundPercent(750, 2900) == 26;
  }

  /** The fetch effect. `reply` is what the store gave: a list, no list, or
      an error. A non-empty list is shown; anything else shows the four
      fallback benefits, and an error is also recorded. */
  function Fetch(s: HookState, user: Option<string>, reply: Result<Option<seq<Benefit>>>, renewal: string, now: string): (r: HookState)
    ensures !r.loading
    ensures user.None? ==> r.benefits == [] && r.error == s.error
    ensures user.Some? && reply.Ok? && reply.value.Some? && |reply.value.value| > 0 ==>
      r.benefits == reply.value.value && r.error.None?
    ensures user.Some? && reply.Ok? && (reply.value.None? || reply.value.value == []) ==>
      r.benefits == MockBenefits(user.value, renewal, now) && r.error.None?
    ensures user.Some? && reply.Err? ==>
      r.benefits == MockBenefits(user.value, renewal, now) && r.error == Some(reply.message)
    ensures user.Some? ==> |r.benefits| > 0
  {
    if user.None? then s.(benefits := [], loading := false)
    else match reply
      case Ok(Some(rows)) =>
        s.(benefits := if |rows| > 0 then rows else MockBenefits(user.value, renewal, now), error := None, loading := false)
      case Ok(None) => s.(benefits := MockBenefits(user.value, renewal, now), error := None, loading := false)
      case Err(e) => s.(benefits := MockBenefits(user.value, renewal, now), error := Some(e), loading := false)
  }

  /** The row `addBenefit` sends, completed with what the store assigns. */
  function Inserted(user: string, input: BenefitInput, stamp: Stamp): (r: Benefit)
    ensures r.id == stamp.id && r.patientId == user
    ensures BenefitInput(r.benefitType, r.providerName, r.policyNumber, r.totalAmount, r.usedAmount, r.renewalDate) == input
  {
    Benefit(stamp.id, user, input.benefitType, input.providerName, input.policyNumber,
            input.totalAmount, input.usedAmount, input.renewalDate, stamp.createdAt, stamp.createdAt)
  }

  /** `addBenefit` against a store that defines `addInsuranceBenefit`: a
      bare return without a user; otherwise the store's row is appended and
      returned, and a store failure is rethrown with the list kept. */
  function AddBenefit(s: HookState, user: Option<string>, input: BenefitInput, reply: Result<Stamp>): (r: Effect<Benefit>)
    ensures user.None? ==> r == Effect(s, Ok(None))
    ensures user.Some? ==> !r.state.loading && r.state.error == s.error
    ensures user.Some? && reply.Err? ==> r.state.benefits == s.benefits && r.result == Err(reply.message)
    ensures user.Some? && reply.Ok? ==>
      && |r.state.benefits| == |s.benefits| + 1
      && r.state.benefits[..|s.benefits|] == s.benefits
      && r.state.benefits[|s.benefits|].patientId == user.value
      && r.state.benefits[|s.benefits|].id == reply.value.id
      && r.result == Ok(Some(r.state.benefits[|s.benefits|]))
  {
    if user.None? then Effect(s, Ok(None))
    else match reply
      case Err(e) => Effect(s.(loading := false), Err(e))
      case Ok(stamp) =>
        var b := Inserted(user.value, input, stamp);
        Effect(s.(benefits := s.benefits + [b], loading := false), Ok(Some(b)))
  }

  /** `addBenefit` sets `loading` before its store call whenever a user is
      signed in, so a screen gated on `loading` shows its spinner until the
      call settles; without a user it returns first. */
  predicate AddSetsLoading(user: Option<string>) {
    user.Some?
  }

  /** `updateBenefit` against a store that defines `updateInsuranceBenefit`:
      no user check; every benefit with the id is replaced by the store's
      updated row. */
  function UpdateBenefit(s: HookState, id: string, reply: Result<Benefit>): (r: Effect<Benefit>)
    ensures !r.state.loading && r.state.error == s.error
    ensures reply.Err? ==> r.state.benefits == s.benefits && r.result == Err(reply.message)
    ensures reply.Ok? ==>
      && r.result == Ok(Some(reply.value))
      && |r.state.benefits| == |s.benefits|
      && (forall i :: 0 <= i < |s.benefits| && s.benefits[i].id == id ==> r.state.benefits[i] == reply.value)
      && (forall i :: 0 <= i < |s.benefits| && s.benefits[i].id != id ==> r.state.benefits[i] == s.benefits[i])
  {
    match reply
    case Err(e) => Effect(s.(loading := false), Err(e))
    case Ok(row) =>
      Effect(s.(benefits := MapWhere(s.benefits, (b: Benefit) => b.id == id, (b: Benefit) => row), loading := false), Ok(Some(row)))
  }

  /** `deleteBenefit` against a store that defines `deleteInsuranceBenefit`:
      the benefits with the id leave the list, in order; resolves with
      true. */
  function DeleteBenefit(s: HookState, id: string, fault: Option<string>): (r: Effect<bool>)
    ensures !r.state.loading && r.state.error == s.error
    ensures fault.Some? ==> r.state.benefits == s.benefits && r.result == Err(fault.value)
    ensures fault.None? ==> r.result == Ok(Some(true))
    ensures fault.None? ==> forall i :: 0 <= i < |r.state.benefits| ==> r.state.benefits[i].id != id
    ensures fault.None? ==> forall i :: 0 <= i < |s.benefits| && s.benefits[i].id != id ==> s.benefits[i] in r.state.benefits
    ensures fault.None? ==> forall b :: b in r.state.benefits ==> b in s.benefits
  {
    if fault.Some? then Effect(s.(loading := false), Err(fault.value))
    else Effect(s.(benefits := Filter(s.benefits, (b: Benefit) => b.id != id), loading := false), Ok(Some(true)))
  }

  /** Adding a benefit and deleting it by the id the store gave it restores
      the list, when no earlier benefit carries that id. */
  lemma {:induction false} AddThenDeleteRestores(s: HookState, user: string, input: BenefitInput, stamp: Stamp)
    requires forall i :: 0 <= i < |s.benefits| ==> s.benefits[i].id != stamp.id
    ensures var a := AddBenefit(s, Some(user), input, Ok(stamp));
      DeleteBenefit(a.state, stamp.id, None).state.benefits == s.benefits
  {
    var keep := (b: Benefit) => b.id != stamp.id;
    var b := Inserted(user, input, stamp);
    FilterAppend(s.benefits, [b], keep);
    FilterAll(s.benefits, keep);
    assert Filter([b], keep) == [];
  }

  /** Adding one benefit moves the totals by its amounts. */
  lemma AddMovesTotals(s: HookState, user: string, input: BenefitInput, stamp: Stamp)
    ensures var a := AddBenefit(s, Some(user), input, Ok(stamp));
      && OverallOf(a.state.benefits).total == OverallOf(s.benefits).total + input.totalAmount
      && OverallOf(a.state.benefits).used == OverallOf(s.benefits).used + input.usedAmount
  {
    OverallAppend(s.benefits, Inserted(user, input, stamp));
  }

  // ---------------------------------------------------------------- as written

  /** The `TypeError`s the four calls throw, since the client's store
      module defines none of them. */
  const MissingFetch := "dbService.getInsuranceBenefits is not a function"
  const MissingAdd := "dbService.addInsuranceBenefit is not a function"
  const MissingUpdate := "dbService.updateInsuranceBenefit is not a function"
  const MissingDelete := "dbService.deleteInsuranceBenefit is not a function"

  /** `fetchBenefits` as written: with a user signed in the call throws, so
      the catch records the error and shows the four built-in benefits. */
  function FetchAsWritten(s: HookState, user: Option<string>, renewal: string, now: string): (r: HookState)
    ensures !r.loading
    ensures user.None? ==> r.benefits == [] && r.error == s.error
    ensures user.Some? ==> r.benefits == MockBenefits(user.value, renewal, now) && r.error == Some(MissingFetch)
  {
    Fetch(s, user, Err(MissingFetch), renewal, now)
  }

  /** `addBenefit` as written: a bare return without a user; with one, the
      call throws and the hook rethrows, so no add ever resolves. */
  function AddAsWritten(s: HookState, user: Option<string>, input: BenefitInput): (r: Effect<Benefit>)
    ensures user.None? ==> r == Effect(s, Ok(None))
    ensures user.Some? ==> r.result == Err(MissingAdd) && r.state == s.(loading := false)
  {
    AddBenefit(s, user, input, Err(MissingAdd))
  }

  /** `updateBenefit` as written: the call throws, so every update rejects
      and the list is kept. */
  function UpdateAsWritten(s: HookState, id: string): (r: Effect<Benefit>)
    ensures r.result == Err(MissingUpdate) && r.state == s.(loading := false)
  {
    UpdateBenefit(s, id, Err(MissingUpdate))
  }

  /** `deleteBenefit` as written: the call throws, so every delete rejects
      and the list is kept. */
  function DeleteAsWritten(s: HookState, id: string): (r: Effect<bool>)
    ensures r.result == Err(MissingDelete) && r.state == s.(loading := false)
  {
    DeleteBenefit(s, id, Some(MissingDelete))
  }

  /** One of the three actions the hook hands to its screens. */
  datatype Action = Add(input: BenefitInput) | Update(id: string) | Delete(id: string)

  /** The actions run one after another, each on the state the previous one
      left, as written. */
  function RunAsWritten(s: HookState, user: Option<string>, actions: seq<Action>): (r: HookState)
    ensures r.benefits == s.benefits && r.error == s.error
    ensures user.Some? && actions != [] ==> !r.loading
    decreases |actions|
  {
    if actions == [] then s
    else
      var next := match actions[0]
        case Add(input) => AddAsWritten(s, user, input).state
        case Update(id) => UpdateAsWritten(s, id).state
        case Delete(id) => DeleteAsWritten(s, id).state;
      RunAsWritten(next, user, actions[1..])
  }

  /** As written a signed-in patient only ever sees the four built-in
      benefits, with the fetch's error recorded, whatever they add, change
      or remove afterwards; the intended store instead lists an added
      benefit after the four. */
  lemma AsWrittenShowsOnlySamples(s: HookState, user: string, actions: seq<Action>, renewal: string, now: string, input: BenefitInput, stamp: Stamp)
    ensures var r := RunAsWritten(FetchAsWritten(s, Some(user), renewal, now), Some(user), actions);
      r.benefits == MockBenefits(user, renewal, now) && r.error == Some(MissingFetch)
    ensures var f := Fetch(s, Some(user), Ok(None), renewal, now);
      AddBenefit(f, Some(user), input, Ok(stamp)).state.benefits == MockBenefits(user, renewal, now) + [Inserted(user, input, stamp)]
  {
  }
}
