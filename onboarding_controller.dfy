/** `OnboardingController`: the four-step wizard that records a new user's
    experience and risk (step 1), goal and trading style (step 2), country and
    markets (step 3) and sectors (step 4). */
module OnboardingController {
  import opened Wrappers
  import opened PhpArray
  import opened User
  import opened PhpText

  const TotalSteps: int := 4

  /** `max(1, min(4, $step))`. */
  function ClampStep(step: int): (r: int)
    ensures 1 <= r <= TotalSteps
    ensures 1 <= step <= TotalSteps ==> r == step
    ensures step < 1 ==> r == 1
    ensures step > TotalSteps ==> r == TotalSteps
  {
    var upper := if step < TotalSteps then step else TotalSteps;
    if 1 < upper then upper else 1
  }

  /** `(int) $request->query('step', 1)`: 1 when the query has no step, else
      the query value cast to an integer (a query string value is a string). */
  function RequestedStep(query: Option<Value>): (r: int)
    ensures query.None? ==> r == 1
    ensures query.Some? && query.value.Str? ==> r == PhpIntCast(query.value.s)
    ensures query.Some? && query.value.Int? ==> r == query.value.n
  {
    IntOf(query.GetOr(Int(1)))
  }

  /** What `user` shows of the selections made so far. */
  datatype Selections = Selections(
    experienceLevel: Option<string>, riskLevel: Option<string>, investmentGoal: Option<string>,
    tradingStyle: Option<string>, countryId: Option<string>, markets: set<string>, sectors: set<string>)

  /** The wizard page: its step, and which reference lists it loads. */
  datatype ShowResponse =
    | RedirectToDashboard
    | Wizard(step: int, totalSteps: int, loadsCountries: bool, loadsMarkets: bool, loadsSectors: bool, user: Selections)

  /** `show`. */
  function Show(user: User, query: Option<Value>): (r: ShowResponse)
    reads user
    ensures user.HasCompletedOnboarding() <==> r.RedirectToDashboard?
    ensures r.Wizard? ==> 1 <= r.step <= TotalSteps && r.totalSteps == TotalSteps
    ensures r.Wizard? ==> (r.loadsCountries <==> r.step == 3) && (r.loadsMarkets <==> r.step == 3)
    ensures r.Wizard? ==> (r.loadsSectors <==> r.step == 4)
    ensures r.Wizard? && query.None? ==> r.step == 1
    ensures r.Wizard? ==> r.step == ClampStep(RequestedStep(query))
    ensures r.Wizard? ==>
      r.user == Selections(user.experienceLevel, user.riskLevel, user.investmentGoal, user.tradingStyle,
                           user.countryId, user.markets, user.sectors)
  {
    if user.HasCompletedOnboarding() then RedirectToDashboard
    else
      var step := ClampStep(RequestedStep(query));
      Wizard(step, TotalSteps, step == 3, step == 3, step == 4,
             Selections(user.experienceLevel, user.riskLevel, user.investmentGoal, user.tradingStyle,
                        user.countryId, user.markets, user.sectors))
  }

  /** A page reached by a link to a step in range, written in decimal in the
      query string, shows that step. */
  lemma ShowRequestedStep(user: User, step: int)
    requires !user.HasCompletedOnboarding() && 1 <= step <= TotalSteps
    ensures Show(user, Some(Str(IntToString(step)))).step == step
  {
    PhpIntCastOfInt(step);
  }

  /** A link to any step, written in decimal, shows that step pulled into
      1..4: `?step=9` shows step 4, `?step=-2` step 1. */
  lemma ShowClampedStep(user: User, step: int)
    requires !user.HasCompletedOnboarding()
    ensures step > TotalSteps ==> Show(user, Some(Str(IntToString(step)))).step == TotalSteps
    ensures step < 1 ==> Show(user, Some(Str(IntToString(step)))).step == 1
  {
    PhpIntCastOfInt(step);
  }

  /** The validated fields of a step's form. */
  datatype StepInput = StepInput(
    experienceLevel: string, riskLevel: string, investmentGoal: string, tradingStyle: string,
    countryId: string, markets: seq<string>, sectors: seq<string>)

  datatype StoreResponse = RedirectToStep(next: int) | OnboardingComplete

  /** `store`: the step's fields are saved and the wizard moves to the next
      step; step 4 also completes the onboarding. A step outside 1..4 has no
      arm in the `match` and throws before anything is saved. */
  method Store(user: User, step: int, input: StepInput, now: int) returns (r: Result<StoreResponse>)
    modifies user
    ensures !(1 <= step <= TotalSteps) ==> r.Failure? && unchanged(user)
    ensures 1 <= step < TotalSteps ==> r == Success(RedirectToStep(step + 1))
    ensures step == TotalSteps ==> r == Success(OnboardingComplete) && user.onboardingCompletedAt == Some(now)
    ensures step == 1 ==> user.experienceLevel == Some(input.experienceLevel) && user.riskLevel == Some(input.riskLevel)
    ensures step != 1 ==> user.experienceLevel == old(user.experienceLevel) && user.riskLevel == old(user.riskLevel)
    ensures step == 2 ==> user.investmentGoal == Some(input.investmentGoal) && user.tradingStyle == Some(input.tradingStyle)
    ensures step != 2 ==> user.investmentGoal == old(user.investmentGoal) && user.tradingStyle == old(user.tradingStyle)
    ensures step == 3 ==> user.countryId == Some(input.countryId) && user.markets == set m | m in input.markets
    ensures step != 3 ==> user.countryId == old(user.countryId) && user.markets == old(user.markets)
    ensures step == 4 ==> user.sectors == set s | s in input.sectors
    ensures step != 4 ==> user.sectors == old(user.sectors) && user.onboardingCompletedAt == old(user.onboardingCompletedAt)
    ensures user.phone == old(user.phone) && user.phoneVerifiedAt == old(user.phoneVerifiedAt)
    ensures user.phoneVerificationCode == old(user.phoneVerificationCode)
    ensures user.phoneVerificationExpiresAt == old(user.phoneVerificationExpiresAt) && user.telegramId == old(user.telegramId)
  {
    if step == 1 {
      user.experienceLevel := Some(input.experienceLevel);
      user.riskLevel := Some(input.riskLevel);
    } else if step == 2 {
      user.investmentGoal := Some(input.investmentGoal);
      user.tradingStyle := Some(input.tradingStyle);
    } else if step == 3 {
      user.countryId := Some(input.countryId);
      user.markets := set m | m in input.markets;
    } else if step == 4 {
      user.sectors := set s | s in input.sectors;
    } else {
      return Failure("UnhandledMatchError");
    }
    if step >= TotalSteps {
      user.MarkOnboardingAsComplete(now);
      return Success(OnboardingComplete);
    }
    r := Success(RedirectToStep(step + 1));
  }

  /** The step `store` sends the user to is one `show` displays as it is. */
  lemma NextStepShown(step: int)
    requires 1 <= step < TotalSteps
    ensures ClampStep(step + 1) == step + 1
  {
  }
}
