/** The `User` model's phone-verification and onboarding state. Times are
    seconds since the epoch; the clock (`now`, `freshTimestamp()`) and the
    random draw of a code are parameters. */
module User {
  import opened Wrappers
  import opened PhpText

  /** How long a verification code stays valid: `addMinutes(10)`. */
  const CodeLifetime: int := 10 * 60

  /** The largest code `random_int(0, 999999)` draws. */
  const MaxCode: nat := 999999

  /** A generated code: the number in decimal, padded on the left with
      zeros to six digits. */
  function CodeOf(n: nat): (code: string)
    requires n <= MaxCode
    ensures |code| == 6 && AllDigits(code) && DigitsValue(code) == n
  {
    NatToStringRoundTrip(n);
    NatToStringShort(n);
    var digits := NatToString(n);
    var code := PadLeft(digits, 6, '0');
    assert code == Repeat('0', 6 - |digits|) + digits;
    DigitsValueLeadingZeros(6 - |digits|, digits);
    code
  }

  /** Numbers up to 999999 have at most six digits. */
  lemma NatToStringShort(n: nat)
    requires n <= MaxCode
    ensures |NatToString(n)| <= 6
  {
    DigitCount(n, 6);
  }

  /** A number below `10^k` has at most `k` digits. */
  lemma {:induction false} DigitCount(n: nat, k: nat)
    requires k >= 1 && n < Pow10(k)
    ensures |NatToString(n)| <= k
    decreases k
  {
    if n >= 10 {
      assert Pow10(1) == 10;
      DigitCount(n / 10, k - 1);
    }
  }

  class User {
    var phone: Option<string>
    var phoneVerifiedAt: Option<int>
    var phoneVerificationCode: Option<string>
    var phoneVerificationExpiresAt: Option<int>
    var onboardingCompletedAt: Option<int>
    var telegramId: Option<int>
    var experienceLevel: Option<string>
    var riskLevel: Option<string>
    var investmentGoal: Option<string>
    var tradingStyle: Option<string>
    var countryId: Option<string>
    var markets: set<string>
    var sectors: set<string>

    /** A user freshly registered: nothing verified, nothing chosen. */
    constructor (phone: Option<string>, telegramId: Option<int>)
      ensures this.phone == phone && this.telegramId == telegramId
      ensures phoneVerifiedAt == None && phoneVerificationCode == None && phoneVerificationExpiresAt == None
      ensures onboardingCompletedAt == None && markets == {} && sectors == {}
      ensures experienceLevel == None && riskLevel == None && investmentGoal == None && tradingStyle == None
      ensures countryId == None
    {
      this.phone := phone;
      this.telegramId := telegramId;
      phoneVerifiedAt := None;
      phoneVerificationCode := None;
      phoneVerificationExpiresAt := None;
      onboardingCompletedAt := None;
      experienceLevel := None;
      riskLevel := None;
      investmentGoal := None;
      tradingStyle := None;
      countryId := None;
      markets := {};
      sectors := {};
    }

    predicate HasVerifiedPhone()
      reads this
    {
      phoneVerifiedAt.Some?
    }

    predicate HasCompletedOnboarding()
      reads this
    {
      onboardingCompletedAt.Some?
    }

    /** `isPhoneVerificationCodeValid`: the stored code is exactly `code` and
        its expiry is set and still ahead of `now`. */
    predicate IsPhoneVerificationCodeValid(code: string, now: int)
      reads this
    {
      phoneVerificationCode == Some(code) &&
      phoneVerificationExpiresAt.Some? && phoneVerificationExpiresAt.value > now
    }

    /** `hasVerifiedPhone` and `hasCompletedOnboarding` each test one
        timestamp for null, and nothing else. */
    lemma StatusTests()
      ensures HasVerifiedPhone() <==> phoneVerifiedAt != None
      ensures HasCompletedOnboarding() <==> onboardingCompletedAt != None
    {
    }

    /** At any moment at most one code is valid; a code valid now was valid
        at every earlier moment, and none is valid once the expiry is
        reached. */
    lemma CodeValidity(code: string, other: string, now: int, earlier: int)
      ensures IsPhoneVerificationCodeValid(code, now) && IsPhoneVerificationCodeValid(other, now) ==> code == other
      ensures IsPhoneVerificationCodeValid(code, now) && earlier <= now ==> IsPhoneVerificationCodeValid(code, earlier)
      ensures phoneVerificationExpiresAt.Some? && now >= phoneVerificationExpiresAt.value ==>
        !IsPhoneVerificationCodeValid(code, now)
      ensures phoneVerificationCode.None? ==> !IsPhoneVerificationCodeValid(code, now)
    {
    }

    /** Every field except the verification fields is unchanged. */
    twostate predicate OnlyVerificationChanged()
      reads this
    {
      phone == old(phone) && onboardingCompletedAt == old(onboardingCompletedAt) &&
      telegramId == old(telegramId) && experienceLevel == old(experienceLevel) &&
      riskLevel == old(riskLevel) && investmentGoal == old(investmentGoal) &&
      tradingStyle == old(tradingStyle) && countryId == old(countryId) &&
      markets == old(markets) && sectors == old(sectors)
    }

    /** `markPhoneAsVerified`: verified now, the code and its expiry
        cleared. */
    method MarkPhoneAsVerified(now: int)
      modifies this
      ensures phoneVerifiedAt == Some(now) && phoneVerificationCode == None && phoneVerificationExpiresAt == None
      ensures OnlyVerificationChanged()
      ensures HasVerifiedPhone() && forall code :: !IsPhoneVerificationCodeValid(code, now)
    {
      phoneVerifiedAt := Some(now);
      phoneVerificationCode := None;
      phoneVerificationExpiresAt := None;
    }

    /** `markOnboardingAsComplete`. */
    method MarkOnboardingAsComplete(now: int)
      modifies this
      ensures onboardingCompletedAt == Some(now) && HasCompletedOnboarding()
      ensures phone == old(phone) && phoneVerifiedAt == old(phoneVerifiedAt)
      ensures phoneVerificationCode == old(phoneVerificationCode) && phoneVerificationExpiresAt == old(phoneVerificationExpiresAt)
      ensures telegramId == old(telegramId) && experienceLevel == old(experienceLevel) && riskLevel == old(riskLevel)
      ensures investmentGoal == old(investmentGoal) && tradingStyle == old(tradingStyle) && countryId == old(countryId)
      ensures markets == old(markets) && sectors == old(sectors)
    {
      onboardingCompletedAt := Some(now);
    }

    /** `generatePhoneVerificationCode` with `drawn` the value of
        `random_int(0, 999999)`: the six-digit code is stored and returned,
        and it is valid until ten minutes from `now`. */
    method GeneratePhoneVerificationCode(drawn: nat, now: int) returns (code: string)
      requires drawn <= MaxCode
      modifies this
      ensures |code| == 6 && AllDigits(code) && DigitsValue(code) == drawn
      ensures phoneVerificationCode == Some(code) && phoneVerificationExpiresAt == Some(now + CodeLifetime)
      ensures phoneVerifiedAt == old(phoneVerifiedAt) && OnlyVerificationChanged()
      ensures forall t :: IsPhoneVerificationCodeValid(code, t) <==> t < now + CodeLifetime
    {
      code := CodeOf(drawn);
      phoneVerificationCode := Some(code);
      phoneVerificationExpiresAt := Some(now + CodeLifetime);
    }
  }

  /** Only the last generated code is accepted: two different draws give two
      different codes. */
  lemma CodesDistinct(a: nat, b: nat)
    requires a <= MaxCode && b <= MaxCode && a != b
    ensures CodeOf(a) != CodeOf(b)
  {
  }
}
