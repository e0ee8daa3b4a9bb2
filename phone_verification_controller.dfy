/** `PhoneVerificationController`: the page asking for the code sent to the
    user's phone, the check of that code, and sending a new one. The clock
    and the random draw of a code are parameters. */
module PhoneVerificationController {
  import opened Wrappers
  import opened PhpText
  import opened User

  /** `maskPhone`: nothing for a missing or falsy phone, a short phone as it
      is, and otherwise the phone with everything but its first four and last
      two characters replaced by `*`. */
  function MaskPhone(phone: Option<string>): (r: string)
    ensures phone.None? || IsFalsy(phone.value) ==> r == ""
    ensures phone.Some? && !IsFalsy(phone.value) && |phone.value| <= 6 ==> r == phone.value
    ensures phone.Some? && |phone.value| > 6 ==>
      var p := phone.value;
      |r| == |p| && r[..4] == p[..4] && r[|r| - 2..] == p[|p| - 2..] &&
      forall i :: 4 <= i < |p| - 2 ==> r[i] == '*'
  {
    if phone.None? || IsFalsy(phone.value) then ""
    else
      var p := phone.value;
      if |p| <= 6 then p
      else p[..4] + Repeat('*', |p| - 6) + p[|p| - 2..]
  }

  /** The mask shows nothing of a long phone but its length, its first four
      and its last two characters: two phones that agree on those are masked
      alike. */
  lemma MaskHidesMiddle(p: string, q: string)
    requires |p| == |q| > 6 && p[..4] == q[..4] && p[|p| - 2..] == q[|q| - 2..]
    ensures MaskPhone(Some(p)) == MaskPhone(Some(q))
  {
    var mp := MaskPhone(Some(p));
    var mq := MaskPhone(Some(q));
    forall i | 0 <= i < |mp| ensures mp[i] == mq[i] {
      if i < 4 {
        assert mp[i] == mp[..4][i] && mq[i] == mq[..4][i];
      } else if i >= |mp| - 2 {
        assert mp[i] == mp[|mp| - 2..][i - (|mp| - 2)] && mq[i] == mq[|mq| - 2..][i - (|mq| - 2)];
      }
    }
  }

  datatype ShowResponse = RedirectIntended | VerifyPage(phone: string)

  /** `show`: a verified user goes on; the others see their masked phone. */
  function Show(user: User): (r: ShowResponse)
    reads user
    ensures r.RedirectIntended? <==> user.HasVerifiedPhone()
    ensures r.VerifyPage? ==> r.phone == MaskPhone(user.phone)
  {
    if user.HasVerifiedPhone() then RedirectIntended else VerifyPage(MaskPhone(user.phone))
  }

  datatype VerifyResponse = InvalidCode | RedirectNotice

  /** `verify`: a code that is not the stored, unexpired one is refused and
      the user stays as they were; a valid one verifies the phone, after
      which no code is accepted any more. */
  method Verify(user: User, code: string, now: int) returns (r: VerifyResponse)
    modifies user
    ensures !old(user.IsPhoneVerificationCodeValid(code, now)) ==> r == InvalidCode && unchanged(user)
    ensures old(user.IsPhoneVerificationCodeValid(code, now)) ==>
      r == RedirectNotice && user.phoneVerifiedAt == Some(now) && user.OnlyVerificationChanged()
    ensures r == RedirectNotice ==> user.HasVerifiedPhone() && forall c :: !user.IsPhoneVerificationCodeValid(c, now)
  {
    if !user.IsPhoneVerificationCodeValid(code, now) {
      return InvalidCode;
    }
    user.MarkPhoneAsVerified(now);
    r := RedirectNotice;
  }

  datatype ResendResponse = AlreadyVerified | CodeSent

  /** `resend` with `drawn` the value of `random_int(0, 999999)`: a verified
      user gets no new code; the others get the code of `drawn`, valid for
      ten minutes. */
  method Resend(user: User, drawn: nat, now: int) returns (r: ResendResponse)
    requires drawn <= MaxCode
    modifies user
    ensures old(user.HasVerifiedPhone()) ==> r == AlreadyVerified && unchanged(user)
    ensures !old(user.HasVerifiedPhone()) ==>
      r == CodeSent && user.phoneVerificationCode == Some(CodeOf(drawn)) &&
      user.phoneVerificationExpiresAt == Some(now + CodeLifetime) &&
      user.phoneVerifiedAt == old(user.phoneVerifiedAt) && user.OnlyVerificationChanged()
  {
    if user.HasVerifiedPhone() {
      return AlreadyVerified;
    }
    var code := user.GeneratePhoneVerificationCode(drawn, now);
    CodeOfIsStoredCode(drawn, code);
    r := CodeSent;
  }

  /** The code `generatePhoneVerificationCode` returns for `drawn` is
      `CodeOf(drawn)`: six digits determine their value. */
  lemma CodeOfIsStoredCode(drawn: nat, code: string)
    requires drawn <= MaxCode
    requires |code| == 6 && AllDigits(code) && DigitsValue(code) == drawn
    ensures code == CodeOf(drawn)
  {
    DigitsDetermined(code, CodeOf(drawn));
  }

  /** Two digit strings of one length with the same value are equal. */
  lemma {:induction false} DigitsDetermined(a: string, b: string)
    requires |a| == |b| && AllDigits(a) && AllDigits(b) && DigitsValue(a) == DigitsValue(b)
    ensures a == b
    decreases |a|
  {
    if a != [] {
      var n := |a|;
      var x, y := DigitsValue(a[..n - 1]), DigitsValue(b[..n - 1]);
      var d, e := a[n - 1] as int - '0' as int, b[n - 1] as int - '0' as int;
      assert x * 10 + d == y * 10 + e && 0 <= d < 10 && 0 <= e < 10;
      assert x == y;
      DigitsDetermined(a[..n - 1], b[..n - 1]);
      assert a == a[..n - 1] + [a[n - 1]] && b == b[..n - 1] + [b[n - 1]];
    }
  }
}
