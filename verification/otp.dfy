/**
 `otp_generator(length)`: a uniformly random integer below `10^length`.
 The random draw is a parameter (`entropy`), reduced into range, so every
 caller of the generator sees exactly the values the source can produce.
 */
module Otp {

  /** 10 raised to `n`. */
  function Pow10(n: nat): (r: nat)
    ensures r >= 1
  {
    if n == 0 then 1 else 10 * Pow10(n - 1)
  }

  /**
   The `length` argument the account handlers pass to `otp_generator`. Codes
   are not zero-padded, so a code may have fewer digits than this.
   */
  const OtpLength: nat := 6

  /** `secrets.randbelow(10 ** length)`, with the random draw given as `entropy`. */
  function OtpGenerator(length: nat, entropy: nat): (r: nat)
    ensures 0 <= r < Pow10(length)
  {
    entropy % Pow10(length)
  }

  /** Every code in range is produced by some draw: the model does not narrow the generator's range. */
  lemma {:induction false} OtpGeneratorReachesEveryCode(length: nat, code: nat)
    requires code < Pow10(length)
    ensures exists entropy: nat :: OtpGenerator(length, entropy) == code
  {
    SmallRemainder(code, Pow10(length));
    assert OtpGenerator(length, code) == code;
  }

  /** A value already below the divisor is its own remainder. */
  lemma SmallRemainder(a: nat, b: nat)
    requires a < b
    ensures a % b == a
  {
  }

  /**
   The codes the handlers mail are exactly the numbers below 1,000,000: every
   draw lands there, and every such number is some draw's code.
   */
  lemma {:induction false} CodesBelowAMillion(c: nat)
    ensures c < 1_000_000 <==> exists entropy: nat :: OtpGenerator(OtpLength, entropy) == c
  {
    assert Pow10(OtpLength) == 1_000_000;
    if c < 1_000_000 {
      OtpGeneratorReachesEveryCode(OtpLength, c);
    }
  }
}
