// Kobo to naira and back through two floating-point operations, and the amount check on webhooks.
module NairaAmounts {
  import opened Wrappers

  // Half a unit in the last place of a double, relative: 2^-53.
  const ROUNDING_UNIT: real := 1.0 / 9_007_199_254_740_992.0

  // Amounts below 2^51 kobo.
  const MAX_KOBO: int := 2_251_799_813_685_248

  function Abs(x: real): real {
    if x < 0.0 then -x else x
  }

  // What round-to-nearest (section 4.3.1 of IEEE 754) may make of an exact result in the normal
  // range: any value within the relative error bound.
  ghost predicate RoundsTo(exact: real, got: real) {
    Abs(got - exact) <= Abs(exact) * ROUNDING_UNIT
  }

  // Math.round: halves go up.
  function MathRound(x: real): int {
    (x + 0.5).Floor
  }

  // Number(amountPaise) / 100 on the way out. An integer below 2^53 is itself a double.
  ghost predicate NairaOf(kobo: int, naira: real) {
    RoundsTo(kobo as real / 100.0, naira)
  }

  // Math.round(amount * 100) on the way in.
  ghost predicate KoboOf(naira: real, kobo: int) {
    exists product :: RoundsTo(naira * 100.0, product) && kobo == MathRound(product)
  }

  // The accumulated error of both operations stays below half a kobo.
  lemma ErrorBelowHalf(kobo: int, naira: real, product: real)
    requires 0 <= kobo < MAX_KOBO && NairaOf(kobo, naira) && RoundsTo(naira * 100.0, product)
    ensures Abs(product - kobo as real) < 0.5
  {
    var n := kobo as real;
    assert n <= MAX_KOBO as real - 1.0;
    assert Abs(naira - n / 100.0) <= n / 100.0 * ROUNDING_UNIT;
    assert Abs(naira * 100.0 - n) <= n * ROUNDING_UNIT;
    assert Abs(product - naira * 100.0) <= (n + n * ROUNDING_UNIT) * ROUNDING_UNIT;
  }

  // Every amount survives the round trip, however the two operations round.
  lemma RoundTripIsExact(kobo: int, naira: real, back: int)
    requires 0 <= kobo < MAX_KOBO && NairaOf(kobo, naira) && KoboOf(naira, back)
    ensures back == kobo
  {
    var product :| RoundsTo(naira * 100.0, product) && back == MathRound(product);
    ErrorBelowHalf(kobo, naira, product);
    assert product + 0.5 < (kobo + 1) as real;
  }

  // validateWebhookPayload(): an absent or zero amount is let through.
  method ValidateWebhookPayload(webhookAmount: Option<int>, expectedAmount: int) returns (accepted: bool)
    ensures accepted <==> webhookAmount in {None, Some(0), Some(expectedAmount)}
  {
    if webhookAmount.Some? && webhookAmount.value != 0 && webhookAmount.value != expectedAmount {
      return false;
    }
    return true;
  }

  // The amount a webhook reports, when the gateway echoes the naira figure it was sent or
  // charged: of all whole-kobo payments exactly the expected one passes, and zero.
  lemma OnlyTheExpectedAmountPasses(expected: int, charged: int, naira: real, extracted: int)
    requires 0 < expected < MAX_KOBO && 0 <= charged < MAX_KOBO
    requires NairaOf(charged, naira) && KoboOf(naira, extracted)
    ensures Some(extracted) in {None, Some(0), Some(expected)} <==> charged == expected || charged == 0
  {
    RoundTripIsExact(charged, naira, extracted);
  }
}
