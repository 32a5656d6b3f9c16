/** The integer arithmetic of context budgets: percentages, the token density and the summary allowance. */
module TokenBudget {
  import opened Wrappers

  const BYTES_PER_TWO_TOKENS := 5
  const TRIGGER_PERCENT := 90
  const TARGET_PERCENT := 30
  const MIN_SUMMARY := 512
  const MAX_SUMMARY := 8192
  const MAX_INT64 := 0x7FFF_FFFF_FFFF_FFFF

  /** A percentage computed in two parts, so that no intermediate product is large. */
  function Percentage(value: nat, percent: nat): nat {
    value / 100 * percent + value % 100 * percent / 100
  }

  /** tokensToContextChars */
  function TokensToChars(tokens: nat): nat {
    tokens * BYTES_PER_TWO_TOKENS / 2
  }

  /** The token estimate of an encoding of so many bytes. */
  function EstimateTokens(bytes: nat): nat {
    Max((2 * bytes + BYTES_PER_TWO_TOKENS - 1) / BYTES_PER_TWO_TOKENS, 1)
  }

  /** contextCompactionSummaryTokenLimit; window is maxContextTokens. */
  function SummaryTokenLimit(window: int): int {
    if window <= 0 then 0
    else
      var allowance := Min(Max(window * 1 / 100, MIN_SUMMARY), MAX_SUMMARY);
      Min(allowance, Max(window / 4, 1))
  }

  /** The two parts add up to the rounded-down percentage of the whole. */
  lemma PercentageIsFloor(value: nat, percent: nat)
    ensures Percentage(value, percent) == value * percent / 100
  {
  }

  /** Up to a hundred percent of any 64-bit count, no intermediate value leaves the 64-bit range. */
  lemma PercentageStaysInRange(value: nat, percent: nat)
    requires value <= MAX_INT64 && percent <= 100
    ensures value / 100 * percent <= value
    ensures value % 100 * percent <= 9900
    ensures Percentage(value, percent) <= value
  {
    var q, r := value / 100, value % 100;
    MulMonotone(q, percent, 100);
    MulMonotone(r, percent, 100);
    PercentageIsFloor(value, percent);
    MulMonotone(value, percent, 100);
  }

  lemma MulMonotone(x: nat, a: nat, b: nat)
    requires a <= b
    ensures x * a <= x * b
  {
  }

  /** Two tokens are estimated for every five bytes begun, and one at least. */
  lemma EstimateIsCeiling(bytes: nat)
    ensures EstimateTokens(bytes) >= 1
    ensures bytes >= 1 ==> 5 * (EstimateTokens(bytes) - 1) < 2 * bytes <= 5 * EstimateTokens(bytes)
  {
  }

  /** The character budget is exact: an encoding fits it precisely when it estimates to no more than the tokens. */
  lemma CharsAreTokens(bytes: nat, tokens: nat)
    requires tokens >= 1
    ensures EstimateTokens(bytes) <= tokens <==> bytes <= TokensToChars(tokens)
  {
  }

  /** The summary allowance is between one token and a quarter of the window, and grows with the window. */
  lemma SummaryLimitIsModest(window: int, larger: int)
    requires window <= larger
    ensures 0 <= SummaryTokenLimit(window) <= SummaryTokenLimit(larger) <= MAX_SUMMARY
    ensures window >= 1 ==> SummaryTokenLimit(window) >= 1
    ensures window >= 4 ==> 4 * SummaryTokenLimit(window) <= window
    ensures 51200 <= window <= 819200 ==> SummaryTokenLimit(window) == window / 100
  {
  }
}
