/** The default counter: four characters to a token, rounded up. */
module Tokens {
  import opened Bands

  const CHARS_PER_TOKEN := 4

  function Estimate(text: string): nat {
    (|text| + CHARS_PER_TOKEN - 1) / CHARS_PER_TOKEN
  }

  /** Rounded up: a token for every four characters begun. */
  lemma EstimateRoundsUp(text: string)
    ensures 4 * Estimate(text) - 4 < |text| <= 4 * Estimate(text)
  {
  }

  /** Longer texts never cost less, and only the empty text is free. */
  ghost predicate ByLength(count: Counter) {
    && (forall a, b | |a| <= |b| :: count(a) <= count(b))
    && (forall a | a != "" :: count(a) > 0)
  }

  lemma EstimateByLength()
    ensures ByLength(Estimate)
  {
    forall a, b | |a| <= |b| ensures Estimate(a) <= Estimate(b) {
      Rounded(|a|, |b|);
    }
  }

  lemma Rounded(m: nat, n: nat)
    requires m <= n
    ensures (m + CHARS_PER_TOKEN - 1) / CHARS_PER_TOKEN <= (n + CHARS_PER_TOKEN - 1) / CHARS_PER_TOKEN
  {
  }
}
