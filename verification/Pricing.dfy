/** internal/pricing/pricing.go: the price table, its longest-match lookup and the
    clamped billing arithmetic.  Prices are exact reals, in USD per million tokens. */
module Pricing {
  import opened Wrappers

  datatype ModelPrice = ModelPrice(input: real, cached: real, output: real)

  type Table = map<string, ModelPrice>

  /** strings.LastIndex(s, "-"): the last dash, or -1. */
  function LastDash(s: string): (i: int)
    ensures -1 <= i < |s|
    ensures i >= 0 ==> s[i] == '-'
    ensures forall j :: i < j < |s| ==> s[j] != '-'
  {
    if s == "" then -1
    else if s[|s| - 1] == '-' then |s| - 1
    else LastDash(s[..|s| - 1])
  }

  /** The ids that may price `model`: the full id, and each non-empty prefix that ends just before a dash. */
  ghost predicate Candidate(model: string, id: string) {
    || id == model
    || (0 < |id| < |model| && id == model[..|id|] && model[|id|] == '-')
  }

  /** The answer a reader of the price table expects: the longest configured candidate. */
  ghost predicate LongestMatch(models: Table, model: string, id: string) {
    && Candidate(model, id) && id in models
    && forall c :: Candidate(model, c) && c in models ==> |c| <= |id|
  }

  /** Pricing.lookup: the loop over ever shorter prefixes. */
  method Lookup(models: Table, model: string) returns (price: Option<ModelPrice>)
    ensures price.None? <==> forall c :: Candidate(model, c) ==> c !in models
    ensures price.Some? ==> exists id :: LongestMatch(models, model, id) && price.value == models[id]
  {
    if model in models {
      assert LongestMatch(models, model, model);
      return Some(models[model]);
    }
    var i := LastDash(model);
    while i > 0
      invariant -1 <= i < |model|
      invariant i >= 0 ==> model[i] == '-'
      invariant forall c :: Candidate(model, c) && c in models ==> |c| <= i
    {
      if model[..i] in models {
        assert LongestMatch(models, model, model[..i]);
        return Some(models[model[..i]]);
      }
      var next := LastDash(model[..i]);
      forall c | Candidate(model, c) && c in models ensures |c| <= next {
        assert c != model[..i];
        assert |c| < i;
        assert model[..i][|c|] == '-';
      }
      i := next;
    }
    price := None;
  }

  /** A longest match is unique, so Lookup's answer is determined by the table and the model id. */
  lemma LongestMatchUnique(models: Table, model: string, a: string, b: string)
    requires LongestMatch(models, model, a) && LongestMatch(models, model, b)
    ensures a == b
  {
    assert |a| == |b|;
    assert a == model[..|a|] && b == model[..|b|];
  }

  /** Pricing.Cost on the looked-up price; a model that is not in the table costs nothing. */
  function Cost(price: Option<ModelPrice>, input: int, output: int, cached: int): real {
    match price
    case None => 0.0
    case Some(mp) =>
      var cachedRate := if mp.cached == 0.0 then mp.input else mp.cached;
      var uncached := input - cached;
      var (billedCached, billedUncached) := if uncached < 0 then (input, 0) else (cached, uncached);
      (billedUncached as real * mp.input + billedCached as real * cachedRate + output as real * mp.output) / 1000000.0
  }

  /** What Cost means: some split of the input tokens into cached and uncached ones is billed, the split is
      exact however many cached tokens the upstream claims, and no more are billed as cached than it claims. */
  lemma CostBillsEveryInputToken(mp: ModelPrice, input: nat, output: nat, cached: nat)
    returns (asCached: nat, asUncached: nat)
    ensures asCached + asUncached == input && asCached == Min(cached, input)
    ensures Cost(Some(mp), input, output, cached) * 1000000.0
         == asUncached as real * mp.input
          + asCached as real * (if mp.cached == 0.0 then mp.input else mp.cached)
          + output as real * mp.output
  {
    asCached := Min(cached, input);
    asUncached := input - asCached;
  }

  /** A response without input and output tokens costs nothing, whatever cached count it reports, exactly when
      the count is not negative or the model has one rate for all input: this is what makes it safe for the
      proxy to skip the ledger.  A negative count is billed as that many uncached tokens, and refunded as
      cached ones. */
  lemma NoTokensNoCost(mp: ModelPrice, cached: int)
    ensures Cost(Some(mp), 0, 0, cached) == 0.0 <==> cached >= 0 || mp.cached == 0.0 || mp.cached == mp.input
  {
    if cached < 0 {
      var rate := if mp.cached == 0.0 then mp.input else mp.cached;
      assert Cost(Some(mp), 0, 0, cached) == (-cached) as real * (mp.input - rate) / 1000000.0;
      ProductIsZero((-cached) as real, mp.input - rate);
    }
  }

  lemma ProductIsZero(x: real, y: real)
    requires x != 0.0
    ensures x * y == 0.0 <==> y == 0.0
  {
    if x * y == 0.0 {
      assert y == x * y / x;
    }
  }
}
