/** Header building in the miner against header validation (section 4.3.4 of the Ethereum Yellow Paper). */
module GasLimit {

  /** The protocol parameters; their values are not part of this model. */
  datatype Params = Params(divisor: nat, minGasLimit: nat)

  datatype Header = Header(number: nat, time: int, difficulty: int, gasLimit: nat, gasUsed: nat)

  ghost predicate Sane(params: Params) {
    params.divisor > 0
  }

  function Max(a: int, b: int): int {
    if a >= b then a else b
  }

  function Min(a: int, b: int): int {
    if a <= b then a else b
  }

  function Abs(a: int): int {
    if a >= 0 then a else -a
  }

  /** How far the parent's usage pushes the limit up. */
  function Contribution(params: Params, parent: Header): nat
    requires Sane(params)
  {
    parent.gasUsed * 3 / 2 / params.divisor
  }

  /** The limit before the target is looked at. */
  function Strategy(params: Params, parent: Header): int
    requires Sane(params)
  {
    Max(parent.gasLimit - (parent.gasLimit / params.divisor - 1) + Contribution(params, parent), params.minGasLimit)
  }

  /** `CalcGasLimit`, as a function. */
  function NextGasLimit(params: Params, target: nat, parent: Header): int
    requires Sane(params)
  {
    if Strategy(params, parent) < target
    then Min(parent.gasLimit + (parent.gasLimit / params.divisor - 1), target)
    else Strategy(params, parent)
  }

  /** `CalcGasLimit`, which updates its big integers in place. */
  method CalcGasLimit(params: Params, target: nat, parent: Header) returns (gl: int)
    requires Sane(params)
    ensures gl == NextGasLimit(params, target, parent)
  {
    var contrib := parent.gasUsed * 3;
    contrib := contrib / 2;
    contrib := contrib / params.divisor;
    var decay := parent.gasLimit / params.divisor;
    decay := decay - 1;
    gl := parent.gasLimit - decay;
    gl := gl + contrib;
    gl := Max(gl, params.minGasLimit);
    if gl < target {
      gl := parent.gasLimit + decay;
      gl := Min(gl, target);
    }
  }

  datatype Verdict = Valid | Future | EqualTime | WrongDifficulty | WrongGasLimit | WrongNumber

  /** The validator's bound: strictly less than a 1/divisor step, and at least the minimum. */
  predicate GasLimitOk(params: Params, parent: Header, gasLimit: int)
    requires Sane(params)
  {
    Abs(parent.gasLimit - gasLimit) < parent.gasLimit / params.divisor && gasLimit >= params.minGasLimit
  }

  /** The time, difficulty, gas limit and number checks of `ValidateHeader` for a block (not an uncle). */
  function ValidateHeader(params: Params, now: int, header: Header, parent: Header): Verdict
    requires Sane(params)
  {
    if header.time > now then Future
    else if header.time <= parent.time then EqualTime
    else if header.difficulty != 1 then WrongDifficulty
    else if !GasLimitOk(params, parent, header.gasLimit) then WrongGasLimit
    else if header.number - parent.number != 1 then WrongNumber
    else Valid
  }

  /** The time stamp of the new header. */
  function Stamp(clock: int, parent: Header): int {
    if parent.time >= clock then parent.time + 1 else clock
  }

  /** The header that `commitNewWork` builds on `parent`, before any transaction uses gas. */
  function NewHeader(params: Params, target: nat, clock: int, parent: Header): (h: Header)
    requires Sane(params) && NextGasLimit(params, target, parent) >= 0
  {
    Header(parent.number + 1, Stamp(clock, parent), 1, NextGasLimit(params, target, parent), 0)
  }

  // ----- miner against validator -----

  /** 3U/2 loses no more than the divisor allows when U stays below the limit. */
  lemma ContributionBound(params: Params, parent: Header)
    requires Sane(params) && parent.gasUsed <= parent.gasLimit
    ensures 2 * params.divisor * Contribution(params, parent) <= 3 * parent.gasLimit
  {
    var half := parent.gasUsed * 3 / 2;
    assert params.divisor * (half / params.divisor) <= half;
    assert 2 * half <= 3 * parent.gasUsed;
  }

  /**
   * The exact condition: above the minimum and with a positive step, the mined limit is valid exactly when the
   * contribution stays two below twice the step, or the target takes over.
   */
  lemma GasLimitExact(params: Params, target: nat, parent: Header)
    requires Sane(params) && parent.gasLimit >= params.minGasLimit && parent.gasLimit / params.divisor >= 1
    ensures GasLimitOk(params, parent, NextGasLimit(params, target, parent))
            <==> (Contribution(params, parent) <= 2 * (parent.gasLimit / params.divisor) - 2
                  || Strategy(params, parent) < target)
  {
    StepBelowLimit(parent.gasLimit, params.divisor);
  }

  lemma StepBelowLimit(limit: nat, divisor: nat)
    requires divisor > 0
    ensures limit / divisor <= limit
  {
    if limit / divisor > limit {
      assert divisor * (limit / divisor) <= limit;
      MultiplyKeeps(divisor, limit / divisor);
      assert false;
    }
  }

  lemma MultiplyKeeps(d: nat, q: nat)
    requires d > 0
    ensures d * q >= q
  {
    assert d * q == (d - 1) * q + q;
  }

  /** Without a positive step nothing the miner chooses is valid. */
  lemma NoStepNeverValid(params: Params, target: nat, parent: Header)
    requires Sane(params) && parent.gasLimit / params.divisor == 0
    ensures !GasLimitOk(params, parent, NextGasLimit(params, target, parent))
  {
  }

  /** Five steps are enough for every usage up to the limit and every target. */
  lemma FiveStepsSuffice(params: Params, target: nat, parent: Header)
    requires Sane(params) && parent.gasLimit >= params.minGasLimit
    requires parent.gasUsed <= parent.gasLimit && parent.gasLimit >= 5 * params.divisor
    ensures GasLimitOk(params, parent, NextGasLimit(params, target, parent))
  {
    var q := parent.gasLimit / params.divisor;
    var c := Contribution(params, parent);
    ContributionBound(params, parent);
    FiveSteps(parent.gasLimit, params.divisor, q, c);
    GasLimitExact(params, target, parent);
  }

  lemma FiveSteps(limit: nat, d: nat, q: nat, c: nat)
    requires d > 0 && q == limit / d && limit >= 5 * d && 2 * d * c <= 3 * limit
    ensures q >= 5 && c <= 2 * q - 2
  {
    AtLeastSteps(limit, d, q);
    assert limit < d * q + d;
    assert 2 * d * c < 3 * (d * q + d);
    assert 3 * (d * q + d) == d * (3 * q + 3);
    Divide(d, 2 * c, 3 * q + 3);
  }

  lemma AtLeastSteps(limit: nat, d: nat, q: nat)
    requires d > 0 && q == limit / d && limit >= 5 * d
    ensures q >= 5
  {
    assert limit == d * q + limit % d;
    Monotone(d, q, 4);
  }

  lemma Divide(d: nat, a: int, b: int)
    requires d > 0 && d * a < d * b
    ensures a < b
  {
    Monotone(d, b, a);
  }

  lemma Monotone(d: nat, a: int, b: int)
    ensures a <= b ==> d * a <= d * b
  {
    if a <= b { assert d * b == d * a + d * (b - a); }
  }

  /** One gas below five steps there is a full block that the validator rejects (divisor 1024, minimum 5000). */
  lemma FiveStepsNeeded(target: nat)
    requires target <= 5119
    ensures var params := Params(1024, 5000);
            var parent := Header(1, 0, 1, 5119, 5119);
            !GasLimitOk(params, parent, NextGasLimit(params, target, parent))
  {
    var params := Params(1024, 5000);
    var parent := Header(1, 0, 1, 5119, 5119);
    assert Contribution(params, parent) == 7;
    GasLimitExact(params, target, parent);
  }

  /**
   * Below the target the miner takes as much as it can: of the limits that the validator accepts, and that do not
   * exceed the target, the mined one is the largest.
   */
  lemma LargestBelowTarget(params: Params, target: nat, parent: Header, limit: int)
    requires Sane(params) && Strategy(params, parent) < target
    requires parent.gasLimit >= params.minGasLimit && parent.gasLimit / params.divisor >= 1
    ensures var mined := NextGasLimit(params, target, parent);
            && GasLimitOk(params, parent, mined) && mined <= target
            && (GasLimitOk(params, parent, limit) && limit <= target ==> limit <= mined)
  {
    GasLimitExact(params, target, parent);
  }

  /**
   * Above the target the parent's usage decides: the limit grows exactly when three times the usage reaches twice the
   * limit as far as that is a multiple of the divisor, and shrinks exactly when it misses it by more than two divisors.
   * So a block used at two thirds, or a little less, still gets a larger child.
   */
  lemma UsageExactly(params: Params, target: nat, parent: Header)
    requires Sane(params) && Strategy(params, parent) >= target
    requires Strategy(params, parent) > params.minGasLimit
    ensures var (d, q) := (params.divisor, parent.gasLimit / params.divisor);
            && (NextGasLimit(params, target, parent) > parent.gasLimit <==> 3 * parent.gasUsed >= 2 * (d * q))
            && (NextGasLimit(params, target, parent) < parent.gasLimit
                <==> 3 * parent.gasUsed < 2 * (d * (q - 1)))
  {
    var d, q := params.divisor, parent.gasLimit / params.divisor;
    var half := parent.gasUsed * 3 / 2;
    AtLeastExactly(half, d, q);
    AtLeastExactly(half, d, q - 1);
  }

  lemma AtLeastExactly(n: nat, d: nat, q: int)
    requires d > 0
    ensures n / d >= q <==> n >= d * q
  {
    var r := n / d;
    assert n == d * r + n % d;
    Monotone(d, q, r);
    Monotone(d, r + 1, q);
    assert d * (r + 1) == d * r + d;
  }

  /** At two thirds the comment in the source promises an unchanged limit; it grows by one. */
  lemma GrowsAtTwoThirds()
    ensures var (params, parent) := (Params(1024, 5000), Header(1, 0, 1, 6144, 4096));
            3 * parent.gasUsed == 2 * parent.gasLimit && NextGasLimit(params, 0, parent) == parent.gasLimit + 1
  {
    var params, parent := Params(1024, 5000), Header(1, 0, 1, 6144, 4096);
    assert Contribution(params, parent) == 6;
  }

  /** The time stamp is the earliest that is later than the parent's and not before the clock. */
  lemma StampEarliest(clock: int, parent: Header, time: int)
    ensures Stamp(clock, parent) > parent.time && Stamp(clock, parent) >= clock
    ensures time > parent.time && time >= clock ==> Stamp(clock, parent) <= time
  {
  }

  /** A header is valid exactly if its time, difficulty and number are right and its gas limit is within a step. */
  lemma ValidExactly(params: Params, now: int, header: Header, parent: Header)
    requires Sane(params)
    ensures ValidateHeader(params, now, header, parent) == Valid
            <==> && parent.time < header.time <= now && header.difficulty == 1
                 && header.number == parent.number + 1 && header.gasLimit >= params.minGasLimit
                 && parent.gasLimit - parent.gasLimit / params.divisor < header.gasLimit
                 && header.gasLimit < parent.gasLimit + parent.gasLimit / params.divisor
  {
  }

  /** A header the miner builds is valid exactly from its time stamp on, given that its gas limit is. */
  lemma MinedHeader(params: Params, target: nat, clock: int, now: int, parent: Header)
    requires Sane(params) && GasLimitOk(params, parent, NextGasLimit(params, target, parent))
    ensures NextGasLimit(params, target, parent) >= 0
    ensures ValidateHeader(params, now, NewHeader(params, target, clock, parent), parent) == Valid
            <==> now >= Stamp(clock, parent)
  {
  }

  // ----- chains -----

  /** Block i + 1 was built on block i, with a target of at least five steps; transactions then used some gas. */
  ghost predicate MinedChain(params: Params, targets: seq<nat>, clocks: seq<int>, chain: seq<Header>)
    requires Sane(params)
  {
    && |chain| > 0 && |targets| == |chain| && |clocks| == |chain|
    && (forall i :: 0 <= i < |chain| ==> chain[i].gasUsed <= chain[i].gasLimit)
    && (forall i :: 0 <= i < |chain| ==> targets[i] >= 5 * params.divisor)
    && (forall i :: 0 < i < |chain| ==> Follows(params, targets[i], clocks[i], chain[i - 1], chain[i]))
  }

  ghost predicate Follows(params: Params, target: nat, clock: int, parent: Header, child: Header)
    requires Sane(params)
  {
    && NextGasLimit(params, target, parent) >= 0
    && child.(gasUsed := 0) == NewHeader(params, target, clock, parent)
  }

  /** The two bounds carry over from parent to child. */
  lemma BoundsKept(params: Params, target: nat, parent: Header)
    requires Sane(params) && target >= 5 * params.divisor
    requires parent.gasUsed <= parent.gasLimit
    requires parent.gasLimit >= params.minGasLimit && parent.gasLimit >= 5 * params.divisor
    ensures NextGasLimit(params, target, parent) >= params.minGasLimit
    ensures NextGasLimit(params, target, parent) >= 5 * params.divisor
  {
    AtLeastSteps(parent.gasLimit, params.divisor, parent.gasLimit / params.divisor);
  }

  /** Every block of a mined chain of any length is valid on its parent, at any later time. */
  lemma ChainValid(params: Params, targets: seq<nat>, clocks: seq<int>, chain: seq<Header>, now: int, i: nat)
    requires Sane(params) && MinedChain(params, targets, clocks, chain)
    requires chain[0].gasLimit >= params.minGasLimit && chain[0].gasLimit >= 5 * params.divisor
    requires i < |chain| && forall j :: 0 <= j < |chain| ==> chain[j].time <= now
    ensures chain[i].gasLimit >= params.minGasLimit && chain[i].gasLimit >= 5 * params.divisor
    ensures i > 0 ==> ValidateHeader(params, now, chain[i], chain[i - 1]) == Valid
  {
    ChainBounds(params, targets, clocks, chain, i);
    if i > 0 {
      ChainBounds(params, targets, clocks, chain, i - 1);
      assert Follows(params, targets[i], clocks[i], chain[i - 1], chain[i]);
      FiveStepsSuffice(params, targets[i], chain[i - 1]);
      assert chain[i].gasLimit == chain[i].(gasUsed := 0).gasLimit;
    }
  }

  /** Below the target the limit grows by as much as the step allows; from the target on it never falls below it. */
  lemma GrowthStep(params: Params, target: nat, parent: Header)
    requires Sane(params) && parent.gasLimit / params.divisor >= 1
    ensures var mined := NextGasLimit(params, target, parent);
            mined < target ==> mined == parent.gasLimit + (parent.gasLimit / params.divisor - 1) < target
  {
  }

  /** Under one fixed target a mined chain keeps growing until it reaches the target, and never falls below it again. */
  lemma {:induction false} ReachesTarget(params: Params, target: nat, targets: seq<nat>, clocks: seq<int>,
                                         chain: seq<Header>, i: nat, j: nat)
    requires Sane(params) && MinedChain(params, targets, clocks, chain)
    requires forall k :: 0 <= k < |targets| ==> targets[k] == target
    requires chain[0].gasLimit >= params.minGasLimit && chain[0].gasLimit >= 5 * params.divisor
    requires i <= j < |chain|
    ensures chain[j].gasLimit >= Min(target, chain[i].gasLimit + 4 * (j - i))
    decreases j - i
  {
    if i < j {
      ReachesTarget(params, target, targets, clocks, chain, i, j - 1);
      ChainGrows(params, target, targets, clocks, chain, j);
    }
  }

  lemma ChainGrows(params: Params, target: nat, targets: seq<nat>, clocks: seq<int>, chain: seq<Header>, j: nat)
    requires Sane(params) && MinedChain(params, targets, clocks, chain)
    requires chain[0].gasLimit >= params.minGasLimit && chain[0].gasLimit >= 5 * params.divisor
    requires 0 < j < |chain| && targets[j] == target
    ensures chain[j].gasLimit >= Min(target, chain[j - 1].gasLimit + 4)
  {
    ChainBounds(params, targets, clocks, chain, j - 1);
    assert Follows(params, targets[j], clocks[j], chain[j - 1], chain[j]);
    assert chain[j].gasLimit == chain[j].(gasUsed := 0).gasLimit;
    AtLeastSteps(chain[j - 1].gasLimit, params.divisor, chain[j - 1].gasLimit / params.divisor);
    GrowthStep(params, target, chain[j - 1]);
  }

  lemma {:induction false} ChainBounds(params: Params, targets: seq<nat>, clocks: seq<int>, chain: seq<Header>, i: nat)
    requires Sane(params) && MinedChain(params, targets, clocks, chain)
    requires chain[0].gasLimit >= params.minGasLimit && chain[0].gasLimit >= 5 * params.divisor
    requires i < |chain|
    ensures chain[i].gasLimit >= params.minGasLimit && chain[i].gasLimit >= 5 * params.divisor
  {
    if i > 0 {
      ChainBounds(params, targets, clocks, chain, i - 1);
      assert Follows(params, targets[i], clocks[i], chain[i - 1], chain[i]);
      BoundsKept(params, targets[i], chain[i - 1]);
      assert chain[i].gasLimit == chain[i].(gasUsed := 0).gasLimit;
    }
  }
}
