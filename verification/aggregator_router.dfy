/**
 * The smart router over yield aggregators: best by APY (live sources first),
 * best net APY for a deposit amount, the step-by-step route, the APY-sorted
 * list and the recommendations with their warnings. APYs, fees and amounts
 * are exact reals; the router keeps its list and never changes it.
 */
module AggregatorRouter {

  import opened Base
  import opened JsText

  /**
   * An aggregator. `apy` is the number its APY text reads as; `minDeposit` and
   * `fees` are missing when the record leaves them out, and `isLive` is false
   * when it is missing.
   */
  datatype Aggregator = Aggregator(
    name: string,
    description: string,
    apy: real,
    icon: string,
    protocol: string,
    address: Option<string>,
    minDeposit: Option<real>,
    fees: Option<real>,
    isLive: bool)

  // ---------------------------------------------------------------------
  // Best by APY

  /** A failed fetch shows up as an APY of 0 or less; such entries are never chosen. */
  predicate HasYield(a: Aggregator) {
    a.apy > 0.0
  }

  /** The entries the APY ranking looks at: the live ones with yield if there are any, else all with yield. */
  function ApyPool(aggs: seq<Aggregator>): (pool: seq<Aggregator>)
    ensures forall i :: 0 <= i < |pool| ==> pool[i] in aggs && HasYield(pool[i])
    ensures (exists a :: a in aggs && HasYield(a) && a.isLive) ==>
              && (forall i :: 0 <= i < |pool| ==> pool[i].isLive)
              && (forall a :: a in aggs && HasYield(a) && a.isLive ==> a in pool)
    ensures (forall a :: a in aggs && HasYield(a) ==> !a.isLive) ==>
              forall a :: a in aggs && HasYield(a) ==> a in pool
    ensures |pool| == 0 <==> forall a :: a in aggs ==> !HasYield(a)
  {
    var isLive := (a: Aggregator) => a.isLive;
    var valid := Filter(aggs, HasYield);
    var live := Filter(valid, isLive);
    FilterMembers(aggs, HasYield);
    FilterMembers(valid, isLive);
    assert forall a :: a in aggs && HasYield(a) ==> a in valid;
    assert forall a :: a in valid ==> a in aggs && HasYield(a);
    assert forall a :: a in live ==> a in valid && a.isLive;
    assert |live| > 0 ==> live[0] in live && HasYield(live[0]) && live[0] in aggs;
    assert forall a :: a in aggs && HasYield(a) && a.isLive ==> a in live;
    if |live| > 0 then live else valid
  }

  function ApyKey(a: Aggregator): real {
    a.apy
  }

  /**
   * `getBestByAPY`: the first entry of the pool with the highest APY, or None
   * when no entry has a positive APY.
   */
  function GetBestByApy(aggs: seq<Aggregator>): (r: Option<Aggregator>)
    ensures r.None? <==> forall a :: a in aggs ==> !HasYield(a)
    ensures r.Some? ==> r.value in aggs && HasYield(r.value)
    ensures r.Some? && (exists a :: a in aggs && HasYield(a) && a.isLive) ==> r.value.isLive
    ensures r.Some? ==>
              forall a :: a in aggs && HasYield(a) && (r.value.isLive ==> a.isLive) ==> a.apy <= r.value.apy
    ensures r.Some? ==> exists k :: IsFirstMaxAt(ApyPool(aggs), ApyKey, k) && ApyPool(aggs)[k] == r.value
  {
    var pool := ApyPool(aggs);
    if |pool| == 0 then None
    else
      var k := FirstMaxIndex(pool, ApyKey);
      assert forall a :: a in pool ==> ApyKey(a) <= ApyKey(pool[k]);
      Some(pool[k])
  }

  // ---------------------------------------------------------------------
  // Best for an amount

  /** A missing (or zero) minimum deposit admits every amount. */
  predicate Eligible(a: Aggregator, amount: real)
    ensures a.minDeposit.None? || a.minDeposit.value == 0.0 ==> Eligible(a, amount)
    ensures a.minDeposit.Some? && a.minDeposit.value != 0.0 ==> (Eligible(a, amount) <==> a.minDeposit.value <= amount)
  {
    a.minDeposit.None? || a.minDeposit.value == 0.0 || amount >= a.minDeposit.value
  }

  /** An entry open to an amount is open to every larger amount. */
  lemma EligibleUpward(a: Aggregator, amount: real, more: real)
    requires Eligible(a, amount) && amount <= more
    ensures Eligible(a, more)
  {
  }

  function Eligibles(aggs: seq<Aggregator>, amount: real): (e: seq<Aggregator>)
    ensures forall i :: 0 <= i < |e| ==> e[i] in aggs && Eligible(e[i], amount)
    ensures forall a :: a in aggs && Eligible(a, amount) ==> a in e
  {
    var admits := (a: Aggregator) => Eligible(a, amount);
    FilterMembers(aggs, admits);
    Filter(aggs, admits)
  }

  /** `calculateNetAPY`: the gross APY less the fee, a percentage of it; a missing fee is 0. */
  function NetApy(a: Aggregator): (net: real)
    ensures net == a.apy - a.apy * a.fees.GetOr(0.0) / 100.0
    ensures a.fees.None? ==> net == a.apy
  {
    a.apy * (1.0 - a.fees.GetOr(0.0) / 100.0)
  }

  /** A fee between 0 and 100 percent leaves a non-negative APY no larger than the gross; no fee leaves it whole. */
  lemma NetApyBounds(a: Aggregator)
    requires a.apy >= 0.0
    requires 0.0 <= a.fees.GetOr(0.0) <= 100.0
    ensures 0.0 <= NetApy(a) <= a.apy
    ensures a.apy > 0.0 ==> (a.fees.GetOr(0.0) == 0.0 <==> NetApy(a) == a.apy)
  {
    var f := a.fees.GetOr(0.0);
    assert NetApy(a) == a.apy - a.apy * f / 100.0;
    assert 0.0 <= a.apy * f / 100.0 <= a.apy;
    if a.apy > 0.0 && NetApy(a) == a.apy {
      assert a.apy * f == 0.0;
    }
  }

  /** A higher fee never gives a higher net APY for the same gross APY. */
  lemma NetApyFeeMonotone(a: Aggregator, b: Aggregator)
    requires a.apy == b.apy >= 0.0
    requires a.fees.GetOr(0.0) <= b.fees.GetOr(0.0)
    ensures NetApy(b) <= NetApy(a)
  {
    var fa, fb := a.fees.GetOr(0.0), b.fees.GetOr(0.0);
    assert a.apy * fa <= a.apy * fb;
    assert a.apy * fa / 100.0 <= a.apy * fb / 100.0;
  }

  /** Why the router chose an entry: it was first, or it beat the first on net APY. */
  datatype Reasoning = DefaultChoice | HighestNetAfterFees(net: real)

  datatype Choice = Choice(aggregator: Aggregator, netApy: real, reasoning: Reasoning)

  /**
   * The choice `getBestForAmount` makes, defined by what it is: the first
   * eligible entry with the highest net APY.
   */
  function BestForAmount(aggs: seq<Aggregator>, amount: real): (r: Option<Choice>)
    ensures r.None? <==> forall a :: a in aggs ==> !Eligible(a, amount)
    ensures r.Some? ==> && r.value.aggregator in aggs && Eligible(r.value.aggregator, amount)
                        && r.value.netApy == NetApy(r.value.aggregator)
    ensures r.Some? ==> forall a :: a in aggs && Eligible(a, amount) ==> NetApy(a) <= r.value.netApy
    ensures r.Some? ==> exists k :: IsFirstMaxAt(Eligibles(aggs, amount), NetApy, k)
                                    && Eligibles(aggs, amount)[k] == r.value.aggregator
    ensures r.Some? ==>
              (r.value.reasoning == DefaultChoice <==>
                 forall a :: a in aggs && Eligible(a, amount) ==> NetApy(a) <= NetApy(Eligibles(aggs, amount)[0]))
    ensures r.Some? && r.value.reasoning.HighestNetAfterFees? ==> r.value.reasoning.net == r.value.netApy
  {
    var e := Eligibles(aggs, amount);
    if |e| == 0 then None
    else
      var k := FirstMaxIndex(e, NetApy);
      assert forall a :: a in e ==> NetApy(a) <= NetApy(e[k]);
      assert k > 0 ==> NetApy(e[0]) < NetApy(e[k]);
      Some(Choice(e[k], NetApy(e[k]), if k == 0 then DefaultChoice else HighestNetAfterFees(NetApy(e[k]))))
  }

  /** `BestForAmount` is the choice at the first index of maximal net APY. */
  lemma BestForAmountPicks(aggs: seq<Aggregator>, amount: real)
    requires |Eligibles(aggs, amount)| > 0
    ensures var e := Eligibles(aggs, amount);
            var k := FirstMaxIndex(e, NetApy);
            BestForAmount(aggs, amount) ==
              Some(Choice(e[k], NetApy(e[k]), if k == 0 then DefaultChoice else HighestNetAfterFees(NetApy(e[k]))))
  {
  }

  /**
   * `getBestForAmount` as written: start from the first eligible entry and move
   * to a later one only when its net APY is strictly higher.
   */
  method GetBestForAmount(aggs: seq<Aggregator>, amount: real) returns (r: Option<Choice>)
    ensures r == BestForAmount(aggs, amount)
  {
    var eligible := Eligibles(aggs, amount);
    if |eligible| == 0 {
      return None;
    }
    var best := 0;
    var bestNet := NetApy(eligible[0]);
    var reasoning := DefaultChoice;
    for i := 1 to |eligible|
      invariant 0 <= best < i
      invariant bestNet == NetApy(eligible[best])
      invariant forall j :: 0 <= j < i ==> NetApy(eligible[j]) <= bestNet
      invariant forall j :: 0 <= j < best ==> NetApy(eligible[j]) < bestNet
      invariant reasoning == if best == 0 then DefaultChoice else HighestNetAfterFees(bestNet)
    {
      var net := NetApy(eligible[i]);
      if net > bestNet {
        best := i;
        bestNet := net;
        reasoning := HighestNetAfterFees(net);
      }
    }
    FirstMaxUnique(eligible, NetApy, best, FirstMaxIndex(eligible, NetApy));
    BestForAmountPicks(aggs, amount);
    r := Some(Choice(eligible[best], bestNet, reasoning));
  }

  // ---------------------------------------------------------------------
  // Route and routing instructions

  /** The protocols with a three-step strategy description. */
  predicate LendingOrFarming(protocol: string) {
    protocol == "tulip" || protocol == "francium" || protocol == "kamino" || protocol == "solend"
  }

  /** Step text `n. text`: the number, a period, a space and the words. */
  function StepText(n: nat, text: string): string {
    NatToString(n) + ". " + text
  }

  /** `texts` as consecutive steps numbered from `first`. */
  function Numbered(first: nat, texts: seq<string>): (steps: seq<string>)
    ensures |steps| == |texts|
    ensures forall j :: 0 <= j < |steps| ==> steps[j] == StepText(first + j, texts[j])
  {
    seq(|texts|, j requires 0 <= j < |texts| => StepText(first + j, texts[j]))
  }

  /**
   * The words of the protocol-specific middle steps of a route. The source
   * tests the four lending and farming protocols before "marinade"; the keys
   * are distinct, so testing "marinade" first picks the same branch.
   */
  function MiddleTexts(protocol: string, name: string): (texts: seq<string>)
    ensures |texts| == if protocol == "marinade" then 4 else if LendingOrFarming(protocol) then 3 else 2
  {
    if protocol == "marinade" then
      [ "Convert USDC to SOL via Jupiter",
        name + " stakes SOL for mSOL",
        "Earn staking rewards from Solana network",
        "Auto-compound via liquid staking" ]
    else if LendingOrFarming(protocol) then
      LendingTexts(protocol, name)
    else
      [ name + " deploys capital to yield strategies",
        "Receive yUSDC tokens with yield exposure" ]
  }

  /** The three middle steps of the lending and farming protocols. */
  function LendingTexts(protocol: string, name: string): (texts: seq<string>)
    requires LendingOrFarming(protocol)
    ensures |texts| == 3
  {
    if protocol == "tulip" then
      [ name + " deploys USDC to yield vaults",
        "Earn rewards from automated strategies",
        "Receive yUSDC tokens representing your share" ]
    else if protocol == "francium" then
      [ name + " provides USDC to LP farming",
        "Earn fees and rewards from liquidity provision",
        "Auto-compound returns back to USDC" ]
    else if protocol == "kamino" then
      [ name + " creates concentrated liquidity positions",
        "Automatically manages and rebalances positions",
        "Maximize fee collection from active trading" ]
    else
      [ name + " lends USDC to borrowers",
        "Earn interest from lending activities",
        "Receive cUSDC tokens with accumulated interest" ]
  }

  /** The protocol-specific middle steps, which the route numbers 3, 4, ... */
  function MiddleSteps(protocol: string, name: string): seq<string> {
    Numbered(3, MiddleTexts(protocol, name))
  }

  const ClosingStep := "Monitor performance and withdraw anytime"

  /** The words of the first step: approving the amount. */
  function ApproveText(amount: real, show: real -> string): string {
    "Approve " + show(amount) + " USDC for AutoYield contract"
  }

  /** The words of the second step: the contract handing the deposit to the aggregator. */
  function HandOverText(name: string): string {
    "AutoYield contract deposits USDC to " + name
  }

  /**
   * `generateRoute`. `show` is JavaScript's number-to-text rule, used for the
   * amount in the first step.
   */
  function GenerateRoute(a: Aggregator, amount: real, show: real -> string): (steps: seq<string>)
    ensures 5 <= |steps| <= 7
    ensures steps[0] == StepText(1, ApproveText(amount, show))
    ensures steps[1] == StepText(2, HandOverText(a.name))
    ensures steps[|steps| - 1] == StepText(|steps|, ClosingStep)
    ensures LendingOrFarming(a.protocol) ==> |steps| == 6
    ensures a.protocol == "marinade" ==> |steps| == 7
    ensures !LendingOrFarming(a.protocol) && a.protocol != "marinade" ==> |steps| == 5
  {
    var body := RouteBody(a, amount, show);
    body + [StepText(|body| + 1, ClosingStep)]
  }

  /** A route without its closing step: the two opening steps and the middle steps. */
  function RouteBody(a: Aggregator, amount: real, show: real -> string): (body: seq<string>)
    ensures |body| == 2 + |MiddleTexts(a.protocol, a.name)|
    ensures body[0] == StepText(1, ApproveText(amount, show))
    ensures body[1] == StepText(2, HandOverText(a.name))
    ensures forall j :: 2 <= j < |body| ==> body[j] == MiddleSteps(a.protocol, a.name)[j - 2]
  {
    [StepText(1, ApproveText(amount, show)), StepText(2, HandOverText(a.name))] + MiddleSteps(a.protocol, a.name)
  }

  /** The step starts with the number `n`, a period and a space. */
  predicate NumberedAs(step: string, n: nat) {
    StartsWith(step, NatToString(n) + ". ")
  }

  lemma StepTextNumbered(n: nat, text: string)
    ensures NumberedAs(StepText(n, text), n)
  {
    var prefix := NatToString(n) + ". ";
    assert StepText(n, text)[..|prefix|] == prefix;
  }

  lemma {:induction false} MiddleStepsNumbered(protocol: string, name: string, j: nat)
    requires j < |MiddleSteps(protocol, name)|
    ensures NumberedAs(MiddleSteps(protocol, name)[j], j + 3)
  {
    StepTextNumbered(j + 3, MiddleTexts(protocol, name)[j]);
  }

  /** Every step of a route starts with its own position, counted from 1, a period and a space. */
  lemma {:induction false} RouteIsNumbered(a: Aggregator, amount: real, show: real -> string, i: nat)
    requires i < |GenerateRoute(a, amount, show)|
    ensures NumberedAs(GenerateRoute(a, amount, show)[i], i + 1)
  {
    var body := RouteBody(a, amount, show);
    if i < |body| {
      assert GenerateRoute(a, amount, show)[i] == body[i];
      BodyIsNumbered(a, amount, show, i);
    } else {
      StepTextNumbered(i + 1, ClosingStep);
    }
  }

  lemma {:induction false} BodyIsNumbered(a: Aggregator, amount: real, show: real -> string, i: nat)
    requires i < |RouteBody(a, amount, show)|
    ensures NumberedAs(RouteBody(a, amount, show)[i], i + 1)
  {
    if i == 0 {
      StepTextNumbered(1, ApproveText(amount, show));
    } else if i == 1 {
      StepTextNumbered(2, HandOverText(a.name));
    } else {
      MiddleStepsNumbered(a.protocol, a.name, i - 2);
    }
  }

  /** The gas estimate in SOL: a base cost plus a cost per route step. */
  function GasEstimate(route: seq<string>): (gas: real)
    ensures (gas - 0.001) * 2000.0 == |route| as real
  {
    0.001 + |route| as real * 0.0005
  }

  datatype Instructions = Instructions(
    selectedAggregator: string,
    expectedApy: real,
    route: seq<string>,
    gasEstimate: real,
    reasoning: Reasoning)

  /** `getRoutingInstructions`: the best choice for the amount, its route and what it costs. */
  function RoutingInstructions(aggs: seq<Aggregator>, amount: real, show: real -> string): (r: Option<Instructions>)
    ensures r.None? <==> forall a :: a in aggs ==> !Eligible(a, amount)
    ensures r.Some? ==> exists a :: a in aggs && Eligible(a, amount) && a.name == r.value.selectedAggregator
    ensures r.Some? ==> forall a :: a in aggs && Eligible(a, amount) ==> NetApy(a) <= r.value.expectedApy
    ensures r.Some? ==> r.value.gasEstimate in {0.0035, 0.004, 0.0045}
    ensures r.Some? ==> r.value.gasEstimate == 0.001 + |r.value.route| as real * 0.0005
    ensures r.Some? ==> var c := BestForAmount(aggs, amount).value;
              && r.value.selectedAggregator == c.aggregator.name
              && r.value.expectedApy == c.netApy == NetApy(c.aggregator)
              && r.value.route == GenerateRoute(c.aggregator, amount, show)
              && r.value.reasoning == c.reasoning
  {
    match BestForAmount(aggs, amount)
    case None => None
    case Some(c) =>
      var route := GenerateRoute(c.aggregator, amount, show);
      Some(Instructions(c.aggregator.name, c.netApy, route, GasEstimate(route), c.reasoning))
  }

  // ---------------------------------------------------------------------
  // Sorting and recommendations

  predicate SortedByApyDesc(xs: seq<Aggregator>) {
    forall i, j :: 0 <= i < j < |xs| ==> xs[i].apy >= xs[j].apy
  }

  /** Places `x` before the first entry whose APY is not above its own. */
  function Insert(x: Aggregator, ys: seq<Aggregator>): (r: seq<Aggregator>)
    ensures |r| == |ys| + 1
    ensures multiset(r) == multiset(ys) + multiset{x}
  {
    if |ys| == 0 || x.apy >= ys[0].apy then [x] + ys
    else
      assert ys == [ys[0]] + ys[1..];
      [ys[0]] + Insert(x, ys[1..])
  }

  lemma {:induction false} InsertKeepsSorted(x: Aggregator, ys: seq<Aggregator>)
    requires SortedByApyDesc(ys)
    ensures SortedByApyDesc(Insert(x, ys))
  {
    if |ys| > 0 && x.apy < ys[0].apy {
      var tail := ys[1..];
      assert SortedByApyDesc(tail) by {
        forall i, j | 0 <= i < j < |tail| ensures tail[i].apy >= tail[j].apy {
          assert tail[i] == ys[i + 1] && tail[j] == ys[j + 1];
        }
      }
      InsertKeepsSorted(x, tail);
      InsertMembers(x, tail);
      var rest := Insert(x, tail);
      forall j | 0 <= j < |rest|
        ensures ys[0].apy >= rest[j].apy
      {
        assert rest[j] in Insert(x, tail);
        if rest[j] != x {
          assert rest[j] in tail;
          var k :| 0 <= k < |tail| && tail[k] == rest[j];
          assert tail[k] == ys[k + 1];
        }
      }
      var r := [ys[0]] + rest;
      forall i, j | 0 <= i < j < |r| ensures r[i].apy >= r[j].apy {
        if i > 0 {
          assert r[i] == rest[i - 1] && r[j] == rest[j - 1];
        } else {
          assert r[j] == rest[j - 1];
        }
      }
    }
  }

  /** Inserting adds `x` and nothing else. */
  lemma {:induction false} InsertMembers(x: Aggregator, ys: seq<Aggregator>)
    ensures forall z :: z in Insert(x, ys) ==> z == x || z in ys
  {
    if |ys| > 0 && x.apy < ys[0].apy {
      InsertMembers(x, ys[1..]);
    }
  }

  /**
   * `getAllSortedByAPY`: a sorted copy, highest APY first; the comparator's
   * stable sort keeps equal APYs in list order, as this insertion does.
   */
  function SortByApyDesc(xs: seq<Aggregator>): (r: seq<Aggregator>)
    ensures multiset(r) == multiset(xs)
    ensures |r| == |xs|
  {
    if |xs| == 0 then [] else
      assert xs == [xs[0]] + xs[1..];
      Insert(xs[0], SortByApyDesc(xs[1..]))
  }

  lemma SortKeepsMembers(xs: seq<Aggregator>)
    ensures forall a :: a in SortByApyDesc(xs) ==> a in xs
  {
    forall a | a in SortByApyDesc(xs) ensures a in xs {
      assert a in multiset(SortByApyDesc(xs));
    }
  }

  /** The sorted copy is in non-increasing APY order. */
  lemma {:induction false} SortIsSorted(xs: seq<Aggregator>)
    ensures SortedByApyDesc(SortByApyDesc(xs))
  {
    if |xs| > 0 {
      SortIsSorted(xs[1..]);
      InsertKeepsSorted(xs[0], SortByApyDesc(xs[1..]));
    }
  }

  const SmallDepositWarning := "Small deposits may have proportionally higher gas costs"
  const LargeDepositWarning := "Large deposits should consider risk diversification"
  const ExperimentalWarning := "This aggregator uses experimental strategies - higher risk"

  datatype Recommendation = Recommendation(best: Aggregator, alternatives: seq<Aggregator>, warnings: seq<string>)

  /** The warnings for a deposit: small amounts, large amounts, experimental strategies. */
  function Warnings(amount: real, best: Aggregator): (w: seq<string>)
    ensures SmallDepositWarning in w <==> amount < 100.0
    ensures LargeDepositWarning in w <==> amount > 10000.0
    ensures ExperimentalWarning in w <==> best.protocol == "experimental"
    ensures forall x :: x in w ==> x == SmallDepositWarning || x == LargeDepositWarning || x == ExperimentalWarning
    ensures |w| == (if amount < 100.0 then 1 else 0) + (if amount > 10000.0 then 1 else 0)
                   + (if best.protocol == "experimental" then 1 else 0)
    ensures ExperimentalWarning in w ==> w[|w| - 1] == ExperimentalWarning
  {
    (if amount < 100.0 then [SmallDepositWarning] else [])
    + (if amount > 10000.0 then [LargeDepositWarning] else [])
    + (if best.protocol == "experimental" then [ExperimentalWarning] else [])
  }

  /** Whether an entry is named differently from `best`. */
  function NameDiffers(best: Aggregator): Aggregator -> bool {
    (a: Aggregator) => a.name != best.name
  }

  /** The entries named differently from `best`, in list order. */
  function Others(aggs: seq<Aggregator>, best: Aggregator): seq<Aggregator> {
    Filter(aggs, NameDiffers(best))
  }

  /**
   * The first two entries of the APY-sorted list whose name differs from
   * `best`'s: as many as there are such entries, up to two, and no such entry
   * left out has a higher APY than one taken.
   */
  function Alternatives(aggs: seq<Aggregator>, best: Aggregator): (alts: seq<Aggregator>)
    ensures |alts| == if |Others(aggs, best)| < 2 then |Others(aggs, best)| else 2
    ensures forall i :: 0 <= i < |alts| ==> alts[i] in aggs && alts[i].name != best.name
    ensures forall a :: a in aggs && a.name != best.name && a !in alts ==>
              forall x :: x in alts ==> a.apy <= x.apy
    ensures multiset(alts) <= multiset(Others(aggs, best))
  {
    var sorted := SortByApyDesc(aggs);
    var others := Filter(sorted, NameDiffers(best));
    var alts := Take(others, 2);
    SortKeepsMembers(aggs);
    FilterMembers(sorted, NameDiffers(best));
    SortKeepsOthers(aggs, best);
    SortIsSorted(aggs);
    FilterKeepsOrder(sorted, NameDiffers(best));
    TakeIsTop(others, 2);
    assert forall i :: 0 <= i < |alts| ==> alts[i] == others[i];
    TakeWithin(others, 2);
    alts
  }

  /** Sorting changes neither which entries are named differently from `best` nor how often each occurs. */
  lemma SortKeepsOthers(aggs: seq<Aggregator>, best: Aggregator)
    ensures multiset(Filter(SortByApyDesc(aggs), NameDiffers(best))) == multiset(Others(aggs, best))
    ensures |Filter(SortByApyDesc(aggs), NameDiffers(best))| == |Others(aggs, best)|
    ensures forall a :: a in aggs && a.name != best.name ==> a in Filter(SortByApyDesc(aggs), NameDiffers(best))
  {
    var sorted := SortByApyDesc(aggs);
    var q := NameDiffers(best);
    FilterMultiset(sorted, q);
    FilterMultiset(aggs, q);
    FilterMembers(sorted, q);
    assert multiset(Filter(sorted, q)) == multiset(Filter(aggs, q));
    assert |multiset(Filter(sorted, q))| == |Filter(sorted, q)|;
    assert |multiset(Filter(aggs, q))| == |Filter(aggs, q)|;
    forall a | a in aggs && a.name != best.name ensures a in Filter(sorted, q) {
      assert a in multiset(aggs);
    }
  }

  /** In an APY-sorted list, an entry left out of the first `n` has no higher APY than any taken. */
  lemma TakeIsTop(xs: seq<Aggregator>, n: nat)
    requires SortedByApyDesc(xs)
    ensures forall a :: a in xs && a !in Take(xs, n) ==> forall x :: x in Take(xs, n) ==> a.apy <= x.apy
  {
    var top := Take(xs, n);
    assert forall j :: 0 <= j < |top| ==> xs[j] == top[j] && top[j] in top;
    forall a, x | a in xs && a !in top && x in top ensures a.apy <= x.apy {
      var k :| 0 <= k < |xs| && xs[k] == a;
      var i :| 0 <= i < |top| && top[i] == x;
      assert |top| <= k;
    }
  }

  /**
   * `getRecommendations`: the best choice for the amount, up to two other
   * entries of the APY-sorted list under other names, and the warnings.
   */
  function GetRecommendations(aggs: seq<Aggregator>, amount: real): (r: Option<Recommendation>)
    ensures r.None? <==> forall a :: a in aggs ==> !Eligible(a, amount)
    ensures r.Some? ==> r.value.best == BestForAmount(aggs, amount).value.aggregator
    ensures r.Some? ==> |r.value.alternatives| ==
                          if |Others(aggs, r.value.best)| < 2 then |Others(aggs, r.value.best)| else 2
    ensures r.Some? ==> forall i :: 0 <= i < |r.value.alternatives| ==>
                          r.value.alternatives[i] in aggs && r.value.alternatives[i].name != r.value.best.name
    ensures r.Some? ==> forall a :: a in aggs && a.name != r.value.best.name && a !in r.value.alternatives ==>
                          forall x :: x in r.value.alternatives ==> a.apy <= x.apy
    ensures r.Some? ==> multiset(r.value.alternatives) <= multiset(Others(aggs, r.value.best))
    ensures r.Some? ==> (SmallDepositWarning in r.value.warnings <==> amount < 100.0)
    ensures r.Some? ==> (LargeDepositWarning in r.value.warnings <==> amount > 10000.0)
    ensures r.Some? ==> (ExperimentalWarning in r.value.warnings <==> r.value.best.protocol == "experimental")
    ensures r.Some? ==> forall x :: x in r.value.warnings ==>
                          x == SmallDepositWarning || x == LargeDepositWarning || x == ExperimentalWarning
    ensures r.Some? ==> |r.value.warnings| == (if amount < 100.0 then 1 else 0) + (if amount > 10000.0 then 1 else 0)
                                              + (if r.value.best.protocol == "experimental" then 1 else 0)
    ensures r.Some? && ExperimentalWarning in r.value.warnings ==>
              r.value.warnings[|r.value.warnings| - 1] == ExperimentalWarning
    ensures r.Some? ==> !(SmallDepositWarning in r.value.warnings && LargeDepositWarning in r.value.warnings)
  {
    match BestForAmount(aggs, amount)
    case None => None
    case Some(c) =>
      Some(Recommendation(c.aggregator, Alternatives(aggs, c.aggregator), Warnings(amount, c.aggregator)))
  }

  /** The alternatives come in non-increasing APY order, as the sorted list gives them. */
  lemma AlternativesRanked(aggs: seq<Aggregator>, amount: real)
    requires GetRecommendations(aggs, amount).Some?
    ensures var alts := GetRecommendations(aggs, amount).value.alternatives;
            |alts| == 2 ==> alts[0].apy >= alts[1].apy
  {
    AlternativesSorted(aggs, BestForAmount(aggs, amount).value.aggregator);
  }

  lemma AlternativesSorted(aggs: seq<Aggregator>, best: Aggregator)
    ensures SortedByApyDesc(Alternatives(aggs, best))
  {
    var sorted := SortByApyDesc(aggs);
    SortIsSorted(aggs);
    FilterKeepsOrder(sorted, NameDiffers(best));
    var others := Filter(sorted, NameDiffers(best));
    assert Alternatives(aggs, best) == others[..|Alternatives(aggs, best)|];
  }

  /** Filtering a list sorted by APY keeps it sorted by APY. */
  lemma {:induction false} FilterKeepsOrder(xs: seq<Aggregator>, p: Aggregator -> bool)
    requires SortedByApyDesc(xs)
    ensures SortedByApyDesc(Filter(xs, p))
  {
    if |xs| > 0 {
      FilterKeepsOrder(xs[1..], p);
      var rest := Filter(xs[1..], p);
      FilterMembers(xs[1..], p);
      assert forall j :: 0 <= j < |rest| ==> rest[j] in xs[1..];
    }
  }

  // ---------------------------------------------------------------------
  // The router's built-in list

  const Tulip := Aggregator("Tulip Garden", "USDC yield vaults", 8.5, "T", "tulip",
                            Some("TuLipcqtGVXP9XR62wM8WWCm6a9vhLs7T1uoWBk6FDs"), Some(1.0), Some(0.4), false)
  const Francium := Aggregator("Francium", "USDC LP farming", 9.2, "F", "francium",
                               Some("FC81tbGt6JWRXidaWYFXxGnTk4VgobhJHATvTRVMqgWj"), Some(5.0), Some(0.6), false)
  const Kamino := Aggregator("Kamino Finance", "Concentrated liquidity", 10.1, "K", "kamino",
                             Some("KLend2g3cP87fffoy8q1mQqGKjrxjC8boSyAYavgmjD"), Some(10.0), Some(0.8), false)
  const Solend := Aggregator("Solend", "USDC lending", 7.8, "S", "solend",
                             Some("So1endDq2YkqhipRh3WViPa8hdiSpxWy6z3Z6tMCpAo"), Some(1.0), Some(0.3), false)
  const Marinade := Aggregator("Marinade (mSOL)", "Liquid staking via USDC\U{2192}SOL\U{2192}mSOL", 8.9, "M", "marinade",
                               Some("MarBmsSgKXdrN1egZf5sqe1TMai9K1rChYNDJgjq7aD"), Some(1.0), Some(0.5), false)

  /** `createAggregatorRouter`'s list. */
  const DefaultAggregators := [Tulip, Francium, Kamino, Solend, Marinade]

  /** With no live data, the highest APY of the built-in list wins: Kamino. */
  lemma DefaultBestByApy(aggs: seq<Aggregator>)
    requires aggs == DefaultAggregators
    ensures GetBestByApy(aggs) == Some(Kamino)
  {
    assert forall a :: a in aggs ==> a == Tulip || a == Francium || a == Kamino || a == Solend || a == Marinade;
    OnlyApyCandidate(aggs, Kamino);
  }

  /** With no live entry, a yielding entry whose APY no other entry reaches is the best by APY. */
  lemma OnlyApyCandidate(aggs: seq<Aggregator>, winner: Aggregator)
    requires winner in aggs && HasYield(winner)
    requires forall a :: a in aggs ==> !a.isLive
    requires forall a :: a in aggs && a.apy >= winner.apy ==> a == winner
    ensures GetBestByApy(aggs) == Some(winner)
  {
    var r := GetBestByApy(aggs);
    assert winner.apy <= r.value.apy;
  }

  lemma DefaultNetApys()
    ensures NetApy(Tulip) == 8.466 && NetApy(Francium) == 9.1448 && NetApy(Kamino) == 10.0192
    ensures NetApy(Solend) == 7.7766 && NetApy(Marinade) == 8.8555
  {
  }

  /** The only entry with a net APY at least `net` among the ones eligible for `amount`. */
  lemma OnlyCandidate(aggs: seq<Aggregator>, amount: real, winner: Aggregator)
    requires winner in aggs && Eligible(winner, amount)
    requires forall a :: a in aggs && Eligible(a, amount) && NetApy(a) >= NetApy(winner) ==> a == winner
    ensures BestForAmount(aggs, amount) == Some(Choice(winner, NetApy(winner), BestForAmount(aggs, amount).value.reasoning))
  {
    var c := BestForAmount(aggs, amount).value;
    assert NetApy(winner) <= c.netApy;
  }

  /** Below Kamino's minimum of 10, Francium has the best net APY. */
  lemma DefaultBestForFive(aggs: seq<Aggregator>)
    requires aggs == DefaultAggregators
    ensures BestForAmount(aggs, 5.0).value.aggregator == Francium
  {
    DefaultNetApys();
    assert forall a :: a in aggs ==> a == Tulip || a == Francium || a == Kamino || a == Solend || a == Marinade;
    OnlyCandidate(aggs, 5.0, Francium);
  }

  /** From Kamino's minimum of 10 on, Kamino has the best net APY. */
  lemma DefaultBestForTen(aggs: seq<Aggregator>)
    requires aggs == DefaultAggregators
    ensures BestForAmount(aggs, 10.0).value.aggregator == Kamino
  {
    DefaultNetApys();
    assert forall a :: a in aggs ==> a == Tulip || a == Francium || a == Kamino || a == Solend || a == Marinade;
    OnlyCandidate(aggs, 10.0, Kamino);
  }

  /** Every built-in entry asks at least 1, so a smaller amount gets no choice. */
  lemma DefaultTooSmall()
    ensures BestForAmount(DefaultAggregators, 0.5).None?
  {
  }
}
