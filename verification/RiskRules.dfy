/**
  The deterministic risk rules of engine-rust/src/rules.rs, with the bands of models.rs.

  Amounts are `real`.  The square root of the standard deviation is a parameter with the defining
  property of a square root, and the travel rule is a given truth value.
 */
module RiskRules {
  import opened Wrappers

  datatype Context = Context(
    recentAmounts: seq<real>, recentCountLastHour: nat, recentSumLastHour: real,
    knownBeneficiaries: seq<string>, knownDevices: seq<string>)

  /** `impossibleTravel` is the outcome of the speed test between the last location and this one. */
  datatype Request = Request(
    amount: real, beneficiaryId: Option<string>, deviceId: Option<string>, context: Context,
    impossibleTravel: bool)

  datatype Rule = VelocityCount | VelocityAmount | AmountOutlier | ImpossibleTravel | NewBeneficiary | NewDevice

  const ALL_RULES: seq<Rule> :=
    [VelocityCount, VelocityAmount, AmountOutlier, ImpossibleTravel, NewBeneficiary, NewDevice]

  function Weight(r: Rule): nat {
    match r
    case VelocityCount => 25
    case VelocityAmount => 20
    case AmountOutlier => 30
    case ImpossibleTravel => 40
    case NewBeneficiary => 25
    case NewDevice => 10
  }

  datatype RiskBand = Low | Medium | High | Critical

  function FromScore(score: nat): RiskBand {
    if score <= 24 then Low else if score <= 54 then Medium else if score <= 79 then High else Critical
  }

  function Rank(b: RiskBand): nat {
    match b case Low => 0 case Medium => 1 case High => 2 case Critical => 3
  }

  datatype Response = Response(riskScore: nat, riskBand: RiskBand, triggered: seq<Rule>)

  // ---------------------------------------------------------------- statistics

  function Sum(xs: seq<real>): real {
    if xs == [] then 0.0 else Sum(xs[..|xs| - 1]) + xs[|xs| - 1]
  }

  function Square(x: real): (r: real)
    ensures r >= 0.0
  {
    x * x
  }

  /** The sum of the squared distances from c. */
  function SquaresFrom(xs: seq<real>, c: real): (r: real)
    ensures r >= 0.0
  {
    if xs == [] then 0.0 else SquaresFrom(xs[..|xs| - 1], c) + Square(xs[|xs| - 1] - c)
  }

  /** The sum of the distances from c. */
  function Offset(xs: seq<real>, c: real): real {
    if xs == [] then 0.0 else Offset(xs[..|xs| - 1], c) + (xs[|xs| - 1] - c)
  }

  function Mean(xs: seq<real>): real
    requires xs != []
  {
    Sum(xs) / |xs| as real
  }

  function Variance(xs: seq<real>): (r: real)
    requires xs != []
    ensures r >= 0.0
  {
    SquaresFrom(xs, Mean(xs)) / |xs| as real
  }

  ghost predicate IsSqrt(sqrt: real -> real) {
    forall v | v >= 0.0 :: sqrt(v) >= 0.0 && sqrt(v) * sqrt(v) == v
  }

  function MeanStddev(sqrt: real -> real, xs: seq<real>): Option<(real, real)> {
    if |xs| < 3 then None else Some((Mean(xs), sqrt(Variance(xs))))
  }

  // ---------------------------------------------------------------- the rules

  /** Is the amount more than three standard deviations above the mean? */
  predicate IsOutlier(stats: Option<(real, real)>, amount: real) {
    match stats
    case None => false
    case Some((mean, stddev)) => stddev > 0.0 && (amount - mean) / stddev > 3.0
  }

  predicate Fires(sqrt: real -> real, req: Request, r: Rule) {
    var ctx := req.context;
    match r
    case VelocityCount => ctx.recentCountLastHour >= 5
    case VelocityAmount => ctx.recentSumLastHour + req.amount > 5000.0
    case AmountOutlier => IsOutlier(MeanStddev(sqrt, ctx.recentAmounts), req.amount)
    case ImpossibleTravel => req.impossibleTravel
    case NewBeneficiary =>
      req.beneficiaryId.Some? && req.beneficiaryId.value !in ctx.knownBeneficiaries && req.amount > 1000.0
    case NewDevice =>
      req.deviceId.Some? && ctx.knownDevices != [] && req.deviceId.value !in ctx.knownDevices
  }

  /** Those of the first k rules that fire, in order. */
  function Firing(sqrt: real -> real, req: Request, k: nat): seq<Rule>
    requires k <= |ALL_RULES|
  {
    if k == 0 then []
    else Firing(sqrt, req, k - 1) + if Fires(sqrt, req, ALL_RULES[k - 1]) then [ALL_RULES[k - 1]] else []
  }

  function TotalWeight(rs: seq<Rule>): nat {
    if rs == [] then 0 else TotalWeight(rs[..|rs| - 1]) + Weight(rs[|rs| - 1])
  }

  function ScoreOf(sqrt: real -> real, req: Request): Response {
    var fired := Firing(sqrt, req, |ALL_RULES|);
    var total := TotalWeight(fired);
    var score := if total < 100 then total else 100;
    Response(score, FromScore(score), fired)
  }

  /** Pushes each rule that fires, in the order of the source. */
  method CollectTriggered(sqrt: real -> real, req: Request) returns (triggered: seq<Rule>)
    ensures triggered == Firing(sqrt, req, |ALL_RULES|)
  {
    var ctx := req.context;
    triggered := [];
    if ctx.recentCountLastHour >= 5 {
      triggered := triggered + [VelocityCount];
    }
    assert triggered == Firing(sqrt, req, 1);
    var hourlyTotal := ctx.recentSumLastHour + req.amount;
    if hourlyTotal > 5000.0 {
      triggered := triggered + [VelocityAmount];
    }
    assert triggered == Firing(sqrt, req, 2);
    if IsOutlier(MeanStddev(sqrt, ctx.recentAmounts), req.amount) {
      triggered := triggered + [AmountOutlier];
    }
    assert triggered == Firing(sqrt, req, 3);
    if req.impossibleTravel {
      triggered := triggered + [ImpossibleTravel];
    }
    assert triggered == Firing(sqrt, req, 4);
    if req.beneficiaryId.Some? {
      if req.beneficiaryId.value !in ctx.knownBeneficiaries && req.amount > 1000.0 {
        triggered := triggered + [NewBeneficiary];
      }
    }
    assert triggered == Firing(sqrt, req, 5);
    if req.deviceId.Some? {
      if ctx.knownDevices != [] && req.deviceId.value !in ctx.knownDevices {
        triggered := triggered + [NewDevice];
      }
    }
  }

  // ---------------------------------------------------------------- which rules fire

  /** The sum of the weights of those of the first k rules that fire. */
  function FiredWeight(sqrt: real -> real, req: Request, k: nat): nat
    requires k <= |ALL_RULES|
  {
    if k == 0 then 0
    else FiredWeight(sqrt, req, k - 1) + if Fires(sqrt, req, ALL_RULES[k - 1]) then Weight(ALL_RULES[k - 1]) else 0
  }

  /** The place of a rule in the order of evaluation. */
  function Position(r: Rule): (k: nat)
    ensures k < |ALL_RULES| && ALL_RULES[k] == r
  {
    match r
    case VelocityCount => 0 case VelocityAmount => 1 case AmountOutlier => 2
    case ImpossibleTravel => 3 case NewBeneficiary => 4 case NewDevice => 5
  }

  /** The triggered rules weigh what the rules that fire weigh. */
  lemma {:induction false} FiringWeighs(sqrt: real -> real, req: Request, k: nat)
    requires k <= |ALL_RULES|
    ensures TotalWeight(Firing(sqrt, req, k)) == FiredWeight(sqrt, req, k)
  {
    if k > 0 {
      FiringWeighs(sqrt, req, k - 1);
      var f, r := Firing(sqrt, req, k - 1), ALL_RULES[k - 1];
      assert (f + [r])[..|f|] == f;
      assert Firing(sqrt, req, k) == if Fires(sqrt, req, r) then f + [r] else f;
    }
  }

  lemma {:induction false} FiringMembers(sqrt: real -> real, req: Request, k: nat, r: Rule)
    requires k <= |ALL_RULES|
    ensures r in Firing(sqrt, req, k) <==> Position(r) < k && Fires(sqrt, req, r)
  {
    if k > 0 {
      FiringMembers(sqrt, req, k - 1, r);
      assert ALL_RULES[k - 1] == r <==> k - 1 == Position(r) by {
        assert Position(ALL_RULES[k - 1]) == k - 1;
      }
    }
  }

  /** If every rule that fires for one request fires for the other, the score is no lower. */
  lemma {:induction false} MoreRulesMoreWeight(sqrt: real -> real, a: Request, b: Request, k: nat)
    requires k <= |ALL_RULES| && forall r | Fires(sqrt, a, r) :: Fires(sqrt, b, r)
    ensures FiredWeight(sqrt, a, k) <= FiredWeight(sqrt, b, k)
  {
    if k > 0 {
      MoreRulesMoreWeight(sqrt, a, b, k - 1);
    }
  }

  /** The triggered rules are the rules that fire; the score is their weights' sum capped at 100, the band its band. */
  lemma {:induction false} ScoreIsCappedSum(sqrt: real -> real, req: Request)
    ensures var s := ScoreOf(sqrt, req);
            && (forall r :: r in s.triggered <==> Fires(sqrt, req, r))
            && s.riskScore <= 100
            && (s.riskScore < 100 ==> s.riskScore == FiredWeight(sqrt, req, |ALL_RULES|))
            && (s.riskScore == 100 ==> FiredWeight(sqrt, req, |ALL_RULES|) >= 100)
            && s.riskBand == FromScore(s.riskScore)
  {
    FiringWeighs(sqrt, req, |ALL_RULES|);
    forall r ensures r in ScoreOf(sqrt, req).triggered <==> Fires(sqrt, req, r) {
      FiringMembers(sqrt, req, |ALL_RULES|, r);
    }
  }

  lemma QuotientGrows(x: real, y: real, s: real)
    requires x <= y && s > 0.0
    ensures x / s <= y / s
  {
  }

  lemma FiresMonotone(sqrt: real -> real, req: Request, more: real, r: Rule)
    requires req.amount <= more && Fires(sqrt, req, r)
    ensures Fires(sqrt, req.(amount := more), r)
  {
    if r.AmountOutlier? {
      var (mean, stddev) := MeanStddev(sqrt, req.context.recentAmounts).value;
      QuotientGrows(req.amount - mean, more - mean, stddev);
    }
  }

  /** With everything else fixed, a larger amount never lowers the score or the band. */
  lemma ScoreMonotoneInAmount(sqrt: real -> real, req: Request, more: real)
    requires req.amount <= more
    ensures var a, b := ScoreOf(sqrt, req), ScoreOf(sqrt, req.(amount := more));
            a.riskScore <= b.riskScore && Rank(a.riskBand) <= Rank(b.riskBand) &&
            forall r | r in a.triggered :: r in b.triggered
  {
    var req' := req.(amount := more);
    forall r | Fires(sqrt, req, r) ensures Fires(sqrt, req', r) {
      FiresMonotone(sqrt, req, more, r);
    }
    ScoreIsCappedSum(sqrt, req);
    ScoreIsCappedSum(sqrt, req');
    MoreRulesMoreWeight(sqrt, req, req', |ALL_RULES|);
  }

  // ---------------------------------------------------------------- order of the history

  lemma {:induction false} RemoveAt(xs: seq<real>, j: nat, c: real)
    requires j < |xs|
    ensures var ys := xs[..j] + xs[j + 1..];
            && Sum(xs) == Sum(ys) + xs[j]
            && Offset(xs, c) == Offset(ys, c) + (xs[j] - c)
            && SquaresFrom(xs, c) == SquaresFrom(ys, c) + Square(xs[j] - c)
  {
    var n := |xs| - 1;
    var ys := xs[..j] + xs[j + 1..];
    if j == n {
      assert ys == xs[..n];
    } else {
      RemoveAt(xs[..n], j, c);
      assert ys[..n - 1] == xs[..n][..j] + xs[..n][j + 1..];
      assert ys[n - 1] == xs[n];
    }
  }

  /** Equal multisets stay equal when the last element of one is taken out of the other. */
  lemma TakeOut<T>(xs: seq<T>, ys: seq<T>) returns (j: nat)
    requires xs != [] && multiset(xs) == multiset(ys)
    ensures j < |ys| && ys[j] == xs[|xs| - 1]
    ensures multiset(xs[..|xs| - 1]) == multiset(ys[..j] + ys[j + 1..])
  {
    var n, last := |xs| - 1, xs[|xs| - 1];
    assert last in multiset(ys);
    j :| 0 <= j < |ys| && ys[j] == last;
    assert multiset(xs[..n]) == multiset(xs) - multiset{last} by {
      assert xs == xs[..n] + [last];
    }
    assert multiset(ys[..j] + ys[j + 1..]) == multiset(ys) - multiset{last} by {
      assert ys == ys[..j] + [last] + ys[j + 1..];
    }
  }

  lemma {:induction false} SumsIgnoreOrder(xs: seq<real>, ys: seq<real>, c: real)
    requires multiset(xs) == multiset(ys)
    ensures |xs| == |ys| && Sum(xs) == Sum(ys) && SquaresFrom(xs, c) == SquaresFrom(ys, c)
  {
    if xs == [] {
      assert |multiset(ys)| == |ys|;
    } else {
      var j := TakeOut(xs, ys);
      SumsIgnoreOrder(xs[..|xs| - 1], ys[..j] + ys[j + 1..], c);
      RemoveAt(ys, j, c);
    }
  }

  lemma MembersIgnoreOrder(xs: seq<string>, ys: seq<string>)
    requires multiset(xs) == multiset(ys)
    ensures forall s :: s in xs <==> s in ys
    ensures xs == [] <==> ys == []
  {
    assert forall s :: s in xs <==> s in multiset(xs);
    assert forall s :: s in ys <==> s in multiset(ys);
    assert |multiset(xs)| == |xs| && |multiset(ys)| == |ys|;
  }

  lemma {:induction false} FiringSame(sqrt: real -> real, a: Request, b: Request, k: nat)
    requires k <= |ALL_RULES| && forall r :: Fires(sqrt, a, r) <==> Fires(sqrt, b, r)
    ensures Firing(sqrt, a, k) == Firing(sqrt, b, k)
  {
    if k > 0 {
      FiringSame(sqrt, a, b, k - 1);
    }
  }

  /** Reordering the history or a list of known ids changes nothing. */
  lemma ScoreIgnoresOrder(sqrt: real -> real, a: Request, b: Request)
    requires multiset(a.context.recentAmounts) == multiset(b.context.recentAmounts)
    requires multiset(a.context.knownBeneficiaries) == multiset(b.context.knownBeneficiaries)
    requires multiset(a.context.knownDevices) == multiset(b.context.knownDevices)
    requires b == a.(context := a.context.(
                       recentAmounts := b.context.recentAmounts,
                       knownBeneficiaries := b.context.knownBeneficiaries,
                       knownDevices := b.context.knownDevices))
    ensures ScoreOf(sqrt, a) == ScoreOf(sqrt, b)
  {
    var xs, ys := a.context.recentAmounts, b.context.recentAmounts;
    SumsIgnoreOrder(xs, ys, 0.0);
    if xs != [] { SumsIgnoreOrder(xs, ys, Mean(xs)); }
    MembersIgnoreOrder(a.context.knownBeneficiaries, b.context.knownBeneficiaries);
    MembersIgnoreOrder(a.context.knownDevices, b.context.knownDevices);
    FiringSame(sqrt, a, b, |ALL_RULES|);
  }

  // ---------------------------------------------------------------- the outlier bound

  lemma NonNegativeFactor(m: real, x: real)
    requires m >= 1.0 && m * x >= 0.0
    ensures x >= 0.0
  {
  }

  lemma ScaledUp(a: real, b: real, c: real)
    requires a >= b && c >= 0.0
    ensures a * c >= b * c
    ensures a > b && c > 0.0 ==> a * c > b * c
  {
    assert (a - b) * c >= 0.0;
  }

  /** One more term keeps the square of a sum below the number of terms times the sum of squares. */
  lemma CauchyStep(s: real, q: real, m: real, a: real)
    requires m >= 1.0 && s * s <= m * q
    ensures (s + a) * (s + a) <= (m + 1.0) * (q + a * a)
  {
    var d := s - m * a;
    assert d * d >= 0.0;
    assert d * d == s * s - 2.0 * (m * (s * a)) + m * (m * (a * a));
    assert m * (q + m * (a * a) - 2.0 * (s * a)) >= 0.0 by {
      assert m * (q + m * (a * a) - 2.0 * (s * a)) == m * q + m * (m * (a * a)) - 2.0 * (m * (s * a));
    }
    NonNegativeFactor(m, q + m * (a * a) - 2.0 * (s * a));
    assert (s + a) * (s + a) == s * s + 2.0 * (s * a) + a * a;
    assert (m + 1.0) * (q + a * a) == m * q + m * (a * a) + q + a * a;
  }

  lemma {:induction false} OffsetIsSum(xs: seq<real>, c: real)
    ensures Offset(xs, c) == Sum(xs) - |xs| as real * c
  {
    if xs != [] {
      OffsetIsSum(xs[..|xs| - 1], c);
    }
  }

  lemma {:induction false} CauchySchwarz(xs: seq<real>, c: real)
    ensures Square(Offset(xs, c)) <= |xs| as real * SquaresFrom(xs, c)
  {
    if |xs| == 1 {
      assert xs[..0] == [];
    } else if xs != [] {
      var n := |xs| - 1;
      CauchySchwarz(xs[..n], c);
      CauchyStep(Offset(xs[..n], c), SquaresFrom(xs[..n], c), n as real, xs[n] - c);
    }
  }

  lemma SpreadWithout(n: real, m: real, x: real, rest: real, q: real)
    requires n >= 1.0 && m == n - 1.0 && x <= m * rest && q == rest + x
    ensures x <= m * (q / n)
  {
    var t := q / n;
    assert n * t == q;
    assert m * (n * t) == n * (m * t);
    assert m * q == m * rest + m * x;
    assert n * (m * t - x) == n * (m * t) - n * x;
    NonNegativeFactor(n, m * t - x);
  }

  lemma {:induction false} MeanCentres(xs: seq<real>)
    requires xs != []
    ensures Offset(xs, Mean(xs)) == 0.0
  {
    OffsetIsSum(xs, Mean(xs));
    assert |xs| as real * (Sum(xs) / |xs| as real) == Sum(xs);
  }

  lemma NegatedSquare(x: real, y: real)
    requires x == -y
    ensures Square(x) == Square(y)
  {
  }

  /** Around a centre, one member's offset is the other members' total offset, so Cauchy-Schwarz bounds it. */
  lemma MemberSpread(xs: seq<real>, j: nat, c: real) returns (x: real, rest: real)
    requires j < |xs| && Offset(xs, c) == 0.0
    ensures x == Square(xs[j] - c) && SquaresFrom(xs, c) == rest + x
    ensures x <= (|xs| - 1) as real * rest
  {
    var ys := xs[..j] + xs[j + 1..];
    x, rest := Square(xs[j] - c), SquaresFrom(ys, c);
    RemoveAt(xs, j, c);
    CauchySchwarz(ys, c);
    NegatedSquare(Offset(ys, c), xs[j] - c);
  }

  /** Around a centre, no member lies further out than sqrt(n - 1) times the root mean square. */
  lemma {:induction false} MemberNearCentre(xs: seq<real>, j: nat, c: real)
    requires j < |xs| && Offset(xs, c) == 0.0
    ensures Square(xs[j] - c) <= (|xs| - 1) as real * (SquaresFrom(xs, c) / |xs| as real)
  {
    var x, rest := MemberSpread(xs, j, c);
    SpreadWithout(|xs| as real, (|xs| - 1) as real, x, rest, SquaresFrom(xs, c));
  }

  /** No member lies further from the mean than sqrt(n - 1) standard deviations. */
  lemma MemberNearMean(xs: seq<real>, j: nat)
    requires j < |xs|
    ensures Square(xs[j] - Mean(xs)) <= (|xs| - 1) as real * Variance(xs)
  {
    MeanCentres(xs);
    MemberNearCentre(xs, j, Mean(xs));
  }

  lemma ThreeTimes(d: real, s: real)
    requires s > 0.0
    ensures s * s > 0.0
    ensures d / s > 3.0 <==> d > 0.0 && d * d > 9.0 * (s * s)
  {
    var z := d / s;
    assert d == z * s;
    ScaledUp(s, 0.0, s);
    assert d * d == (z * z) * (s * s);
    if z > 3.0 {
      ScaledUp(z, 0.0, s);
      ScaledUp(z, 3.0, z);
      ScaledUp(z * z, 9.0, s * s);
    } else if z > 0.0 {
      ScaledUp(3.0, z, z);
      ScaledUp(9.0, z * z, s * s);
    } else {
      ScaledUp(0.0, z, s);
    }
  }

  /** Without a square root: the outlier rule fires for amounts beyond three standard deviations above the mean. */
  lemma OutlierMeaning(sqrt: real -> real, req: Request)
    requires IsSqrt(sqrt)
    ensures var xs := req.context.recentAmounts;
            Fires(sqrt, req, AmountOutlier) <==>
            |xs| >= 3 && Variance(xs) > 0.0 && req.amount > Mean(xs) &&
            Square(req.amount - Mean(xs)) > 9.0 * Variance(xs)
  {
    var xs := req.context.recentAmounts;
    if |xs| >= 3 {
      var s := sqrt(Variance(xs));
      assert s >= 0.0 && s * s == Variance(xs);
      if s > 0.0 {
        ThreeTimes(req.amount - Mean(xs), s);
      }
    }
  }

  lemma AtMostNine(x: real, m: real, v: real)
    requires x <= m * v && m <= 9.0 && v >= 0.0
    ensures x <= 9.0 * v
  {
    ScaledUp(9.0, m, v);
  }

  lemma MemberWithinThree(xs: seq<real>, j: nat)
    requires j < |xs| <= 10
    ensures Square(xs[j] - Mean(xs)) <= 9.0 * Variance(xs)
  {
    MemberNearMean(xs, j);
    AtMostNine(Square(xs[j] - Mean(xs)), (|xs| - 1) as real, Variance(xs));
  }

  /** An amount that already occurs in a history of at most ten entries is never an outlier. */
  lemma KnownAmountIsNoOutlier(sqrt: real -> real, req: Request)
    requires IsSqrt(sqrt)
    requires req.amount in req.context.recentAmounts && |req.context.recentAmounts| <= 10
    ensures !Fires(sqrt, req, AmountOutlier)
  {
    var xs := req.context.recentAmounts;
    var j :| 0 <= j < |xs| && xs[j] == req.amount;
    OutlierMeaning(sqrt, req);
    MemberWithinThree(xs, j);
  }

  function Repeat(n: nat): (r: seq<real>)
    ensures |r| == n && forall i | 0 <= i < n :: r[i] == 0.0
  {
    if n == 0 then [] else Repeat(n - 1) + [0.0]
  }

  lemma {:induction false} ZerosSum(n: nat)
    ensures Sum(Repeat(n)) == 0.0 && SquaresFrom(Repeat(n), 1.0) == n as real
  {
    assert Square(0.0 - 1.0) == 1.0;
    hide Square;
    if n > 0 {
      ZerosSum(n - 1);
      var zeros := Repeat(n);
      assert zeros[..n - 1] == Repeat(n - 1) && zeros[n - 1] == 0.0;
      hide Repeat;
    }
  }

  /** Ten is the most: among eleven entries one of them can be an outlier. */
  lemma ElevenEntriesAdmitOutlier(sqrt: real -> real, req: Request)
    requires IsSqrt(sqrt) && req.amount == 11.0
    requires req.context.recentAmounts == [0.0, 0.0, 0.0, 0.0, 0.0, 0.0, 0.0, 0.0, 0.0, 0.0, 11.0]
    ensures req.amount in req.context.recentAmounts && Fires(sqrt, req, AmountOutlier)
  {
    var xs := req.context.recentAmounts;
    assert xs[..10] == Repeat(10) && xs[10] == 11.0;
    ZerosSum(10);
    assert Sum(xs) == 11.0 && Mean(xs) == 1.0;
    assert SquaresFrom(xs, 1.0) == 110.0 && Variance(xs) == 10.0;
    OutlierMeaning(sqrt, req);
  }

  // ---------------------------------------------------------------- the score in numbers

  /** A sum of squares from c, in terms of the sum of squares q, the sum s and the number n. */
  ghost predicate Shifted(a: real, q: real, s: real, n: real, c: real) {
    a == q - 2.0 * (c * s) + n * (c * c)
  }

  lemma ShiftStep(a: real, q: real, s: real, n: real, c: real, x: real)
    requires Shifted(a, q, s, n, c)
    ensures Shifted(a + Square(x - c), q + Square(x - 0.0), s + x, n + 1.0, c)
  {
  }

  lemma {:induction false} SquaresShift(xs: seq<real>, c: real)
    ensures Shifted(SquaresFrom(xs, c), SquaresFrom(xs, 0.0), Sum(xs), |xs| as real, c)
  {
    if xs != [] {
      hide Shifted, Square;
      var n := |xs| - 1;
      SquaresShift(xs[..n], c);
      ShiftStep(SquaresFrom(xs[..n], c), SquaresFrom(xs[..n], 0.0), Sum(xs[..n]), n as real, c, xs[n]);
    }
  }

  /** n entries with sum s and sum of squares q: is x more than three standard deviations above the mean? */
  ghost predicate BeyondThree(n: real, s: real, q: real, x: real) {
    n * q > s * s && n * x > s && (n * x - s) * (n * x - s) > 9.0 * (n * q - s * s)
  }

  ghost predicate Outlying(xs: seq<real>, amount: real) {
    |xs| >= 3 && BeyondThree(|xs| as real, Sum(xs), SquaresFrom(xs, 0.0), amount)
  }

  /** m is the mean of n entries with sum s; v is their variance, where a is their sum of squares from m. */
  ghost predicate MeanVariance(n: real, s: real, m: real, a: real, v: real) {
    n * m == s && n * v == a
  }

  lemma {:induction false} MeanVarianceOf(xs: seq<real>)
    requires xs != []
    ensures MeanVariance(|xs| as real, Sum(xs), Mean(xs), SquaresFrom(xs, Mean(xs)), Variance(xs))
  {
    hide Sum, SquaresFrom;
  }

  lemma Unscaled(n: real, s: real, q: real, m: real, a: real, v: real, x: real)
    requires n > 0.0 && MeanVariance(n, s, m, a, v) && Shifted(a, q, s, n, m)
    ensures n * (x - m) == n * x - s && n * (n * v) == n * q - s * s
  {
    assert n * (m * m) == (n * m) * m;
    assert n * (m * s) == (n * m) * s;
    assert n * (n * v) == n * (q - m * s) == n * q - n * (m * s);
  }

  lemma SignKept(n: real, x: real)
    requires n > 0.0
    ensures x > 0.0 <==> n * x > 0.0
  {
  }

  lemma ScaledByCount(n: real, d: real, v: real, y: real, w: real)
    requires n > 0.0 && y == n * d && w == n * (n * v)
    ensures d > 0.0 <==> y > 0.0
    ensures v > 0.0 <==> w > 0.0
    ensures d * d > 9.0 * v <==> y * y > 9.0 * w
  {
    var t := d * d - 9.0 * v;
    assert y * y == n * (n * (d * d)) && y * y - 9.0 * w == n * (n * t);
    SignKept(n, d);
    SignKept(n, v);
    SignKept(n, n * v);
    SignKept(n, t);
    SignKept(n, n * t);
  }

  lemma BeyondInSums(n: real, s: real, q: real, m: real, a: real, v: real, x: real)
    requires n > 0.0 && MeanVariance(n, s, m, a, v) && Shifted(a, q, s, n, m)
    ensures BeyondThree(n, s, q, x) <==> v > 0.0 && x > m && Square(x - m) > 9.0 * v
  {
    Unscaled(n, s, q, m, a, v, x);
    hide Shifted, MeanVariance;
    ScaledByCount(n, x - m, v, n * x - s, n * q - s * s);
  }

  lemma OutlierInSums(sqrt: real -> real, req: Request)
    requires IsSqrt(sqrt)
    ensures Fires(sqrt, req, AmountOutlier) <==> Outlying(req.context.recentAmounts, req.amount)
  {
    var xs := req.context.recentAmounts;
    OutlierMeaning(sqrt, req);
    hide Shifted, MeanVariance, BeyondThree, Square, Fires, IsSqrt, Mean, Variance, Sum, SquaresFrom;
    if |xs| >= 3 {
      var m := Mean(xs);
      MeanVarianceOf(xs);
      SquaresShift(xs, m);
      BeyondInSums(|xs| as real, Sum(xs), SquaresFrom(xs, 0.0), m, SquaresFrom(xs, m), Variance(xs), req.amount);
    }
  }

  function When(fires: bool, r: Rule): seq<Rule> {
    if fires then [r] else []
  }

  /** The response in numbers, for the six conditions: the rules in order, their weights, and the bands. */
  ghost predicate TalliedFor(r: Response, velocity: bool, cumulative: bool, outlier: bool, travel: bool,
                             stranger: bool, device: bool)
  {
    var total := (if velocity then 25 else 0) + (if cumulative then 20 else 0) + (if outlier then 30 else 0)
                 + (if travel then 40 else 0) + (if stranger then 25 else 0) + if device then 10 else 0;
    && r.riskScore == (if total > 100 then 100 else total)
    && (r.riskBand == Low <==> r.riskScore < 25) && (r.riskBand == Medium <==> 25 <= r.riskScore < 55)
    && (r.riskBand == High <==> 55 <= r.riskScore < 80) && (r.riskBand == Critical <==> 80 <= r.riskScore)
    && r.triggered == When(velocity, VelocityCount) + When(cumulative, VelocityAmount) + When(outlier, AmountOutlier)
                      + When(travel, ImpossibleTravel) + When(stranger, NewBeneficiary) + When(device, NewDevice)
  }

  /** The six conditions, read off the request. */
  ghost predicate Tallied(req: Request, r: Response) {
    var c := req.context;
    TalliedFor(
      r, c.recentCountLastHour >= 5, c.recentSumLastHour + req.amount > 5000.0,
      Outlying(c.recentAmounts, req.amount), req.impossibleTravel,
      req.beneficiaryId.Some? && req.beneficiaryId.value !in c.knownBeneficiaries && req.amount > 1000.0,
      req.deviceId.Some? && c.knownDevices != [] && req.deviceId.value !in c.knownDevices)
  }

  lemma {:induction false} FiringStep(sqrt: real -> real, req: Request, k: nat, r: Rule, fires: bool)
    requires 0 < k <= |ALL_RULES| && r == ALL_RULES[k - 1] && fires == Fires(sqrt, req, r)
    ensures Firing(sqrt, req, k) == Firing(sqrt, req, k - 1) + When(fires, r)
    ensures FiredWeight(sqrt, req, k) == FiredWeight(sqrt, req, k - 1) + if fires then Weight(r) else 0
  {
  }

  lemma {:induction false} NoneFiring(sqrt: real -> real, req: Request)
    ensures Firing(sqrt, req, 0) == [] && FiredWeight(sqrt, req, 0) == 0
  {
  }

  /** The six rules, one by one. */
  lemma {:induction false} SixRules(sqrt: real -> real, req: Request, a: bool, b: bool, c: bool, d: bool, e: bool,
                                    f: bool)
    requires a == Fires(sqrt, req, VelocityCount) && b == Fires(sqrt, req, VelocityAmount)
    requires c == Fires(sqrt, req, AmountOutlier) && d == Fires(sqrt, req, ImpossibleTravel)
    requires e == Fires(sqrt, req, NewBeneficiary) && f == Fires(sqrt, req, NewDevice)
    ensures FiredWeight(sqrt, req, |ALL_RULES|) ==
            (if a then 25 else 0) + (if b then 20 else 0) + (if c then 30 else 0) + (if d then 40 else 0)
            + (if e then 25 else 0) + if f then 10 else 0
    ensures Firing(sqrt, req, |ALL_RULES|) ==
            When(a, VelocityCount) + When(b, VelocityAmount) + When(c, AmountOutlier) + When(d, ImpossibleTravel)
            + When(e, NewBeneficiary) + When(f, NewDevice)
  {
    hide Firing, FiredWeight, Fires, When;
    NoneFiring(sqrt, req);
    FiringStep(sqrt, req, 1, VelocityCount, a);
    FiringStep(sqrt, req, 2, VelocityAmount, b);
    FiringStep(sqrt, req, 3, AmountOutlier, c);
    FiringStep(sqrt, req, 4, ImpossibleTravel, d);
    FiringStep(sqrt, req, 5, NewBeneficiary, e);
    FiringStep(sqrt, req, 6, NewDevice, f);
    assert [] + When(a, VelocityCount) == When(a, VelocityCount);
  }

  lemma TallyForRules(sqrt: real -> real, req: Request, a: bool, b: bool, c: bool, d: bool, e: bool, f: bool)
    requires a == Fires(sqrt, req, VelocityCount) && b == Fires(sqrt, req, VelocityAmount)
    requires c == Fires(sqrt, req, AmountOutlier) && d == Fires(sqrt, req, ImpossibleTravel)
    requires e == Fires(sqrt, req, NewBeneficiary) && f == Fires(sqrt, req, NewDevice)
    ensures TalliedFor(ScoreOf(sqrt, req), a, b, c, d, e, f)
  {
    FiringWeighs(sqrt, req, |ALL_RULES|);
    hide Firing, FiredWeight, TotalWeight, Fires, When;
    SixRules(sqrt, req, a, b, c, d, e, f);
  }

  lemma TallyOf(sqrt: real -> real, req: Request)
    requires IsSqrt(sqrt)
    ensures Tallied(req, ScoreOf(sqrt, req))
  {
    OutlierInSums(sqrt, req);
    hide ScoreOf, Outlying, IsSqrt, TalliedFor, IsOutlier;
    TallyForRules(sqrt, req, Fires(sqrt, req, VelocityCount), Fires(sqrt, req, VelocityAmount),
                  Fires(sqrt, req, AmountOutlier), Fires(sqrt, req, ImpossibleTravel),
                  Fires(sqrt, req, NewBeneficiary), Fires(sqrt, req, NewDevice));
  }

  /** Adds the weights of the triggered rules and caps the sum at 100. */
  method Score(sqrt: real -> real, req: Request) returns (r: Response)
    ensures r == ScoreOf(sqrt, req)
    ensures IsSqrt(sqrt) ==> Tallied(req, r)
  {
    var triggered := CollectTriggered(sqrt, req);
    var total := 0;
    for i := 0 to |triggered|
      invariant total == TotalWeight(triggered[..i])
    {
      assert triggered[..i + 1][..i] == triggered[..i];
      total := total + Weight(triggered[i]);
    }
    assert triggered[..|triggered|] == triggered;
    var riskScore := if total < 100 then total else 100;
    r := Response(riskScore, FromScore(riskScore), triggered);
    if IsSqrt(sqrt) { TallyOf(sqrt, req); }
  }
}
