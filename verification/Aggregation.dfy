/** Running statistics of the aggregation plugin, over real numbers; `None` stands for NaN. */
module Aggregation {
  import opened Common

  datatype Stats = Stats(num: nat, sum: real, squares: real, min: Option<real>, max: Option<real>)

  const EMPTY := Stats(0, 0.0, 0.0, None, None)

  function Square(x: real): (r: real)
    ensures r >= 0.0
  {
    x * x
  }

  /** The effect of one non-NaN rate. */
  function Add(s: Stats, x: real): Stats
  {
    Stats(s.num + 1, s.sum + x, s.squares + Square(x),
          if s.min.None? || s.min.value > x then Some(x) else s.min,
          if s.max.None? || s.max.value < x then Some(x) else s.max)
  }

  function Collect(xs: seq<real>): Stats
  {
    if xs == [] then EMPTY else Add(Collect(xs[..|xs| - 1]), xs[|xs| - 1])
  }

  lemma {:induction false} CollectSnoc(xs: seq<real>, x: real)
    ensures Collect(xs + [x]) == Add(Collect(xs), x)
  {
    assert (xs + [x])[..|xs|] == xs;
  }

  // ------------------------------------------------------------ independence of order

  lemma {:induction false} AddCommutes(s: Stats, x: real, y: real)
    ensures Add(Add(s, x), y) == Add(Add(s, y), x)
  {
    hide Square;
  }

  lemma {:induction false} Last(a: seq<real>, x: real, b: seq<real>)
    ensures Collect(a + [x] + b) == Add(Collect(a + b), x)
    decreases |b|
  {
    hide Add;
    if b == [] {
      assert (a + [x] + b)[..|a|] == a == a + b;
    } else {
      var n, y := |b| - 1, b[|b| - 1];
      Last(a, x, b[..n]);
      assert (a + [x] + b)[..|a| + 1 + n] == a + [x] + b[..n];
      assert (a + b)[..|a| + n] == a + b[..n];
      AddCommutes(Collect(a + b[..n]), x, y);
    }
  }

  /** The statistics depend only on the multiset of rates, not on their order. */
  lemma {:induction false} OrderIrrelevant(xs: seq<real>, ys: seq<real>)
    requires multiset(xs) == multiset(ys)
    ensures Collect(xs) == Collect(ys)
    decreases |xs|
  {
    hide Add, Collect;
    assert |xs| == |multiset(xs)| == |multiset(ys)| == |ys|;
    if xs == [] {
      assert ys == [];
    } else {
      assert xs[0] in multiset(ys);
      var k :| 0 <= k < |ys| && ys[k] == xs[0];
      var restX, restY := xs[..0] + xs[1..], ys[..k] + ys[k + 1..];
      Without(xs, 0);
      Without(ys, k);
      OrderIrrelevant(restX, restY);
      Last(xs[..0], xs[0], xs[1..]);
      Last(ys[..k], xs[0], ys[k + 1..]);
    }
  }

  // ---------------------------------------------------------------- meaning

  function Sum(xs: seq<real>, f: real -> real): real
  {
    if xs == [] then 0.0 else Sum(xs[..|xs| - 1], f) + f(xs[|xs| - 1])
  }

  /** `num`, `sum` and `squares_sum` are the sums they are named for; `min` and `max` are attained bounds. */
  lemma {:induction false} CollectMeaning(xs: seq<real>)
    ensures var s := Collect(xs);
            && s.num == |xs| && s.sum == Sum(xs, x => x) && s.squares == Sum(xs, Square)
            && (xs == [] <==> s.min == None) && (xs == [] <==> s.max == None)
            && (xs != [] ==>
                 && s.min.value in xs && s.max.value in xs
                 && (forall x :: x in xs ==> s.min.value <= x <= s.max.value))
  {
    hide Square;
    if xs != [] {
      var n := |xs| - 1;
      CollectMeaning(xs[..n]);
      assert forall x :: x in xs <==> x in xs[..n] || x == xs[n];
    }
  }

  /** Sum of squared distances to `c`. */
  function Deviation(xs: seq<real>, c: real): (r: real)
    ensures r >= 0.0
  {
    if xs == [] then 0.0 else Deviation(xs[..|xs| - 1], c) + Square(xs[|xs| - 1] - c)
  }

  /** The same from the running sums alone. */
  function Expanded(n: real, t: real, q: real, c: real): real
  {
    q - 2.0 * c * t + n * (c * c)
  }

  lemma {:induction false} AddExpands(n: real, t: real, q: real, c: real, x: real)
    ensures Expanded(n + 1.0, t + x, q + Square(x), c) == Expanded(n, t, q, c) + Square(x - c)
  {
  }

  lemma {:induction false} DeviationExpands(xs: seq<real>, c: real)
    ensures var s := Collect(xs); Deviation(xs, c) == Expanded(s.num as real, s.sum, s.squares, c)
  {
    if xs == [] {
      assert Expanded(0.0, 0.0, 0.0, c) == 0.0;
    } else {
      hide Expanded, Square;
      DeviationExpands(xs[..|xs| - 1], c);
      var s, x := Collect(xs[..|xs| - 1]), xs[|xs| - 1];
      AddExpands(s.num as real, s.sum, s.squares, c, x);
    }
  }

  /** What rates between `a` and `b` imply for their running sums; the last term is the sum of
      `(x - a) * (b - x)`. */
  predicate Within(n: real, t: real, q: real, a: real, b: real)
  {
    n * a <= t <= n * b && (a + b) * t - q - n * (a * b) >= 0.0
  }

  lemma {:induction false} NonNegative(u: real, v: real)
    requires u >= 0.0 && v >= 0.0
    ensures u * v >= 0.0
  {
  }

  lemma {:induction false} AddWithin(n: real, t: real, q: real, a: real, b: real, x: real)
    requires a <= x <= b && Within(n, t, q, a, b)
    ensures Within(n + 1.0, t + x, q + Square(x), a, b)
  {
    NonNegative(x - a, b - x);
    assert (a + b) * (t + x) - (q + Square(x)) - (n + 1.0) * (a * b)
        == ((a + b) * t - q - n * (a * b)) + (x - a) * (b - x);
    assert (n + 1.0) * a == n * a + a && (n + 1.0) * b == n * b + b;
  }

  lemma {:induction false} Between(xs: seq<real>, a: real, b: real)
    requires forall x :: x in xs ==> a <= x <= b
    ensures var s := Collect(xs); Within(s.num as real, s.sum, s.squares, a, b)
  {
    if xs == [] {
      assert Within(0.0, 0.0, 0.0, a, b);
    } else {
      hide Within, Square;
      var s, x := Collect(xs[..|xs| - 1]), xs[|xs| - 1];
      assert x in xs;
      assert forall i :: 0 <= i < |xs| ==> xs[i] in xs;
      Between(xs[..|xs| - 1], a, b);
      AddWithin(s.num as real, s.sum, s.squares, a, b, x);
    }
  }

  /** What is under the square root of the reported deviation. */
  function Radicand(n: real, t: real, q: real): real
  {
    n * q - t * t
  }

  function Average(n: real, t: real): real
    requires n > 0.0
  {
    t / n
  }

  lemma {:induction false} AtMean(n: real, t: real, q: real, v: real)
    requires n > 0.0 && v == Expanded(n, t, q, Average(n, t)) && v >= 0.0
    ensures Radicand(n, t, q) == Scale(n, v) >= 0.0
  {
    var m := t / n;
    assert t == n * m;
    assert n * Expanded(n, n * m, q, m) == n * q - (n * m) * (n * m);
  }

  function Scale(n: real, v: real): real
  {
    n * v
  }

  /** The radicand is the number of rates times their sum of squared distances to the mean. */
  lemma {:induction false} RadicandMeaning(xs: seq<real>)
    requires xs != []
    ensures var s, n := Collect(xs), |xs| as real;
            s.num == |xs| && Radicand(n, s.sum, s.squares) == Scale(n, Deviation(xs, Average(n, s.sum))) >= 0.0
  {
    hide Expanded, Square, Radicand, Average, Scale;
    var s, n := Collect(xs), |xs| as real;
    CollectMeaning(xs);
    DeviationExpands(xs, Average(n, s.sum));
    AtMean(n, s.sum, s.squares, Deviation(xs, Average(n, s.sum)));
  }

  /** For every non-empty set of rates: the average lies between minimum and maximum, and the radicand
      between zero and the square of half the range times the count. */
  lemma {:induction false} Bounds(xs: seq<real>)
    requires xs != []
    ensures var s, n := Collect(xs), |xs| as real;
            && s.min.Some? && s.max.Some?
            && s.min.value <= Average(n, s.sum) <= s.max.value
            && 0.0 <= Radicand(n, s.sum, s.squares) <= Square(Scale(n, (s.max.value - s.min.value) / 2.0))
  {
    hide Within, Square, Collect, Deviation, Radicand, Average, Scale;
    var s, n := Collect(xs), |xs| as real;
    CollectMeaning(xs);
    RadicandMeaning(xs);
    Between(xs, s.min.value, s.max.value);
    Divide(n, s.sum, s.squares, s.min.value, s.max.value);
    ProductBound(n, s.sum, s.squares, s.min.value, s.max.value);
  }

  lemma {:induction false} Divide(n: real, t: real, q: real, a: real, b: real)
    requires n > 0.0 && Within(n, t, q, a, b)
    ensures a <= Average(n, t) <= b
  {
    var m := t / n;
    assert n * m == t;
    assert n * (m - a) >= 0.0 && n * (b - m) >= 0.0;
  }

  lemma {:induction false} ProductBound(n: real, t: real, q: real, a: real, b: real)
    requires n > 0.0 && Within(n, t, q, a, b)
    ensures Radicand(n, t, q) <= Square(Scale(n, (b - a) / 2.0))
  {
    var u, v := n * b - t, t - n * a;
    var g := (a + b) * t - q - n * (a * b);
    assert n * g >= 0.0;
    assert n * q - t * t == u * v - n * g;
    assert 4.0 * Square(n * ((b - a) / 2.0)) == Square(u + v);
    assert Square(u + v) - 4.0 * (u * v) == Square(u - v);
  }

  // ------------------------------------------------------------------ the instance

  ghost predicate IsSqrt(f: real -> real)
  {
    forall x :: x >= 0.0 ==> f(x) >= 0.0 && Square(f(x)) == x
  }

  datatype Figures = Figures(sum: real, average: real, min: Option<real>, max: Option<real>, stddev: real)

  /** What one report dispatches: the count, and the rest only when there were any rates. */
  datatype Report = Report(num: nat, figures: Option<Figures>)

  datatype Figure = Num | TheSum | TheAverage | TheMin | TheMax | Stddev

  /** The value a report has for one of the figures. */
  function ValueOf(r: Report, f: Figure): Option<real>
  {
    if f.Num? then Some(r.num as real)
    else if r.figures.None? then None
    else match f
         case Num => Some(r.num as real)
         case TheSum => Some(r.figures.value.sum)
         case TheAverage => Some(r.figures.value.average)
         case TheMin => r.figures.value.min
         case TheMax => r.figures.value.max
         case Stddev => Some(r.figures.value.stddev)
  }

  function ReportOf(s: Stats, sqrt: real -> real): Report
  {
    var n := s.num as real;
    Report(s.num,
           if s.num > 0
           then Some(Figures(s.sum, Average(n, s.sum), s.min, s.max, Average(n, sqrt(Radicand(n, s.sum, s.squares)))))
           else None)
  }

  /** The reported deviation is the population standard deviation, and at most half the range. */
  lemma {:induction false} ReportedDeviation(xs: seq<real>, sqrt: real -> real)
    requires xs != [] && IsSqrt(sqrt)
    ensures ReportOf(Collect(xs), sqrt).figures.Some?
    ensures var f := ReportOf(Collect(xs), sqrt).figures.value;
            && f.min.Some? && f.max.Some?
            && Square(f.stddev) == Average(|xs| as real, Deviation(xs, f.average))
            && 0.0 <= f.stddev <= (f.max.value - f.min.value) / 2.0
  {
    hide Collect, Deviation, Square, Radicand, Average, Scale;
    var s, n := Collect(xs), |xs| as real;
    CollectMeaning(xs);
    Bounds(xs);
    RadicandMeaning(xs);
    var r := sqrt(Radicand(n, s.sum, s.squares));
    RootMean(n, r, Deviation(xs, Average(n, s.sum)));
    RootBound(n, r, (s.max.value - s.min.value) / 2.0);
  }

  lemma {:induction false} RootMean(n: real, r: real, v: real)
    requires n > 0.0 && Square(r) == Scale(n, v)
    ensures Square(Average(n, r)) == Average(n, v)
  {
    hide Square, Scale, Average;
    var d, w := Average(n, r), Average(n, v);
    ScaleAverage(n, r);
    ScaleAverage(n, v);
    SquareScale(n, d);
    Cancel(n, Scale(n, Square(d)), Scale(n, w));
    Cancel(n, Square(d), w);
  }

  lemma {:induction false} ScaleAverage(n: real, x: real)
    requires n > 0.0
    ensures Scale(n, Average(n, x)) == x
  {
  }

  lemma {:induction false} SquareScale(n: real, d: real)
    ensures Square(Scale(n, d)) == Scale(n, Scale(n, Square(d)))
  {
    assert (n * d) * (n * d) == n * (n * (d * d));
  }

  lemma {:induction false} Cancel(n: real, x: real, y: real)
    requires n > 0.0 && Scale(n, x) == Scale(n, y)
    ensures x == y
  {
    assert n * (x - y) == 0.0;
  }

  lemma {:induction false} RootBound(n: real, r: real, half: real)
    requires n > 0.0 && r >= 0.0 && half >= 0.0 && Square(r) <= Square(Scale(n, half))
    ensures 0.0 <= Average(n, r) <= half
  {
    assert n * half >= 0.0;
    Ordered(r, Scale(n, half));
    var d := r / n;
    assert r == n * d;
    assert n * (half - d) >= 0.0;
  }

  lemma {:induction false} Ordered(x: real, y: real)
    requires y >= 0.0 && Square(x) <= Square(y)
    ensures x <= y
  {
    hide Square;
    if x > y {
      var d := x - y;
      Binomial(y, d);
      NonNegative(y, d);
      Positive(d);
    }
  }

  lemma {:induction false} Binomial(y: real, d: real)
    ensures Square(y + d) == Square(y) + 2.0 * (y * d) + Square(d)
  {
  }

  lemma {:induction false} Positive(d: real)
    requires d > 0.0
    ensures Square(d) > 0.0
  {
    Product(d, d);
    assert Square(d) == Scale(d, d);
  }

  lemma {:induction false} Product(u: real, v: real)
    requires u > 0.0 && v > 0.0
    ensures Scale(u, v) > 0.0
  {
  }

  datatype Rate = Unavailable | NotANumber | Known(x: real)

  const EINVAL := 22
  const ENOENT := 2

  class Instance {
    var num: nat
    var sum: real
    var squaresSum: real
    var min: Option<real>
    var max: Option<real>
    ghost var rates: seq<real> // the rates collected since the last report

    ghost predicate Valid()
      reads this
    {
      Stats(num, sum, squaresSum, min, max) == Collect(rates)
    }

    constructor ()
      ensures Valid() && rates == []
    {
      num, sum, squaresSum, min, max, rates := 0, 0.0, 0.0, None, None, [];
    }

    method Update(sources: nat, rate: Rate) returns (status: int)
      requires Valid()
      modifies this
      ensures Valid()
      ensures rates == if sources == 1 && rate.Known? then old(rates) + [rate.x] else old(rates)
      ensures status == if sources != 1 then EINVAL else if rate.Unavailable? then ENOENT else 0
    {
      if sources != 1 {
        return EINVAL;
      }
      if rate.Unavailable? {
        return ENOENT;
      }
      if rate.NotANumber? {
        return 0;
      }
      Include(rate.x);
      return 0;
    }

    /** The locked part of the update. */
    method Include(x: real)
      requires Valid()
      modifies this
      ensures Valid() && rates == old(rates) + [x]
    {
      hide Square, Collect;
      CollectSnoc(rates, x);
      num := num + 1;
      sum := sum + x;
      squaresSum := squaresSum + Square(x);
      if min.None? || min.value > x {
        min := Some(x);
      }
      if max.None? || max.value < x {
        max := Some(x);
      }
      rates := rates + [x];
    }

    /** `on` are the figures that are switched on; exactly those that have a value are dispatched. */
    method Read(sqrt: real -> real, on: set<Figure>) returns (dispatched: map<Figure, real>)
      requires Valid()
      modifies this
      ensures Valid() && rates == []
      ensures var report := ReportOf(Collect(old(rates)), sqrt);
              && (forall f :: f in dispatched <==> f in on && ValueOf(report, f).Some?)
              && (forall f :: f in dispatched ==> ValueOf(report, f) == Some(dispatched[f]))
      ensures Truthful(old(rates), sqrt, on, dispatched)
    {
      hide Collect, ReportOf, ValueOf, Offered;
      CollectSizes(rates);
      dispatched := Dispatch(Stats(num, sum, squaresSum, min, max), sqrt, on);
      OfferedAll(dispatched, on, ReportOf(Collect(rates), sqrt));
      DispatchedTruth(rates, sqrt, on, dispatched);
      num, sum, squaresSum, min, max := 0, 0.0, 0.0, None, None;
      rates := [];
      CollectNothing();
    }
  }

  // ---------------------------------------------------- the figures, from the rates alone

  function Distances(xs: seq<real>, c: real): real
  {
    if xs == [] then 0.0
    else var x := xs[|xs| - 1]; Distances(xs[..|xs| - 1], c) + (x - c) * (x - c)
  }

  ghost predicate IsRoot(f: real -> real)
  {
    forall x :: x >= 0.0 ==> f(x) >= 0.0 && f(x) * f(x) == x
  }

  /** What a figure should be, given the rates it is about. */
  ghost predicate Right(xs: seq<real>, sqrt: real -> real, f: Figure, v: real)
  {
    match f
    case Num => v == |xs| as real
    case TheSum => v == Sum(xs, x => x)
    case TheAverage => v * (|xs| as real) == Sum(xs, x => x)
    case TheMin => v in xs && forall x :: x in xs ==> v <= x
    case TheMax => v in xs && forall x :: x in xs ==> x <= v
    case Stddev => IsRoot(sqrt) ==>
      v >= 0.0 && forall mean :: mean * (|xs| as real) == Sum(xs, x => x) ==>
        v * v * (|xs| as real) == Distances(xs, mean)
  }

  /** Every figure that is switched on is dispatched, the count always and the others if there were rates, and each
      is what it should be. */
  ghost predicate Truthful(xs: seq<real>, sqrt: real -> real, on: set<Figure>, d: map<Figure, real>)
  {
    && (forall f :: f in d <==> f in on && (f == Num || xs != []))
    && (forall f :: f in d ==> Right(xs, sqrt, f, d[f]))
  }

  lemma {:induction false} DistancesDeviate(xs: seq<real>, c: real)
    ensures Distances(xs, c) == Deviation(xs, c)
  {
    if xs != [] {
      DistancesDeviate(xs[..|xs| - 1], c);
    }
  }

  lemma {:induction false} Quotient(n: real, t: real, a: real)
    requires n > 0.0
    ensures Average(n, t) * n == t
    ensures a * n == t ==> a == Average(n, t)
  {
    ScaleAverage(n, t);
    if a * n == t {
      Cancel(n, a, Average(n, t));
    }
  }

  lemma {:induction false} RightDeviation(xs: seq<real>, sqrt: real -> real, v: real)
    requires xs != [] && ValueOf(ReportOf(Collect(xs), sqrt), Stddev) == Some(v)
    ensures Right(xs, sqrt, Stddev, v)
  {
    hide Average, Radicand, Square, Deviation, Distances;
    if IsRoot(sqrt) {
      RootIsSqrt(sqrt);
      ReportedDeviation(xs, sqrt);
      CollectMeaning(xs);
      var n, t := |xs| as real, Sum(xs, x => x);
      forall mean | mean * n == t ensures v * v * n == Distances(xs, mean) {
        Quotient(n, t, mean);
        DistancesDeviate(xs, mean);
        SquareTimes(n, v, Deviation(xs, mean));
      }
    }
  }

  lemma {:induction false} SquareTimes(n: real, v: real, d: real)
    requires n > 0.0 && Square(v) == Average(n, d)
    ensures v * v * n == d
  {
    hide Average;
    Quotient(n, d, 0.0);
  }

  lemma {:induction false} RootIsSqrt(f: real -> real)
    requires IsRoot(f)
    ensures IsSqrt(f)
  {
  }

  /** The report says the truth about the rates. */
  lemma {:induction false} ReportTruth(xs: seq<real>, sqrt: real -> real, f: Figure)
    ensures ValueOf(ReportOf(Collect(xs), sqrt), f).Some? <==> f == Num || xs != []
    ensures var v := ValueOf(ReportOf(Collect(xs), sqrt), f); v.Some? ==> Right(xs, sqrt, f, v.value)
  {
    hide Average, Radicand, Square, Deviation, Distances, Collect;
    CollectMeaning(xs);
    if xs != [] {
      if f == Stddev {
        RightDeviation(xs, sqrt, ValueOf(ReportOf(Collect(xs), sqrt), f).value);
      }
      Quotient(|xs| as real, Sum(xs, x => x), 0.0);
    }
  }

  lemma {:induction false} DispatchedTruth(xs: seq<real>, sqrt: real -> real, on: set<Figure>, d: map<Figure, real>)
    requires var report := ReportOf(Collect(xs), sqrt);
             && (forall f :: f in d <==> f in on && ValueOf(report, f).Some?)
             && (forall f :: f in d ==> ValueOf(report, f) == Some(d[f]))
    ensures Truthful(xs, sqrt, on, d)
  {
    hide ReportOf, ValueOf, Collect, Right;
    forall f: Figure
      ensures f in d <==> f in on && (f == Num || xs != [])
      ensures f in d ==> Right(xs, sqrt, f, d[f])
    {
      ReportTruth(xs, sqrt, f);
    }
  }

  // -------------------------------------------------------------------- dispatching

  /** The order in which the figures are dispatched. */
  function Order(f: Figure): nat
  {
    match f
    case Num => 0
    case TheSum => 1
    case TheAverage => 2
    case TheMin => 3
    case TheMax => 4
    case Stddev => 5
  }

  /** Of the first `k` figures, exactly those switched on that have a value were dispatched. */
  ghost predicate Offered(d: map<Figure, real>, on: set<Figure>, report: Report, k: nat)
  {
    forall f :: if f in on && Order(f) < k && ValueOf(report, f).Some? then f in d && d[f] == ValueOf(report, f).value
                else f !in d
  }

  /** The reporting part of `agg_instance_read`. */
  method Dispatch(s: Stats, sqrt: real -> real, on: set<Figure>) returns (d: map<Figure, real>)
    requires s.num > 0 ==> s.min.Some? && s.max.Some?
    ensures Offered(d, on, ReportOf(s, sqrt), 6)
  {
    hide Average, Radicand, Offered;
    ghost var report := ReportOf(s, sqrt);
    OfferedNothing(on, report);
    d := Offer(map[], on, Num, s.num as real, report, 0);
    if s.num > 0 {
      var n := s.num as real;
      d := Offer(d, on, TheSum, s.sum, report, 1);
      d := Offer(d, on, TheAverage, Average(n, s.sum), report, 2);
      d := Offer(d, on, TheMin, s.min.value, report, 3);
      d := Offer(d, on, TheMax, s.max.value, report, 4);
      d := Offer(d, on, Stddev, Average(n, sqrt(Radicand(n, s.sum, s.squares))), report, 5);
    } else {
      OnlyTheCount(d, on, report);
    }
  }

  /** `READ_FUNC`. */
  method Offer(d: map<Figure, real>, on: set<Figure>, f: Figure, v: real, ghost report: Report, ghost k: nat)
    returns (r: map<Figure, real>)
    requires Offered(d, on, report, k) && Order(f) == k && ValueOf(report, f) == Some(v)
    ensures Offered(r, on, report, k + 1)
  {
    forall g: Figure | Order(g) == k ensures g == f {
      SameOrder(f, g);
    }
    r := if f in on then d[f := v] else d;
  }

  lemma {:induction false} SameOrder(f: Figure, g: Figure)
    requires Order(f) == Order(g)
    ensures f == g
  {
  }

  lemma {:induction false} OfferedNothing(on: set<Figure>, report: Report)
    ensures Offered(map[], on, report, 0)
  {
  }

  lemma {:induction false} OnlyTheCount(d: map<Figure, real>, on: set<Figure>, report: Report)
    requires Offered(d, on, report, 1) && report.figures.None?
    ensures Offered(d, on, report, 6)
  {
    forall f: Figure | f != Num ensures Order(f) >= 1 && ValueOf(report, f).None? {
      if Order(f) == 0 {
        SameOrder(f, Num);
      }
    }
  }

  lemma {:induction false} OfferedAll(d: map<Figure, real>, on: set<Figure>, report: Report)
    requires Offered(d, on, report, 6)
    ensures forall f :: f in d <==> f in on && ValueOf(report, f).Some?
    ensures forall f :: f in d ==> ValueOf(report, f) == Some(d[f])
  {
    hide ValueOf;
    forall f: Figure ensures Order(f) < 6 {
    }
  }

  lemma {:induction false} CollectNothing()
    ensures Collect([]) == EMPTY
  {
  }

  lemma {:induction false} CollectSizes(xs: seq<real>)
    ensures var s := Collect(xs); s.num == |xs| && (xs != [] ==> s.min.Some? && s.max.Some?)
  {
    CollectMeaning(xs);
  }
}
