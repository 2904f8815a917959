/** The fluency test: read a text against the clock, count the errors, and get
    a score in characters a minute with a rating band. */
module Wcpm {
  import opened Texts

  // ---------------------------------------------------------------------------
  // The score
  // ---------------------------------------------------------------------------

  /** The rate the formula computes before rounding, in real arithmetic:
      `(wordCount - errors) / (duration / 1000) * 60` for a duration in ms. */
  ghost function Rate(wordCount: int, errors: int, duration: int): real
    requires duration > 0
  {
    ((wordCount - errors) as real / (duration as real / 1000.0)) * 60.0
  }

  /** `Math.round` of the rate, in integers: `Math.round(x)` is `floor(x + 1/2)`,
      and `x + 1/2 == (120000 * (W - E) + D) / (2 * D)` for a duration of D ms.
      The score is not clamped: it is negative when the errors outweigh the
      characters by enough. */
  function Score(wordCount: int, errors: int, duration: int): (r: int)
    requires duration > 0
    ensures r < 0 <==> 120000 * (errors - wordCount) > duration
  {
    var n := 120000 * (wordCount - errors) + duration;
    FloorDivSign(n, 2 * duration);
    n / (2 * duration)
  }

  /** Floor division by a positive number is negative exactly for a negative
      dividend. */
  lemma FloorDivSign(n: int, d: int)
    requires d > 0
    ensures n / d < 0 <==> n < 0
  {
    assert n == d * (n / d) + n % d && 0 <= n % d < d;
    if n / d < 0 {
      assert d * (n / d) <= -d;
    } else {
      assert d * (n / d) >= 0;
    }
  }

  /** The score is the rate rounded half up: the rate lies within half a unit
      below or just under half a unit above it. */
  lemma ScoreRoundsRate(wordCount: int, errors: int, duration: int)
    requires duration > 0
    ensures var r := Score(wordCount, errors, duration) as real;
            r - 0.5 <= Rate(wordCount, errors, duration) < r + 0.5
  {
    var n := 120000 * (wordCount - errors) + duration;
    var q := n / (2 * duration);
    var m := n % (2 * duration);
    assert Score(wordCount, errors, duration) == q;
    assert n == (2 * duration) * q + m && 0 <= m < 2 * duration;
    CastMul(2 * duration, q);
    RateTimesDuration(wordCount, errors, duration);
    Bracket(Rate(wordCount, errors, duration) + 0.5, q as real, m as real, (2 * duration) as real);
  }

  /** `x` lies in `[q, q + 1)` when `x * c` is `q * c` plus a remainder in
      `[0, c)`. */
  lemma Bracket(x: real, q: real, m: real, c: real)
    requires c > 0.0 && 0.0 <= m < c && x * c == q * c + m
    ensures q <= x < q + 1.0
  {
    var f := x - q;
    assert f * c == m;
    Scale(f, c);
    assert 0.0 <= f < 1.0;
  }

  /** The rate times the duration in ms is 60000 times the characters read
      correctly. */
  lemma RateTimesDuration(wordCount: int, errors: int, duration: int)
    requires duration > 0
    ensures (Rate(wordCount, errors, duration) + 0.5) * (2 * duration) as real
            == (120000 * (wordCount - errors) + duration) as real
  {
    var w := (wordCount - errors) as real;
    var d := duration as real;
    var s := d / 1000.0;
    var t := w / s;
    assert t * s == w;
    var rate := Rate(wordCount, errors, duration);
    assert rate == t * 60.0;
    assert rate * d == 60000.0 * (t * s);
  }

  lemma CastMul(a: int, b: int)
    ensures (a * b) as real == a as real * b as real
  {
  }

  /** Two worked examples: 100 characters in one minute score 100, and 100
      characters with 10 errors in 45 seconds score 120. */
  lemma ScoreExamples()
    ensures Score(100, 0, 60000) == 100
    ensures Score(100, 10, 45000) == 120
  {
  }

  /** More errors never raise the score. */
  lemma {:induction false} ScoreFallsWithErrors(wordCount: int, e1: int, e2: int, duration: int)
    requires duration > 0 && e1 <= e2
    ensures Score(wordCount, e2, duration) <= Score(wordCount, e1, duration)
  {
    var a := 120000 * (wordCount - e2) + duration;
    var b := 120000 * (wordCount - e1) + duration;
    assert a <= b;
    DivMonotone(a, b, 2 * duration);
  }

  /** With no more errors than characters, the score is never negative; with
      more, it is never positive. */
  lemma ScoreSign(wordCount: int, errors: int, duration: int)
    requires duration > 0
    ensures errors <= wordCount ==> Score(wordCount, errors, duration) >= 0
    ensures errors > wordCount ==> Score(wordCount, errors, duration) <= 0
  {
    var n := 120000 * (wordCount - errors) + duration;
    if errors > wordCount {
      assert n < 2 * duration;
      DivMonotone(n, 2 * duration - 1, 2 * duration);
    }
  }

  lemma DivMonotone(a: int, b: int, d: int)
    requires d > 0 && a <= b
    ensures a / d <= b / d
  {
    var qa, qb := a / d, b / d;
    assert a == d * qa + a % d && 0 <= a % d < d;
    assert b == d * qb + b % d && 0 <= b % d < d;
    MulStep(d, qb, qa);
  }

  lemma MulStep(d: int, x: int, y: int)
    requires d > 0
    ensures x < y ==> d * x + d <= d * y
  {
    if x < y {
      assert d * y == d * x + d * (y - x);
      MulAtLeast(d, y - x);
    }
  }

  lemma {:induction false} MulAtLeast(d: int, k: int)
    requires d > 0 && k >= 1
    ensures d * k >= d
    decreases k
  {
    if k > 1 {
      MulAtLeast(d, k - 1);
      assert d * k == d * (k - 1) + d;
    }
  }

  /** Scaling by a positive factor keeps a number's side of 0 and of 1. */
  lemma Scale(x: real, c: real)
    requires c > 0.0
    ensures x < 0.0 ==> x * c < 0.0
    ensures x >= 1.0 ==> x * c >= c
  {
    assert x * c - c == (x - 1.0) * c;
  }

  // ---------------------------------------------------------------------------
  // The rating bands
  // ---------------------------------------------------------------------------

  datatype Band = Outstanding | Excellent | Average | NeedsPractice

  /** `getNormStatus`: the thresholds 300, 200 and 150 tried from the top. Each
      score falls in exactly one band, given by its interval. */
  function NormStatus(wcpm: int): (b: Band)
    ensures b == Outstanding <==> wcpm >= 300
    ensures b == Excellent <==> 200 <= wcpm < 300
    ensures b == Average <==> 150 <= wcpm < 200
    ensures b == NeedsPractice <==> wcpm < 150
  {
    if wcpm >= 300 then Outstanding
    else if wcpm >= 200 then Excellent
    else if wcpm >= 150 then Average
    else NeedsPractice
  }

  /** How good a band is, from worst to best. */
  function BandRank(b: Band): nat
  {
    match b
    case NeedsPractice => 0
    case Average => 1
    case Excellent => 2
    case Outstanding => 3
  }

  /** A higher score never gets a worse band. */
  lemma NormStatusMonotone(a: int, b: int)
    requires a <= b
    ensures BandRank(NormStatus(a)) <= BandRank(NormStatus(b))
  {
  }

  function Label(b: Band): string
  {
    match b
    case Outstanding => "卓越 (Top 10%)"
    case Excellent => "优秀 (Top 25%)"
    case Average => "平均水平"
    case NeedsPractice => "需要练习"
  }

  function Color(b: Band): string
  {
    match b
    case Outstanding => "text-emerald-600"
    case Excellent => "text-blue-600"
    case Average => "text-amber-600"
    case NeedsPractice => "text-red-600"
  }

  // ---------------------------------------------------------------------------
  // The test's steps
  // ---------------------------------------------------------------------------

  datatype StepName = Intro | Reading | Scoring | Result

  /** The test's state. `text` is the text being read. */
  class WcpmTest {
    var text: ReadingText
    var step: StepName
    var startTime: int
    var duration: int
    var errors: int
    var score: int

    /** The test as first shown, on `text`. */
    constructor (t: ReadingText)
      ensures text == t && step == Intro
      ensures startTime == 0 && duration == 0 && errors == 0 && score == 0
    {
      text := t;
      step := Intro;
      startTime := 0;
      duration := 0;
      errors := 0;
      score := 0;
    }

    /** `startTest` at time `now`: reading begins with the clock at zero. */
    method StartTest(now: int)
      modifies this
      ensures step == Reading
      ensures startTime == now && duration == 0
      ensures text == old(text) && errors == old(errors) && score == old(score)
    {
      step := Reading;
      startTime := now;
      duration := 0;
    }

    /** One firing of the 100 ms clock at time `now`, which runs only while
        reading. */
    method TimerTick(now: int)
      modifies this`duration
      ensures duration == if step == Reading then now - startTime else old(duration)
    {
      if step == Reading {
        duration := now - startTime;
      }
    }

    /** `finishReading`: the clock stops where it was. */
    method FinishReading()
      modifies this`step
      ensures step == Scoring
    {
      step := Scoring;
    }

    /** Typing the number of errors: any integer is taken as it is. */
    method SetErrors(e: int)
      modifies this`errors
      ensures errors == e
    {
      errors := e;
    }

    /** `calculateScore`: only the score and the step change. */
    method CalculateScore()
      requires duration > 0
      modifies this`score, this`step
      ensures score == Score(text.wordCount, errors, duration)
      ensures step == Result
    {
      var wcpm := (120000 * (text.wordCount - errors) + duration) / (2 * duration);
      score := wcpm;
      step := Result;
    }

    /** The retry button: back to the start with the errors cleared. */
    method Retry()
      modifies this`step, this`errors
      ensures step == Intro && errors == 0
    {
      step := Intro;
      errors := 0;
    }
  }
}
