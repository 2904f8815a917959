/** The attention grid: a shuffled `size × size` grid of the numbers 1..size²,
    clicked in ascending order while a clock runs. */
module Schulte {
  import opened Texts

  /** The numbers 1, 2, …, n in order (the grid before shuffling). */
  function Range(n: nat): (r: seq<int>)
    ensures |r| == n
    ensures forall k | 0 <= k < n :: r[k] == k + 1
  {
    seq(n, k => k + 1)
  }

  /** `s` holds the numbers 1..n, each once, in some order. */
  predicate IsPermutationOfRange(s: seq<int>, n: nat)
  {
    |s| == n && multiset(s) == multiset(Range(n))
  }

  lemma {:induction false} RangeCount(n: nat, v: int)
    ensures multiset(Range(n))[v] == if 1 <= v <= n then 1 else 0
  {
    if n > 0 {
      assert Range(n) == Range(n - 1) + [n];
      RangeCount(n - 1, v);
    }
  }

  /** A permutation of 1..n spelled out: every entry lies in 1..n, every
      number of 1..n is present, and no number appears twice. */
  lemma PermutationOfRangeFacts(s: seq<int>, n: nat)
    requires IsPermutationOfRange(s, n)
    ensures forall k | 0 <= k < |s| :: 1 <= s[k] <= n
    ensures forall v | 1 <= v <= n :: v in s
    ensures forall p, q | 0 <= p < q < |s| :: s[p] != s[q]
  {
    forall k | 0 <= k < |s| ensures 1 <= s[k] <= n {
      assert s[k] in multiset(s);
      RangeCount(n, s[k]);
    }
    forall v | 1 <= v <= n ensures v in s {
      RangeCount(n, v);
      assert v in multiset(s);
    }
    forall p, q | 0 <= p < q < |s| ensures s[p] != s[q] {
      if s[p] == s[q] {
        var v := s[p];
        assert s == s[..q] + [s[q]] + s[q + 1..];
        assert v in multiset(s[..q]) by { assert s[..q][p] == v; }
        assert multiset(s)[v] >= 2;
        RangeCount(n, v);
      }
    }
  }

  /** `generateGrid`'s Fisher–Yates pass over `[1..total]`, in place on an array.
      Each step swaps position i with some j in [0, i], chosen by `Math.random` in
      the drill; here the choice is left open, so the result holds for every choice.
      The positions above i are settled: each step only puts one more value in
      front of them (`settled`) and never touches them again. */
  method ShuffledRange(total: nat) returns (nums: seq<int>)
    ensures IsPermutationOfRange(nums, total)
    ensures forall k | 0 <= k < |nums| :: 1 <= nums[k] <= total
    ensures forall p, q | 0 <= p < q < |nums| :: nums[p] != nums[q]
  {
    var a := new int[total](k => k + 1);
    assert a[..] == Range(total);
    var i := total - 1;
    ghost var settled: seq<int> := [];
    while i > 0
      invariant -1 <= i < total
      invariant multiset(a[..]) == multiset(Range(total))
      invariant a[i + 1..] == settled
    {
      var j :| 0 <= j <= i;
      ghost var before := a[..];
      a[i], a[j] := a[j], a[i];
      assert a[..] == before[i := before[j]][j := before[i]];
      SwapFacts(before, a[..], i, j);
      settled := [a[i]] + settled;
      i := i - 1;
    }
    nums := a[..];
    PermutationOfRangeFacts(nums, total);
  }

  /** Swapping positions `j <= i` keeps the values and leaves everything
      above `i` in place. */
  lemma SwapFacts(before: seq<int>, after: seq<int>, i: int, j: int)
    requires 0 <= j <= i < |before|
    requires after == before[i := before[j]][j := before[i]]
    ensures multiset(after) == multiset(before)
    ensures after[i + 1..] == before[i + 1..]
    ensures after[i..] == [after[i]] + after[i + 1..]
  {
  }

  datatype Status = Idle | Running | Finished

  /** The part of the drill's state that a click can change. */
  datatype Round = Round(status: Status, nextExpected: int, finished: bool)

  /** The round as `generateGrid` leaves it. */
  const FreshRound := Round(Idle, 1, false)

  /** `handleCellClick(num)` on a grid of `total` cells. */
  function Clicked(r: Round, num: int, total: int): Round
  {
    match r.status
    case Finished => r
    case Idle => if num == 1 then r.(status := Running, nextExpected := 2) else r
    case Running =>
      if num != r.nextExpected then r
      else if num == total then r.(status := Finished, finished := true)
      else r.(nextExpected := r.nextExpected + 1)
  }

  /** The clicks of `nums`, in order. */
  function ClickAll(r: Round, nums: seq<int>, total: int): Round
  {
    if nums == [] then r
    else Clicked(ClickAll(r, nums[..|nums| - 1], total), nums[|nums| - 1], total)
  }

  /** What every reachable round satisfies on a grid of `total >= 2` cells. */
  predicate RoundInvariant(r: Round, total: int)
  {
    && (r.status == Finished <==> r.finished)
    && (r.status == Idle ==> r.nextExpected == 1)
    && (r.status == Running ==> 2 <= r.nextExpected <= total)
    && (r.status == Finished ==> r.nextExpected == total)
  }

  function StatusRank(s: Status): nat
  {
    match s
    case Idle => 0
    case Running => 1
    case Finished => 2
  }

  /** A click changes the round only when it is the 1 that starts it or the
      number expected next; it never moves the round backwards, moves the
      cursor by at most one, and keeps the invariant. */
  lemma ClickStep(r: Round, num: int, total: int)
    requires total >= 2 && RoundInvariant(r, total)
    ensures var r' := Clicked(r, num, total);
            && RoundInvariant(r', total)
            && StatusRank(r.status) <= StatusRank(r'.status)
            && r.nextExpected <= r'.nextExpected <= r.nextExpected + 1
            && (r' != r ==> (r.status == Idle && num == 1) || (r.status == Running && num == r.nextExpected))
  {
  }

  /** Any sequence of clicks, right or wrong, keeps the invariant. */
  lemma {:induction false} ClickAllKeepsInvariant(r: Round, nums: seq<int>, total: int)
    requires total >= 2 && RoundInvariant(r, total)
    ensures RoundInvariant(ClickAll(r, nums, total), total)
  {
    if nums != [] {
      ClickAllKeepsInvariant(r, nums[..|nums| - 1], total);
      ClickStep(ClickAll(r, nums[..|nums| - 1], total), nums[|nums| - 1], total);
    }
  }

  /** A finished round ignores every later click until the grid is regenerated. */
  lemma {:induction false} FinishedIsAbsorbing(r: Round, nums: seq<int>, total: int)
    requires r.status == Finished
    ensures ClickAll(r, nums, total) == r
  {
    if nums != [] {
      FinishedIsAbsorbing(r, nums[..|nums| - 1], total);
    }
  }

  /** Clicking 1, 2, …, k on a fresh grid of `total >= 2` cells: the round is
      running and expects k + 1 while k < total, and it is finished, with the
      cursor left at `total`, exactly when k reaches total. */
  lemma {:induction false} ClickingInOrder(k: nat, total: int)
    requires total >= 2 && k <= total
    ensures ClickAll(FreshRound, Range(k), total) ==
              if k == 0 then FreshRound
              else if k < total then Round(Running, k + 1, false)
              else Round(Finished, total, true)
  {
    if k > 0 {
      assert Range(k)[..k - 1] == Range(k - 1);
      ClickingInOrder(k - 1, total);
    }
  }

  /** The drill's state. `numbers` is the grid, read left to right and top to bottom. */
  class SchulteTable {
    var gridSize: nat
    var numbers: seq<int>
    var nextExpected: int
    var startTime: Option<int>
    var elapsed: real
    var finished: bool
    var status: Status

    function Total(): int
      reads this
    {
      gridSize * gridSize
    }

    function CurrentRound(): Round
      reads this
    {
      Round(status, nextExpected, finished)
    }

    ghost predicate Valid()
      reads this
    {
      && gridSize >= 2
      && IsPermutationOfRange(numbers, Total())
      && RoundInvariant(CurrentRound(), Total())
      && (status == Idle ==> startTime == None && elapsed == 0.0)
      && (status != Idle ==> startTime.Some?)
    }

    /** Mounting the drill at a level: the initial state, then `generateGrid`. */
    constructor (size: nat)
      requires size >= 2
      ensures Valid() && gridSize == size
      ensures CurrentRound() == FreshRound && startTime == None && elapsed == 0.0
    {
      gridSize := size;
      numbers := [];
      nextExpected := 1;
      startTime := None;
      elapsed := 0.0;
      finished := false;
      status := Idle;
      new;
      GenerateGrid();
    }

    /** `generateGrid`: a new shuffled grid and a reset round. */
    method GenerateGrid()
      requires gridSize >= 2
      modifies this
      ensures Valid() && gridSize == old(gridSize)
      ensures IsPermutationOfRange(numbers, Total())
      ensures CurrentRound() == FreshRound && startTime == None && elapsed == 0.0
    {
      var nums := ShuffledRange(gridSize * gridSize);
      numbers := nums;
      nextExpected := 1;
      finished := false;
      elapsed := 0.0;
      startTime := None;
      status := Idle;
    }

    /** Picking a level. Another size regenerates the grid at that size; the
        level already shown (levels differ in size) leaves the state as it is,
        since the grid generator, and so the effect that calls it, only change
        with the size. */
    method SelectLevel(size: nat)
      requires Valid() && size >= 2
      modifies this
      ensures Valid() && gridSize == size
      ensures size != old(gridSize) ==>
                CurrentRound() == FreshRound && startTime == None && elapsed == 0.0
      ensures size == old(gridSize) ==>
                && numbers == old(numbers) && CurrentRound() == old(CurrentRound())
                && startTime == old(startTime) && elapsed == old(elapsed)
    {
      if size != gridSize {
        gridSize := size;
        GenerateGrid();
      }
    }

    /** `handleCellClick(num)` at time `now`: the grid itself never changes. */
    method Click(num: int, now: int)
      requires Valid()
      modifies this
      ensures Valid()
      ensures CurrentRound() == Clicked(old(CurrentRound()), num, Total())
      ensures gridSize == old(gridSize) && numbers == old(numbers) && elapsed == old(elapsed)
      ensures startTime == if old(status) == Idle && num == 1 then Some(now) else old(startTime)
    {
      if status == Finished {
        return;
      }
      if status == Idle {
        if num == 1 {
          status := Running;
          startTime := Some(now);
          nextExpected := 2;
        }
        return;
      }
      if num == nextExpected {
        if num == gridSize * gridSize {
          status := Finished;
          finished := true;
        } else {
          nextExpected := nextExpected + 1;
        }
      }
    }

    /** One firing of the 100 ms display clock at time `now`. The clock runs
        only while the round is running and its start time is truthy. */
    method TimerTick(now: int)
      requires Valid()
      modifies this`elapsed
      ensures Valid()
      ensures elapsed == if status == Running && startTime.Some? && startTime.value != 0
                         then (now - startTime.value) as real / 1000.0
                         else old(elapsed)
    {
      if status == Running && startTime.Some? && startTime.value != 0 {
        elapsed := (now - startTime.value) as real / 1000.0;
      }
    }
  }
}
