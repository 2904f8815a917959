/** The semantic-chunking drill: the chunks a text is shown in, either the
    text's own or cut automatically at Chinese punctuation and every 4 units
    of a long run, and the clean-up applied to each chunk before display. */
module Chunking {
  import opened Texts
  import opened JsText

  /** The punctuation the chunker splits on: ，。；：、！？ */
  predicate IsMark(c: char)
  {
    c == '，' || c == '。' || c == '；' || c == '：' || c == '、' || c == '！' || c == '？'
  }

  predicate NoMarks(s: string)
  {
    forall i | 0 <= i < |s| :: !IsMark(s[i])
  }

  predicate AllMarks(s: string)
  {
    forall i | 0 <= i < |s| :: IsMark(s[i])
  }

  /** Shown when a text without chunks has blank content. */
  const NoContent: string := "暂无内容"

  /** The first index from `i` on whose unit is a mark when `marks` is false,
      or is not a mark when `marks` is true; `|s|` when there is none. So
      `Scan(s, i, false)` ends a text run and `Scan(s, i, true)` a run of marks. */
  function Scan(s: string, i: nat, marks: bool): (j: nat)
    requires i <= |s|
    ensures i <= j <= |s| && (j < |s| ==> IsMark(s[j]) != marks)
    decreases |s| - i
  {
    if i == |s| || IsMark(s[i]) != marks then i else Scan(s, i + 1, marks)
  }

  /** Everything `Scan` passes over is of the kind it scans. */
  lemma {:induction false} ScanSpan(s: string, i: nat, marks: bool)
    requires i <= |s|
    ensures forall k | i <= k < Scan(s, i, marks) :: IsMark(s[k]) == marks
    decreases |s| - i
  {
    if i < |s| && IsMark(s[i]) == marks {
      ScanSpan(s, i + 1, marks);
    }
  }

  lemma {:induction false} ScanShift(x: string, t: string, j: nat, marks: bool)
    requires j <= |t|
    ensures Scan(x + t, |x| + j, marks) == |x| + Scan(t, j, marks)
    decreases |t| - j
  {
    if j < |t| {
      assert (x + t)[|x| + j] == t[j];
      ScanShift(x, t, j + 1, marks);
    }
  }

  /** Scanning `x + t` from inside `x` stops in `x` when the scan of `x` does,
      and otherwise goes on into `t`. */
  lemma {:induction false} ScanAppend(x: string, t: string, i: nat, marks: bool)
    requires i <= |x|
    ensures Scan(x + t, i, marks) ==
              if Scan(x, i, marks) < |x| then Scan(x, i, marks) else |x| + Scan(t, 0, marks)
    decreases |x| - i
  {
    if i < |x| {
      assert (x + t)[i] == x[i];
      if IsMark(x[i]) == marks {
        ScanAppend(x, t, i + 1, marks);
      }
    } else {
      ScanShift(x, t, 0, marks);
    }
  }

  /** `content.split(/([，。；：、！？])/)`: because the pattern captures, the
      marks stay in the result, so it alternates text (possibly empty, never
      holding a mark) and single marks, starting and ending with text, and the
      parts spell the content back. */
  function SplitOnMarks(s: string): (parts: seq<string>)
    ensures Alternates(parts)
  {
    if s == [] then [""]
    else
      var rest := SplitOnMarks(s[1..]);
      if IsMark(s[0]) then
        AlternatesAfterMark(s[0], rest);
        ["", [s[0]]] + rest
      else
        AlternatesAfterText(s[0], rest);
        [[s[0]] + rest[0]] + rest[1..]
  }

  lemma AlternatesAfterMark(m: char, rest: seq<string>)
    requires IsMark(m) && Alternates(rest)
    ensures Alternates(["", [m]] + rest)
  {
    var parts := ["", [m]] + rest;
    forall k | 2 <= k < |parts| ensures parts[k] == rest[k - 2] {
    }
  }

  lemma AlternatesAfterText(c: char, rest: seq<string>)
    requires !IsMark(c) && Alternates(rest)
    ensures Alternates([[c] + rest[0]] + rest[1..])
  {
    var first := [c] + rest[0];
    var parts := [first] + rest[1..];
    assert NoMarks(first) by {
      forall i | 0 <= i < |first| ensures !IsMark(first[i]) {
        if i > 0 {
          assert first[i] == rest[0][i - 1];
        }
      }
    }
    forall k | 1 <= k < |parts| ensures parts[k] == rest[k] {
    }
  }

  /** Text without marks (possibly empty) at even positions, single marks at
      odd ones, text first and last. */
  predicate Alternates(parts: seq<string>)
  {
    && |parts| % 2 == 1
    && (forall k | 0 <= k < |parts| && k % 2 == 0 :: NoMarks(parts[k]))
    && (forall k | 0 <= k < |parts| && k % 2 == 1 :: |parts[k]| == 1 && IsMark(parts[k][0]))
  }

  /** The parts of the split spell the content back. */
  lemma {:induction false} SplitOnMarksSpells(s: string)
    ensures Concat(SplitOnMarks(s)) == s
  {
    if s != [] {
      SplitOnMarksSpells(s[1..]);
      assert s == [s[0]] + s[1..];
      if IsMark(s[0]) {
        SpellsAfterMark(s[0], SplitOnMarks(s[1..]));
      } else {
        SpellsAfterText(s[0], SplitOnMarks(s[1..]));
      }
    }
  }

  lemma SpellsAfterMark(m: char, rest: seq<string>)
    ensures Concat(["", [m]] + rest) == [m] + Concat(rest)
  {
    var parts := ["", [m]] + rest;
    assert parts[1..] == [[m]] + rest && parts[1..][1..] == rest;
  }

  lemma SpellsAfterText(c: char, rest: seq<string>)
    requires rest != []
    ensures Concat([[c] + rest[0]] + rest[1..]) == [c] + Concat(rest)
  {
    var parts := [[c] + rest[0]] + rest[1..];
    assert parts[1..] == rest[1..];
  }

  /** A text run cut into slices of 4 units: every slice but the last has 4
      units, the last has 1 to 4, there are ⌈L/4⌉ of them for a run of length
      L, and together they spell the run. */
  function Quarters(run: string): (r: seq<string>)
    requires run != []
    ensures |r| == (|run| + 3) / 4
    ensures forall k | 0 <= k < |r| - 1 :: |r[k]| == 4
    ensures 1 <= |r[|r| - 1]| <= 4
    decreases |run|
  {
    if |run| <= 4 then [run] else [run[..4]] + Quarters(run[4..])
  }

  /** The slices spell the run back, so none holds a mark when the run holds none. */
  lemma {:induction false} QuartersSpell(run: string)
    requires run != []
    ensures Concat(Quarters(run)) == run
    ensures NoMarks(run) ==> forall k | 0 <= k < |Quarters(run)| :: NoMarks(Quarters(run)[k])
    decreases |run|
  {
    if |run| > 4 {
      var rest := Quarters(run[4..]);
      QuartersSpell(run[4..]);
      assert run == run[..4] + run[4..];
      var r := Quarters(run);
      assert r[1..] == rest;
      if NoMarks(run) {
        assert NoMarks(run[4..]);
        forall k | 0 <= k < |r| ensures NoMarks(r[k]) {
          if k > 0 { assert r[k] == rest[k - 1]; }
        }
      }
    }
  }

  /** What a text run between marks becomes: itself when it has at most 8
      units, its 4-unit slices otherwise. */
  function Slices(run: string): (r: seq<string>)
    requires run != []
    ensures |r| >= 1
    ensures forall k | 0 <= k < |r| :: 1 <= |r[k]| <= 8
  {
    if |run| > 8 then Quarters(run) else [run]
  }

  lemma SlicesSpell(run: string)
    requires run != []
    ensures Concat(Slices(run)) == run
    ensures NoMarks(run) ==> forall k | 0 <= k < |Slices(run)| :: NoMarks(Slices(run)[k])
  {
    if |run| > 8 {
      QuartersSpell(run);
    } else {
      assert Concat([run]) == run;
    }
  }

  /** `marks` appended to the last chunk; with no chunk yet they have nowhere to go. */
  function AttachMarks(chunks: seq<string>, marks: string): seq<string>
  {
    if chunks == [] then [] else chunks[..|chunks| - 1] + [chunks[|chunks| - 1] + marks]
  }

  /** The automatic chunks of `s`, read off its characters: leading marks are
      lost, then each text run gives its slices and the marks that follow it
      are appended to the last of them. */
  function AutoChunks(s: string): seq<string>
    decreases |s|
  {
    if s == [] then []
    else if IsMark(s[0]) then AutoChunks(s[1..])
    else
      var n := Scan(s, 0, false);
      var e := Scan(s, n, true);
      AttachMarks(Slices(s[..n]), s[n..e]) + AutoChunks(s[e..])
  }

  /** The shape of every automatic chunk: 1 to 8 units that are not marks,
      then only marks. In particular no chunk starts with a mark. */
  predicate WellShaped(c: string)
  {
    var n := Scan(c, 0, false);
    1 <= n <= 8 && AllMarks(c[n..])
  }

  predicate AllWellShaped(chunks: seq<string>)
  {
    forall k | 0 <= k < |chunks| :: WellShaped(chunks[k])
  }

  lemma AttachMarksAppend(a: seq<string>, b: seq<string>, marks: string)
    requires b != []
    ensures AttachMarks(a + b, marks) == a + AttachMarks(b, marks)
  {
    assert (a + b)[..|a + b| - 1] == a + b[..|b| - 1];
  }

  lemma AttachMarksTwice(c: seq<string>, m1: string, m2: string)
    ensures AttachMarks(AttachMarks(c, m1), m2) == AttachMarks(c, m1 + m2)
  {
    if c != [] {
      var a := AttachMarks(c, m1);
      assert a[..|a| - 1] == c[..|c| - 1];
      assert a[|a| - 1] + m2 == c[|c| - 1] + (m1 + m2);
    }
  }

  lemma AttachNothing(c: seq<string>)
    ensures AttachMarks(c, []) == c
  {
    if c != [] {
      assert c[|c| - 1] + [] == c[|c| - 1];
    }
  }

  /** Appending to the last chunk is the in-place update `chunks[last] += marks`. */
  lemma AttachIsUpdate(c: seq<string>, marks: string)
    requires c != []
    ensures AttachMarks(c, marks) == c[|c| - 1 := c[|c| - 1] + marks]
  {
  }

  lemma ConcatAttach(c: seq<string>, marks: string)
    requires c != []
    ensures Concat(AttachMarks(c, marks)) == Concat(c) + marks
  {
    var init, last := c[..|c| - 1], c[|c| - 1];
    assert c == init + [last];
    ConcatAppend(init, [last]);
    ConcatAppend(init, [last + marks]);
    assert Concat([last]) == last;
    assert Concat([last + marks]) == last + marks;
  }

  lemma DropOfAppend(x: string, t: string, i: nat)
    requires i <= |x|
    ensures (x + t)[i..] == x[i..] + t
  {
  }

  lemma SliceOfAppend(x: string, t: string, i: nat, j: nat)
    requires i <= j <= |x|
    ensures (x + t)[i..j] == x[i..j] && (x + t)[..j] == x[..j]
  {
  }

  /** One unfolding of `AutoChunks` past the first text run of `s`. */
  lemma AutoChunksUnfold(s: string, n: nat, e: nat)
    requires s != [] && !IsMark(s[0])
    requires n == Scan(s, 0, false) && e == Scan(s, n, true)
    ensures 1 <= n <= e <= |s|
    ensures AutoChunks(s) == AttachMarks(Slices(s[..n]), s[n..e]) + AutoChunks(s[e..])
  {
    var head := AttachMarks(Slices(s[..n]), s[n..e]);
    assert AutoChunks(s) == head + AutoChunks(s[e..]);
  }

  lemma AutoChunksStartsWithChunk(s: string)
    requires s != [] && !IsMark(s[0])
    ensures AutoChunks(s) != []
  {
    AutoChunksUnfold(s, Scan(s, 0, false), Scan(s, Scan(s, 0, false), true));
  }

  /** A run with no mark is chunked on its own as `Slices` says. */
  lemma AutoChunksOfRun(r: string)
    requires r != [] && NoMarks(r)
    ensures AutoChunks(r) == Slices(r)
  {
    assert Scan(r, 0, false) == |r|;
    AutoChunksUnfold(r, |r|, |r|);
    assert r[|r|..] == [] && r[..|r|] == r && r[|r|..|r|] == [];
    AttachNothing(Slices(r));
  }

  /** A run of at most 8 units with no mark is one chunk, itself. */
  lemma ShortRunIsOneChunk(r: string)
    requires r != [] && |r| <= 8 && NoMarks(r)
    ensures AutoChunks(r) == [r]
  {
    AutoChunksOfRun(r);
  }

  /** A run of 10 units with no mark gives the three chunks of 4, 4 and 2
      units that spell it in order. */
  lemma TenUnitRun(r: string)
    requires |r| == 10 && NoMarks(r)
    ensures AutoChunks(r) == [r[..4], r[4..8], r[8..]]
    ensures Concat(AutoChunks(r)) == r
  {
    AutoChunksOfRun(r);
    QuartersOfTen(r);
    ConcatThree(r[..4], r[4..8], r[8..]);
    assert r == r[..4] + r[4..8] + r[8..];
  }

  lemma QuartersOfTen(r: string)
    requires |r| == 10
    ensures Quarters(r) == [r[..4], r[4..8], r[8..]]
  {
    var t := r[4..];
    assert Quarters(r) == [r[..4]] + Quarters(t);
    assert Quarters(t) == [t[..4]] + Quarters(t[4..]);
    assert Quarters(t[4..]) == [t[4..]];
    assert t[..4] == r[4..8] && t[4..] == r[8..];
  }

  lemma ConcatThree(a: string, b: string, d: string)
    ensures Concat([a, b, d]) == a + b + d
  {
    var l3, l2, l1 := [a, b, d], [b, d], [d];
    assert l1[1..] == [];
    assert Concat(l1) == d;
    assert l2[1..] == l1;
    assert Concat(l2) == b + d;
    assert l3[1..] == l2;
    assert Concat(l3) == a + (b + d);
  }

  /** Reading one more mark appends it to the last chunk, or loses it when
      there is no chunk yet. */
  lemma {:induction false} AutoChunksMark(x: string, c: char)
    requires IsMark(c)
    ensures AutoChunks(x + [c]) == AttachMarks(AutoChunks(x), [c])
    decreases |x|
  {
    if x == [] {
      assert (x + [c])[1..] == [];
    } else if IsMark(x[0]) {
      DropOfAppend(x, [c], 1);
      AutoChunksMark(x[1..], c);
    } else {
      var n := Scan(x, 0, false);
      var e := Scan(x, n, true);
      AutoChunksUnfold(x, n, e);
      if e < |x| {
        AutoChunksMark(x[e..], c);
      }
      AutoChunksMarkStep(x, c, n, e);
    }
  }

  /** The step of `AutoChunksMark` past the first text run of `x`. */
  lemma AutoChunksMarkStep(x: string, c: char, n: nat, e: nat)
    requires IsMark(c) && x != [] && !IsMark(x[0])
    requires n == Scan(x, 0, false) && e == Scan(x, n, true)
    requires e < |x| ==> AutoChunks(x[e..] + [c]) == AttachMarks(AutoChunks(x[e..]), [c])
    ensures AutoChunks(x + [c]) == AttachMarks(AutoChunks(x), [c])
  {
    ScanAppend(x, [c], 0, false);
    assert Scan([c], 0, false) == 0;
    ScanAppend(x, [c], n, true);
    if e < |x| {
      MarkAfterMore(x, c, n, e);
    } else {
      MarkAfterAll(x, c, n, e);
    }
  }

  /** `AutoChunksMarkStep` when more text follows the first run and its marks. */
  lemma MarkAfterMore(x: string, c: char, n: nat, e: nat)
    requires IsMark(c) && x != [] && !IsMark(x[0])
    requires n == Scan(x, 0, false) && e == Scan(x, n, true) && e < |x|
    requires Scan(x + [c], 0, false) == n && Scan(x + [c], n, true) == e
    requires AutoChunks(x[e..] + [c]) == AttachMarks(AutoChunks(x[e..]), [c])
    ensures AutoChunks(x + [c]) == AttachMarks(AutoChunks(x), [c])
  {
    var y := x + [c];
    AutoChunksUnfold(x, n, e);
    var head := AttachMarks(Slices(x[..n]), x[n..e]);
    var tail := AutoChunks(x[e..]);
    SliceOfAppend(x, [c], n, n);
    SliceOfAppend(x, [c], n, e);
    DropOfAppend(x, [c], e);
    AutoChunksUnfold(y, n, e);
    assert AutoChunks(y) == head + AutoChunks(x[e..] + [c]);
    AutoChunksStartsWithChunk(x[e..]);
    AttachMarksAppend(head, tail, [c]);
  }

  /** `AutoChunksMarkStep` when `x` is one text run and its marks. */
  lemma MarkAfterAll(x: string, c: char, n: nat, e: nat)
    requires IsMark(c) && x != [] && !IsMark(x[0])
    requires n == Scan(x, 0, false) && e == Scan(x, n, true) && e == |x|
    requires Scan(x + [c], 0, false) == n && Scan(x + [c], n, true) == e + 1
    ensures AutoChunks(x + [c]) == AttachMarks(AutoChunks(x), [c])
  {
    var y := x + [c];
    assert y[0] == x[0];
    AutoChunksWhole(x, n);
    AutoChunksWhole(y, n);
    SliceOfAppend(x, [c], n, n);
    var pieces := Slices(x[..n]);
    assert y[n..] == x[n..] + [c];
    AttachMarksTwice(pieces, x[n..], [c]);
  }

  /** `AutoChunks` of one text run followed only by marks. */
  lemma AutoChunksWhole(s: string, n: nat)
    requires s != [] && !IsMark(s[0])
    requires n == Scan(s, 0, false) && Scan(s, n, true) == |s|
    ensures AutoChunks(s) == AttachMarks(Slices(s[..n]), s[n..])
  {
    AutoChunksUnfold(s, n, |s|);
    assert s[|s|..] == [];
    assert s[n..|s|] == s[n..];
  }

  /** Reading a whole text run right after a mark (or at the start) appends its slices. */
  lemma {:induction false} AutoChunksRun(x: string, r: string)
    requires r != [] && NoMarks(r)
    requires x == [] || IsMark(x[|x| - 1])
    ensures AutoChunks(x + r) == AutoChunks(x) + Slices(r)
    decreases |x|
  {
    if x == [] {
      assert x + r == r;
      AutoChunksOfRun(r);
    } else if IsMark(x[0]) {
      DropOfAppend(x, r, 1);
      assert |x| > 1 ==> x[1..][|x| - 2] == x[|x| - 1];
      AutoChunksRun(x[1..], r);
    } else {
      var n := Scan(x, 0, false);
      var e := Scan(x, n, true);
      RunEndsBeforeMark(x);
      if e < |x| {
        var rest := x[e..];
        assert rest[|rest| - 1] == x[|x| - 1];
        AutoChunksRun(rest, r);
      }
      AutoChunksRunStep(x, r, n, e);
    }
  }

  /** Text that ends with a mark has its first text run end before the end. */
  lemma RunEndsBeforeMark(x: string)
    requires x != [] && IsMark(x[|x| - 1])
    ensures Scan(x, 0, false) < |x|
  {
    ScanSpan(x, 0, false);
  }

  /** The step of `AutoChunksRun` past the first text run of `x`. */
  lemma AutoChunksRunStep(x: string, r: string, n: nat, e: nat)
    requires r != [] && NoMarks(r) && x != [] && !IsMark(x[0])
    requires n == Scan(x, 0, false) && n < |x| && e == Scan(x, n, true)
    requires e < |x| ==> AutoChunks(x[e..] + r) == AutoChunks(x[e..]) + Slices(r)
    ensures AutoChunks(x + r) == AutoChunks(x) + Slices(r)
  {
    AutoChunksUnfold(x, n, e);
    AppendedUnfold(x, r, n, e);
    RestWithRun(x, r, e);
    Reassociate(AttachMarks(Slices(x[..n]), x[n..e]), AutoChunks(x[e..]), Slices(r));
  }

  lemma Reassociate(a: seq<string>, b: seq<string>, c: seq<string>)
    ensures (a + b) + c == a + (b + c)
  {
  }

  /** What is left of `x` after its first text run and marks, followed by `r`. */
  lemma RestWithRun(x: string, r: string, e: nat)
    requires r != [] && NoMarks(r) && e <= |x|
    requires e < |x| ==> AutoChunks(x[e..] + r) == AutoChunks(x[e..]) + Slices(r)
    ensures AutoChunks(x[e..] + r) == AutoChunks(x[e..]) + Slices(r)
  {
    if e == |x| {
      assert x[e..] + r == r;
      assert x[e..] == [];
      AutoChunksOfRun(r);
    }
  }

  /** Unfolding `AutoChunks(x + r)` past the first text run of `x`, which `r` does not reach. */
  lemma AppendedUnfold(x: string, r: string, n: nat, e: nat)
    requires r != [] && !IsMark(r[0]) && x != [] && !IsMark(x[0])
    requires n == Scan(x, 0, false) && n < |x| && e == Scan(x, n, true)
    ensures e <= |x|
    ensures AutoChunks(x + r) == AttachMarks(Slices(x[..n]), x[n..e]) + AutoChunks(x[e..] + r)
  {
    var y := x + r;
    ScanPastRun(x, r, n, e);
    assert y != [] && !IsMark(y[0]);
    AutoChunksUnfold(y, n, e);
    SliceOfAppend(x, r, n, n);
    SliceOfAppend(x, r, n, e);
    DropOfAppend(x, r, e);
    var headY := AttachMarks(Slices(y[..n]), y[n..e]);
    assert headY == AttachMarks(Slices(x[..n]), x[n..e]);
    assert AutoChunks(y) == headY + AutoChunks(y[e..]);
  }

  /** Appending a run that starts with text leaves the first runs of `x` as they were. */
  lemma ScanPastRun(x: string, r: string, n: nat, e: nat)
    requires r != [] && !IsMark(r[0])
    requires n == Scan(x, 0, false) && n < |x| && e == Scan(x, n, true)
    ensures Scan(x + r, 0, false) == n && Scan(x + r, n, true) == e
  {
    ScanAppend(x, r, 0, false);
    ScanAppend(x, r, n, true);
    assert Scan(r, 0, true) == 0;
  }

  /** The chunks spell the text back, except for the marks before its first
      text run, which are lost. */
  lemma {:induction false} AutoChunksSpellText(s: string)
    ensures Concat(AutoChunks(s)) == s[Scan(s, 0, true)..]
    decreases |s|
  {
    if s == [] {
    } else if IsMark(s[0]) {
      AutoChunksSpellText(s[1..]);
      assert s == [s[0]] + s[1..];
      ScanShift([s[0]], s[1..], 0, true);
      assert s[Scan(s, 0, true)..] == s[1..][Scan(s[1..], 0, true)..];
    } else {
      var n := Scan(s, 0, false);
      var e := Scan(s, n, true);
      AutoChunksUnfold(s, n, e);
      AutoChunksSpellText(s[e..]);
      SpellTextStep(s, n, e);
    }
  }

  /** The step of `AutoChunksSpellText` past the first text run of `s`. */
  lemma SpellTextStep(s: string, n: nat, e: nat)
    requires s != [] && !IsMark(s[0])
    requires n == Scan(s, 0, false) && e == Scan(s, n, true)
    requires Concat(AutoChunks(s[e..])) == s[e..][Scan(s[e..], 0, true)..]
    ensures Concat(AutoChunks(s)) == s
  {
    AutoChunksUnfold(s, n, e);
    var rest := s[e..];
    assert rest != [] ==> rest[0] == s[e];
    assert Scan(rest, 0, true) == 0;
    SpellPieces(s, n, e, AttachMarks(Slices(s[..n]), s[n..e]), AutoChunks(rest));
  }

  lemma SpellPieces(s: string, n: nat, e: nat, head: seq<string>, tail: seq<string>)
    requires 1 <= n <= e <= |s|
    requires head == AttachMarks(Slices(s[..n]), s[n..e]) && Concat(tail) == s[e..]
    ensures Concat(head + tail) == s
  {
    ConcatAppend(head, tail);
    HeadSpells(s[..n], s[n..e]);
    assert s == s[..n] + s[n..e] + s[e..];
  }

  lemma HeadSpells(run: string, marks: string)
    requires run != []
    ensures Concat(AttachMarks(Slices(run), marks)) == run + marks
  {
    ConcatAttach(Slices(run), marks);
    SlicesSpell(run);
  }

  /** Every automatic chunk is well shaped, so none is empty and none starts with a mark. */
  lemma {:induction false} AutoChunksWellShaped(s: string)
    ensures AllWellShaped(AutoChunks(s))
    decreases |s|
  {
    if s == [] {
    } else if IsMark(s[0]) {
      AutoChunksWellShaped(s[1..]);
    } else {
      var n := Scan(s, 0, false);
      var e := Scan(s, n, true);
      AutoChunksUnfold(s, n, e);
      var run, marks, rest := s[..n], s[n..e], s[e..];
      AutoChunksWellShaped(rest);
      ScanSpan(s, 0, false);
      ScanSpan(s, n, true);
      assert NoMarks(run);
      assert AllMarks(marks);
      HeadWellShaped(run, marks);
      WellShapedAppend(AttachMarks(Slices(run), marks), AutoChunks(rest));
    }
  }

  lemma WellShapedAppend(a: seq<string>, b: seq<string>)
    requires AllWellShaped(a) && AllWellShaped(b)
    ensures AllWellShaped(a + b)
  {
    assert forall k | |a| <= k < |a + b| :: (a + b)[k] == b[k - |a|];
  }

  /** The chunks one text run and its marks give are well shaped. */
  lemma HeadWellShaped(run: string, marks: string)
    requires run != [] && NoMarks(run) && AllMarks(marks)
    ensures AllWellShaped(AttachMarks(Slices(run), marks))
  {
    var pieces := Slices(run);
    SlicesSpell(run);
    forall k | 0 <= k < |pieces| ensures WellShaped(pieces[k]) {
      PieceWellShaped(pieces[k], []);
      assert pieces[k] + [] == pieces[k];
    }
    PieceWellShaped(pieces[|pieces| - 1], marks);
    var a := AttachMarks(pieces, marks);
    assert forall k | 0 <= k < |a| - 1 :: a[k] == pieces[k];
  }

  lemma PieceWellShaped(p: string, marks: string)
    requires 1 <= |p| <= 8 && NoMarks(p) && AllMarks(marks)
    ensures WellShaped(p + marks)
  {
    ScanAppend(p, marks, 0, false);
    assert Scan(p, 0, false) == |p|;
    assert Scan(marks, 0, false) == 0;
    assert (p + marks)[|p|..] == marks;
  }

  /** Content made only of marks gives no chunk at all. */
  lemma {:induction false} MarksOnlyGiveNoChunk(s: string)
    requires AllMarks(s)
    ensures AutoChunks(s) == []
    decreases |s|
  {
    if s != [] {
      MarksOnlyGiveNoChunk(s[1..]);
    }
  }

  /** The concatenation of the first i + 1 parts. */
  lemma ConcatPrefixStep(parts: seq<string>, i: nat)
    requires i < |parts|
    ensures Concat(parts[..i + 1]) == Concat(parts[..i]) + parts[i]
  {
    assert parts[..i + 1] == parts[..i] + [parts[i]];
    ConcatAppend(parts[..i], [parts[i]]);
    assert Concat([parts[i]]) == parts[i];
  }

  /** Text parts of the split come right after a mark, or first. */
  lemma SplitTextFollowsMark(parts: seq<string>, i: nat)
    requires Alternates(parts) && 0 < i < |parts| && i % 2 == 0
    ensures var done := Concat(parts[..i]); done != [] && IsMark(done[|done| - 1])
  {
    ConcatPrefixStep(parts, i - 1);
    assert parts[..i - 1 + 1] == parts[..i];
  }

  /** The loop of `processedChunks` reading a mark: appended to the last
      chunk, or kept aside in the current chunk while there is none. */
  lemma MarkStep(done: string, chunks: seq<string>, current: string, part: string)
    requires |part| == 1 && IsMark(part[0])
    requires chunks == AutoChunks(done) && current + Concat(chunks) == done && AllMarks(current)
    ensures chunks != [] ==>
              var updated := chunks[|chunks| - 1 := chunks[|chunks| - 1] + part];
              updated == AutoChunks(done + part) && current + Concat(updated) == done + part
    ensures chunks == [] ==>
              chunks == AutoChunks(done + part) && (current + part) + Concat(chunks) == done + part
              && AllMarks(current + part)
  {
    assert part == [part[0]];
    AutoChunksMark(done, part[0]);
    if chunks != [] {
      ConcatAttach(chunks, part);
      AttachIsUpdate(chunks, part);
    } else {
      assert done == current;
    }
  }

  /** The loop of `processedChunks` reading a text run right after a mark (or first). */
  lemma TextStep(done: string, chunks: seq<string>, current: string, part: string)
    requires part != [] && NoMarks(part) && (done == [] || IsMark(done[|done| - 1]))
    requires chunks == AutoChunks(done) && current + Concat(chunks) == done
    ensures chunks + Slices(part) == AutoChunks(done + part)
    ensures current + Concat(chunks + Slices(part)) == done + part
  {
    AutoChunksRun(done, part);
    TextStepSpells(done, chunks, current, part);
  }

  lemma TextStepSpells(done: string, chunks: seq<string>, current: string, part: string)
    requires part != [] && current + Concat(chunks) == done
    ensures current + Concat(chunks + Slices(part)) == done + part
  {
    SlicesSpell(part);
    ConcatAppend(chunks, Slices(part));
  }

  /** `processedChunks`: a text's own chunks when it has a non-empty list,
      otherwise the placeholder for blank content, otherwise the automatic
      chunks, built in one pass over the split content. */
  method ProcessedChunks(text: ReadingText) returns (chunks: seq<string>)
    ensures text.chunks.Some? && text.chunks.value != [] ==> chunks == text.chunks.value
    ensures (text.chunks.None? || text.chunks.value == []) && IsBlank(text.content) ==>
              chunks == [NoContent]
    ensures (text.chunks.None? || text.chunks.value == []) && !IsBlank(text.content) ==>
              chunks == AutoChunks(text.content)
  {
    if text.chunks.Some? && |text.chunks.value| > 0 {
      return text.chunks.value;
    }
    var content := text.content;
    if Trim(content) == "" {
      return [NoContent];
    }
    var parts := SplitOnMarks(content);
    SplitOnMarksSpells(content);
    chunks := ChunkParts(parts);
  }

  /** The loop of `processedChunks` over the parts of the split content: a
      mark goes onto the last chunk (or, before any chunk, into the current
      chunk, which is never emitted), a text run gives its slices. */
  method ChunkParts(parts: seq<string>) returns (chunks: seq<string>)
    requires Alternates(parts)
    ensures chunks == AutoChunks(Concat(parts))
  {
    chunks := [];
    var currentChunk := "";
    var i := 0;
    ghost var done := "";
    while i < |parts|
      invariant 0 <= i <= |parts|
      invariant done == Concat(parts[..i])
      invariant chunks == AutoChunks(done)
      invariant currentChunk + Concat(chunks) == done
      invariant AllMarks(currentChunk)
    {
      var part := parts[i];
      ConcatPrefixStep(parts, i);
      if part == "" {
        assert done + part == done;
      } else if |part| == 1 && IsMark(part[0]) {
        MarkStep(done, chunks, currentChunk, part);
        if |chunks| > 0 {
          chunks := chunks[|chunks| - 1 := chunks[|chunks| - 1] + part];
        } else {
          currentChunk := currentChunk + part;
        }
      } else {
        assert i % 2 == 0;
        if i > 0 {
          SplitTextFollowsMark(parts, i);
        }
        TextStep(done, chunks, currentChunk, part);
        var pieces := CutRun(part);
        chunks := chunks + pieces;
      }
      done := done + part;
      i := i + 1;
    }
    assert parts[..|parts|] == parts;
  }

  /** The text branch of `processedChunks`: a run longer than 8 units is
      pushed as the slices `part.slice(i, i + 4)` for i = 0, 4, 8, …; a
      shorter run is pushed whole. */
  method CutRun(part: string) returns (pieces: seq<string>)
    requires part != []
    ensures pieces == Slices(part)
  {
    if |part| > 8 {
      pieces := [];
      var i := 0;
      while i < |part|
        invariant 0 <= i < |part| + 4 && i % 4 == 0
        invariant i == 0 ==> pieces == []
        invariant i > 0 ==> pieces == Quarters(part[..Min(i, |part|)])
      {
        var piece := part[i..Min(i + 4, |part|)];
        CutStep(part, i);
        assert i > 0 ==> pieces == Quarters(part[..i]);
        pieces := pieces + [piece];
        i := i + 4;
      }
      assert part[..Min(i, |part|)] == part;
    } else {
      pieces := [part];
    }
  }

  /** One pass of the slicing loop: the slices of the run up to `i + 4` are
      those up to `i` and one more slice. */
  lemma CutStep(part: string, i: nat)
    requires i < |part| && i % 4 == 0
    ensures var j := Min(i + 4, |part|);
            Quarters(part[..j]) == (if i == 0 then [] else Quarters(part[..i])) + [part[i..j]]
  {
    var j := Min(i + 4, |part|);
    if i > 0 {
      QuartersSnoc(part[..i], part[i..j]);
      assert part[..i] + part[i..j] == part[..j];
    } else {
      assert part[..j] == part[i..j];
    }
  }

  function Min(a: int, b: int): int
  {
    if a <= b then a else b
  }

  lemma {:induction false} QuartersSnoc(s: string, t: string)
    requires s != [] && |s| % 4 == 0 && 1 <= |t| <= 4
    ensures Quarters(s + t) == Quarters(s) + [t]
    decreases |s|
  {
    assert (s + t)[..4] == s[..4];
    assert (s + t)[4..] == s[4..] + t;
    if |s| > 4 {
      QuartersSnoc(s[4..], t);
    } else {
      assert s[4..] == [];
      assert s[..4] == s;
    }
  }

  /** The chunk as displayed: slashes removed, then trimmed. */
  function CleanChunk(c: string): string
  {
    Trim(StripSlashes(c))
  }

  /** The render step over `processedChunks`: each chunk cleaned, the ones
      that come out empty skipped. What is shown is non-empty, slash-free and
      trimmed, and never more than was given. */
  function VisibleChunks(chunks: seq<string>): (r: seq<string>)
    ensures |r| <= |chunks|
  {
    if chunks == [] then []
    else
      var c := CleanChunk(chunks[0]);
      (if c == "" then [] else [c]) + VisibleChunks(chunks[1..])
  }

  lemma {:induction false} VisibleChunksAreClean(chunks: seq<string>)
    ensures forall k | 0 <= k < |VisibleChunks(chunks)| :: IsClean(VisibleChunks(chunks)[k])
  {
    if chunks != [] {
      var c := CleanChunk(chunks[0]);
      CleanChunkIsClean(chunks[0]);
      VisibleChunksAreClean(chunks[1..]);
      var shown := if c == "" then [] else [c];
      var r, rest := VisibleChunks(chunks), VisibleChunks(chunks[1..]);
      assert r == shown + rest;
      forall k | 0 <= k < |r| ensures IsClean(r[k]) {
        if k >= |shown| {
          assert r[k] == rest[k - |shown|];
        }
      }
    }
  }

  /** A chunk that does not clean away comes out clean. */
  lemma CleanChunkIsClean(x: string)
    ensures CleanChunk(x) != "" ==> IsClean(CleanChunk(x))
  {
    TrimKeepsOnly(StripSlashes(x));
  }

  /** A chunk that display would show unchanged. */
  predicate IsClean(c: string)
  {
    c != [] && '/' !in c && !IsJsWhitespace(c[0]) && !IsJsWhitespace(c[|c| - 1])
  }

  /** Cleaning keeps order: it works chunk by chunk. */
  lemma {:induction false} VisibleChunksAppend(a: seq<string>, b: seq<string>)
    ensures VisibleChunks(a + b) == VisibleChunks(a) + VisibleChunks(b)
  {
    if a == [] {
      assert a + b == b;
    } else {
      var ab := a + b;
      assert ab[0] == a[0] && ab[1..] == a[1..] + b;
      var c := CleanChunk(a[0]);
      var shown := if c == "" then [] else [c];
      assert VisibleChunks(ab) == shown + VisibleChunks(a[1..] + b);
      assert VisibleChunks(a) == shown + VisibleChunks(a[1..]);
      VisibleChunksAppend(a[1..], b);
      Reassociate(shown, VisibleChunks(a[1..]), VisibleChunks(b));
    }
  }

  /** Chunks that are already clean are shown exactly as given, so cleaning twice is cleaning once. */
  lemma {:induction false} VisibleChunksOfClean(chunks: seq<string>)
    requires forall k | 0 <= k < |chunks| :: IsClean(chunks[k])
    ensures VisibleChunks(chunks) == chunks
  {
    if chunks != [] {
      var c := chunks[0];
      StripSlashesNoSlash(c);
      assert TrimStart(c) == c;
      assert TrimEnd(c) == c;
      VisibleChunksOfClean(chunks[1..]);
    }
  }

  lemma VisibleChunksIdempotent(chunks: seq<string>)
    ensures VisibleChunks(VisibleChunks(chunks)) == VisibleChunks(chunks)
  {
    VisibleChunksAreClean(chunks);
    VisibleChunksOfClean(VisibleChunks(chunks));
  }
}
