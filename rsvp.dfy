/** The rapid serial visual presentation reader: it turns a text into a list of
    short words, then shows them one at a time at a chosen speed. */
module Rsvp {
  import opened Texts
  import opened JsText

  /** What the reader shows for a blank text. */
  const Prompt: seq<string> := ["请先输入", "文本内容"]

  /** What the reader shows once the index has left the word list. */
  const EndLabel: string := "结束"

  // ---------------------------------------------------------------------------
  // Greedy grouping of the word segmenter's output
  // ---------------------------------------------------------------------------

  /** The grouping loop's state: the groups pushed so far and `tempGroup`. */
  datatype Acc = Acc(groups: seq<string>, temp: string)

  /** One segment through the loop: it joins the open group when the two fit in
      4 code units together or the open group is empty; otherwise the open group
      is pushed and the segment opens the next one. */
  function GroupStep(acc: Acc, seg: string): Acc
  {
    if |acc.temp| + |seg| <= 4 || |acc.temp| == 0 then Acc(acc.groups, acc.temp + seg)
    else Acc(acc.groups + [acc.temp], seg)
  }

  /** The loop's state after every segment of `segs`, in order. */
  function GroupAll(segs: seq<string>): Acc
  {
    if segs == [] then Acc([], "")
    else GroupStep(GroupAll(segs[..|segs| - 1]), segs[|segs| - 1])
  }

  /** The groups, with the open group pushed at the end when it is non-empty. */
  function Grouped(segs: seq<string>): seq<string>
  {
    var acc := GroupAll(segs);
    if acc.temp != "" then acc.groups + [acc.temp] else acc.groups
  }

  /** What a list of groups promises about the segments it came from: no group
      is empty, a group longer than 4 code units is one segment on its own, and
      no two neighbouring groups would have fitted together in 4 code units. */
  ghost predicate GroupsShape(gs: seq<string>, segs: seq<string>)
  {
    && (forall k | 0 <= k < |gs| :: gs[k] != "" && (|gs[k]| > 4 ==> gs[k] in segs))
    && (forall k | 0 <= k < |gs| - 1 :: |gs[k]| + |gs[k + 1]| > 4)
  }

  /** What the loop keeps after each segment: the groups and the open group
      spell the segments read so far, the groups have the promised shape, the
      open group is one segment when it is longer than 4, and it would not fit
      with the last group pushed. */
  ghost predicate AccGood(acc: Acc, segs: seq<string>)
  {
    && Concat(acc.groups) + acc.temp == Concat(segs)
    && GroupsShape(acc.groups, segs)
    && (|acc.temp| > 4 ==> acc.temp in segs)
    && (acc.groups != [] ==> |acc.groups[|acc.groups| - 1]| + |acc.temp| > 4)
  }

  lemma ConcatOne(x: string)
    ensures Concat([x]) == x
  {
    assert [x][1..] == [];
  }

  lemma GroupStepKeeps(acc: Acc, segs: seq<string>, seg: string)
    requires AccGood(acc, segs)
    ensures AccGood(GroupStep(acc, seg), segs + [seg])
  {
    ConcatAppend(segs, [seg]);
    ConcatOne(seg);
    if |acc.temp| + |seg| <= 4 || |acc.temp| == 0 {
      JoinKeeps(acc, segs, seg);
    } else {
      PushKeeps(acc, segs, seg);
    }
  }

  /** The segment joins the open group. */
  lemma JoinKeeps(acc: Acc, segs: seq<string>, seg: string)
    requires AccGood(acc, segs) && Concat(segs + [seg]) == Concat(segs) + seg
    requires |acc.temp| + |seg| <= 4 || |acc.temp| == 0
    ensures AccGood(Acc(acc.groups, acc.temp + seg), segs + [seg])
  {
    var segs' := segs + [seg];
    var temp' := acc.temp + seg;
    ShapeGrows(acc.groups, segs, seg);
    LongJoinIsSegment(acc.temp, segs, seg);
    JoinSpells(Concat(acc.groups), acc.temp, seg);
  }

  /** A joined open group longer than 4 can only be a segment on its own. */
  lemma LongJoinIsSegment(temp: string, segs: seq<string>, seg: string)
    requires |temp| + |seg| <= 4 || |temp| == 0
    ensures |temp + seg| > 4 ==> temp + seg in segs + [seg]
  {
    if |temp + seg| > 4 {
      assert temp + seg == seg == (segs + [seg])[|segs|];
    }
  }

  lemma JoinSpells(done: string, temp: string, seg: string)
    ensures done + (temp + seg) == (done + temp) + seg
  {
  }

  /** The open group is pushed and the segment opens the next one. */
  lemma PushKeeps(acc: Acc, segs: seq<string>, seg: string)
    requires AccGood(acc, segs) && Concat(segs + [seg]) == Concat(segs) + seg
    requires |acc.temp| + |seg| > 4 && |acc.temp| != 0
    ensures AccGood(Acc(acc.groups + [acc.temp], seg), segs + [seg])
  {
    var segs' := segs + [seg];
    var gs := acc.groups;
    var gs' := gs + [acc.temp];
    ShapeGrows(gs, segs, seg);
    assert seg == segs'[|segs|];
    assert |acc.temp| > 4 ==> acc.temp in segs';
    ConcatAppend(gs, [acc.temp]);
    ConcatOne(acc.temp);
    assert Concat(gs') + seg == Concat(segs');
    ShapePush(gs, acc.temp, segs');
  }

  /** Reading one more segment keeps the shape of the groups so far. */
  lemma ShapeGrows(gs: seq<string>, segs: seq<string>, seg: string)
    requires GroupsShape(gs, segs)
    ensures GroupsShape(gs, segs + [seg])
  {
    assert forall x | x in segs :: x in segs + [seg];
  }

  /** Pushing a non-empty group that fits the shape keeps the shape. */
  lemma ShapePush(gs: seq<string>, t: string, segs: seq<string>)
    requires GroupsShape(gs, segs) && t != "" && (|t| > 4 ==> t in segs)
    requires gs != [] ==> |gs[|gs| - 1]| + |t| > 4
    ensures GroupsShape(gs + [t], segs)
  {
    var gs' := gs + [t];
    assert forall k | 0 <= k < |gs| :: gs'[k] == gs[k];
  }

  lemma {:induction false} GroupAllGood(segs: seq<string>)
    ensures AccGood(GroupAll(segs), segs)
  {
    if segs != [] {
      var init := segs[..|segs| - 1];
      GroupAllGood(init);
      GroupStepKeeps(GroupAll(init), init, segs[|segs| - 1]);
      assert init + [segs[|segs| - 1]] == segs;
    }
  }

  /** The grouping's guarantees: the groups spell the segments, in order; the
      groups have the promised shape; and there are no groups exactly when the
      segments spell the empty string. */
  lemma GroupedFacts(segs: seq<string>)
    ensures Concat(Grouped(segs)) == Concat(segs)
    ensures GroupsShape(Grouped(segs), segs)
    ensures Grouped(segs) == [] <==> Concat(segs) == ""
  {
    GroupAllGood(segs);
    var acc := GroupAll(segs);
    if acc.temp != "" {
      var gs := acc.groups + [acc.temp];
      ConcatAppend(acc.groups, [acc.temp]);
      ConcatOne(acc.temp);
      assert forall k | 0 <= k < |acc.groups| :: gs[k] == acc.groups[k];
      assert GroupsShape(gs, segs);
    } else {
      assert Concat(acc.groups) == Concat(segs);
      if acc.groups != [] {
        assert acc.groups[0] != "";
        assert Concat(acc.groups) == acc.groups[0] + Concat(acc.groups[1..]);
      }
    }
  }

  /** The `tempGroup` loop over the segments, pushing each finished group. */
  method GroupSegments(segments: seq<string>) returns (w: seq<string>)
    ensures w == Grouped(segments)
  {
    w := [];
    var tempGroup := "";
    for i := 0 to |segments|
      invariant Acc(w, tempGroup) == GroupAll(segments[..i])
    {
      var seg := segments[i];
      if |tempGroup| + |seg| <= 4 || |tempGroup| == 0 {
        tempGroup := tempGroup + seg;
      } else {
        w := w + [tempGroup];
        tempGroup := seg;
      }
      assert segments[..i + 1][..i] == segments[..i];
    }
    assert segments[..|segments|] == segments;
    if tempGroup != "" {
      w := w + [tempGroup];
    }
  }

  // ---------------------------------------------------------------------------
  // The `/.{1,4}/g` fallback
  // ---------------------------------------------------------------------------

  /** No code unit of `s` is a line terminator. */
  predicate OnOneLine(s: string)
  {
    forall i | 0 <= i < |s| :: !IsLineTerminator(s[i])
  }

  /** `s` with its line terminators removed. */
  function DropTerminators(s: string): (r: string)
    ensures |r| <= |s|
  {
    if s == [] then ""
    else (if IsLineTerminator(s[0]) then "" else [s[0]]) + DropTerminators(s[1..])
  }

  /** Where a greedy `.{1,4}` match starting at `i` ends: it takes up to `cap`
      code units, and stops early only at a line terminator or the end. */
  function MatchEnd(s: string, i: nat, cap: nat): (j: nat)
    requires i <= |s|
    ensures i <= j <= |s| && j <= i + cap
    ensures j < i + cap && j < |s| ==> IsLineTerminator(s[j])
    decreases cap
  {
    if cap == 0 || i == |s| || IsLineTerminator(s[i]) then i else MatchEnd(s, i + 1, cap - 1)
  }

  lemma {:induction false} MatchEndSpan(s: string, i: nat, cap: nat)
    requires i <= |s|
    ensures forall k | i <= k < MatchEnd(s, i, cap) :: !IsLineTerminator(s[k])
    decreases cap
  {
    if !(cap == 0 || i == |s| || IsLineTerminator(s[i])) {
      MatchEndSpan(s, i + 1, cap - 1);
    }
  }

  /** `s.match(/.{1,4}/g) || []`: left to right, each match is the longest run
      of 1 to 4 code units that are not line terminators; the search skips a
      line terminator it cannot match. */
  function RegexChunks(s: string): (r: seq<string>)
    ensures |r| <= |s|
    decreases |s|
  {
    if s == [] then []
    else if IsLineTerminator(s[0]) then RegexChunks(s[1..])
    else
      var n := MatchEnd(s, 0, 4);
      assert n >= 1;
      [s[..n]] + RegexChunks(s[n..])
  }

  /** A line terminator breaks the matches: none reaches across it, so the
      matches of the text around it are those of each side. */
  lemma {:induction false} RegexChunksBreak(a: string, c: char, b: string)
    requires OnOneLine(a) && IsLineTerminator(c)
    ensures RegexChunks(a + [c] + b) == RegexChunks(a) + RegexChunks(b)
    decreases |a|
  {
    if a == [] {
      assert (a + [c] + b)[1..] == b;
    } else {
      var n := MatchEnd(a, 0, 4);
      MatchEndStops(a, c, b, 0, 4);
      OnOneLineSuffix(a, n);
      RegexChunksBreak(a[n..], c, b);
      BreakAfterMatch(a, c, b, n);
    }
  }

  /** The step of `RegexChunksBreak` past the first match of `a`. */
  lemma BreakAfterMatch(a: string, c: char, b: string, n: nat)
    requires a != [] && !IsLineTerminator(a[0])
    requires n == MatchEnd(a, 0, 4) == MatchEnd(a + [c] + b, 0, 4)
    requires RegexChunks(a[n..] + [c] + b) == RegexChunks(a[n..]) + RegexChunks(b)
    ensures RegexChunks(a + [c] + b) == RegexChunks(a) + RegexChunks(b)
  {
    var s := a + [c] + b;
    assert s[0] == a[0];
    RegexChunksUnfold(s);
    RegexChunksUnfold(a);
    SlicesAroundBreak(a, c, b, n);
    ConsAssoc(a[..n], RegexChunks(a[n..]), RegexChunks(b));
  }

  lemma ConsAssoc(h: string, m: seq<string>, t: seq<string>)
    ensures [h] + (m + t) == ([h] + m) + t
  {
  }

  lemma SlicesAroundBreak(a: string, c: char, b: string, n: nat)
    requires n <= |a|
    ensures (a + [c] + b)[..n] == a[..n]
    ensures (a + [c] + b)[n..] == a[n..] + [c] + b
  {
  }

  /** A match inside `a` ends where it would in `a` alone: the terminator `c`
      after `a` stops it like the end of `a` does. */
  lemma {:induction false} MatchEndStops(a: string, c: char, b: string, i: nat, cap: nat)
    requires OnOneLine(a) && IsLineTerminator(c) && i <= |a|
    ensures MatchEnd(a + [c] + b, i, cap) == MatchEnd(a, i, cap)
    decreases cap
  {
    var s := a + [c] + b;
    if cap > 0 && i < |a| {
      assert s[i] == a[i];
      MatchEndStops(a, c, b, i + 1, cap - 1);
    } else if cap > 0 {
      assert s[i] == c;
    }
  }

  /** A text that starts with a match: that match, then the matches after it. */
  lemma RegexChunksUnfold(s: string)
    requires s != [] && !IsLineTerminator(s[0])
    ensures var n := MatchEnd(s, 0, 4);
            1 <= n && RegexChunks(s) == [s[..n]] + RegexChunks(s[n..])
  {
  }

  lemma OnOneLineSuffix(a: string, n: nat)
    requires OnOneLine(a) && n <= |a|
    ensures OnOneLine(a[n..])
  {
    forall k | 0 <= k < |a| - n ensures !IsLineTerminator(a[n..][k]) {
      assert a[n..][k] == a[n + k];
    }
  }

  /** Every match holds 1 to 4 code units and no line terminator. */
  lemma {:induction false} RegexChunksPieces(s: string)
    ensures forall k | 0 <= k < |RegexChunks(s)| ::
              1 <= |RegexChunks(s)[k]| <= 4 && OnOneLine(RegexChunks(s)[k])
    decreases |s|
  {
    if s != [] {
      if IsLineTerminator(s[0]) {
        RegexChunksPieces(s[1..]);
      } else {
        var n := MatchEnd(s, 0, 4);
        MatchEndSpan(s, 0, 4);
        RegexChunksPieces(s[n..]);
        var r := RegexChunks(s);
        assert r == [s[..n]] + RegexChunks(s[n..]);
        forall k | 0 <= k < |r| ensures 1 <= |r[k]| <= 4 && OnOneLine(r[k]) {
          if k > 0 {
            assert r[k] == RegexChunks(s[n..])[k - 1];
          }
        }
      }
    }
  }

  lemma {:induction false} DropTerminatorsAppend(a: string, b: string)
    ensures DropTerminators(a + b) == DropTerminators(a) + DropTerminators(b)
  {
    if a == [] {
      assert a + b == b;
    } else {
      assert (a + b)[1..] == a[1..] + b;
      DropTerminatorsAppend(a[1..], b);
    }
  }

  lemma {:induction false} DropTerminatorsOnOneLine(s: string)
    requires OnOneLine(s)
    ensures DropTerminators(s) == s
  {
    if s != [] {
      DropTerminatorsOnOneLine(s[1..]);
    }
  }

  /** The matches, joined, are `s` without its line terminators: nothing else
      is lost, and the order is kept. */
  lemma {:induction false} RegexChunksSpell(s: string)
    ensures Concat(RegexChunks(s)) == DropTerminators(s)
    decreases |s|
  {
    if s != [] {
      if IsLineTerminator(s[0]) {
        RegexChunksSpell(s[1..]);
      } else {
        var n := MatchEnd(s, 0, 4);
        MatchEndSpan(s, 0, 4);
        var head, tail := s[..n], s[n..];
        RegexChunksSpell(tail);
        assert RegexChunks(s) == [head] + RegexChunks(tail);
        assert s == head + tail;
        DropTerminatorsAppend(head, tail);
        DropTerminatorsOnOneLine(head);
      }
    }
  }

  /** On a single line every match but the last takes the full 4 code units. */
  lemma {:induction false} RegexChunksOnOneLine(s: string)
    requires OnOneLine(s)
    ensures forall k | 0 <= k < |RegexChunks(s)| - 1 :: |RegexChunks(s)[k]| == 4
    decreases |s|
  {
    if s != [] {
      var n := MatchEnd(s, 0, 4);
      var tail := s[n..];
      assert OnOneLine(tail) by {
        forall i | 0 <= i < |tail| ensures !IsLineTerminator(tail[i]) {
          assert tail[i] == s[n + i];
        }
      }
      RegexChunksOnOneLine(tail);
      var r := RegexChunks(s);
      assert r == [s[..n]] + RegexChunks(tail);
      if tail != [] {
        assert n == 4;
      }
      forall k | 0 <= k < |r| - 1 ensures |r[k]| == 4 {
        if k > 0 {
          assert r[k] == RegexChunks(tail)[k - 1];
        }
      }
    }
  }

  /** A text that is not blank keeps a code unit that is not a line terminator. */
  lemma {:induction false} DropTerminatorsOfNonBlank(s: string)
    requires !IsBlank(s)
    ensures DropTerminators(s) != ""
  {
    if IsLineTerminator(s[0]) || IsJsWhitespace(s[0]) {
      assert !IsBlank(s[1..]) by {
        var i :| 0 <= i < |s| && !IsJsWhitespace(s[i]);
        assert s[1..][i - 1] == s[i];
      }
      DropTerminatorsOfNonBlank(s[1..]);
    }
  }

  // ---------------------------------------------------------------------------
  // The word list
  // ---------------------------------------------------------------------------

  /** The words the reader builds for `text`. `segments` is what the platform's
      word segmenter returns for the content, or `None` where there is none.
      Preset chunks are taken with their `/` removed, even when there are none;
      a blank text gives the prompt; otherwise the segments are grouped, and
      the regular-expression split is used when grouping gave nothing. */
  function WordList(text: ReadingText, segments: Option<seq<string>>): seq<string>
  {
    if text.chunks.Some? then StripAll(text.chunks.value)
    else if IsBlank(text.content) then Prompt
    else
      var grouped := if segments.Some? then Grouped(segments.value) else [];
      if grouped == [] then RegexChunks(text.content) else grouped
  }

  /** Preset chunks give one word per chunk, in order, each without `/`. */
  lemma WordListPreset(text: ReadingText, segments: Option<seq<string>>)
    requires text.chunks.Some?
    ensures var w := WordList(text, segments);
            && |w| == |text.chunks.value|
            && forall k | 0 <= k < |w| ::
                 '/' !in w[k] && multiset(w[k]) == multiset(text.chunks.value[k])['/' := 0]
  {
    var w := WordList(text, segments);
    forall k | 0 <= k < |w|
      ensures '/' !in w[k] && multiset(w[k]) == multiset(text.chunks.value[k])['/' := 0]
    {
      StripSlashesKeepsOthers(text.chunks.value[k]);
    }
  }

  /** Without preset chunks the reader always has a word to show, and no word
      is empty. */
  lemma WordListNotEmpty(text: ReadingText, segments: Option<seq<string>>)
    requires text.chunks.None?
    ensures var w := WordList(text, segments);
            w != [] && forall k | 0 <= k < |w| :: w[k] != ""
  {
    if !IsBlank(text.content) {
      var grouped := if segments.Some? then Grouped(segments.value) else [];
      if segments.Some? {
        GroupedFacts(segments.value);
      }
      if grouped == [] {
        DropTerminatorsOfNonBlank(text.content);
        RegexChunksSpell(text.content);
        RegexChunksPieces(text.content);
      }
    }
  }

  /** A non-blank text without preset chunks is read in full, in order: the
      words spell the content when the segmenter's segments do, and spell the
      content without its line terminators when there is no segmenter. */
  lemma WordListSpellsContent(text: ReadingText, segments: Option<seq<string>>)
    requires text.chunks.None? && !IsBlank(text.content)
    requires segments.Some? ==> Concat(segments.value) == text.content
    ensures segments.Some? ==> Concat(WordList(text, segments)) == text.content
    ensures segments.None? ==> Concat(WordList(text, segments)) == DropTerminators(text.content)
  {
    if segments.Some? {
      GroupedFacts(segments.value);
    } else {
      RegexChunksSpell(text.content);
    }
  }

  // ---------------------------------------------------------------------------
  // Playback
  // ---------------------------------------------------------------------------

  /** The playback state: the word shown and whether the clock runs. */
  datatype Playback = Playback(index: int, playing: bool)

  /** One firing of the word clock over `len` words. The clock is armed only
      while playing with the index inside the list; at the last word it stops
      playing and stays put, elsewhere it moves to the next word. */
  function Step(p: Playback, len: int): Playback
  {
    if !(p.playing && p.index < len) then p
    else if p.index >= len - 1 then p.(playing := false)
    else p.(index := p.index + 1)
  }

  /** `n` firings in a row. */
  function Ticks(p: Playback, len: int, n: nat): Playback
  {
    if n == 0 then p else Step(Ticks(p, len, n - 1), len)
  }

  /** Playing from word `i` of `len`, after `n` ticks the reader is at word
      `i + n` and still playing while that is a word, and otherwise rests on
      the last word, stopped. */
  lemma {:induction false} PlayFrom(i: int, len: int, n: nat)
    requires 0 <= i <= len - 1
    ensures Ticks(Playback(i, true), len, n) ==
              if i + n <= len - 1 then Playback(i + n, true) else Playback(len - 1, false)
  {
    if n > 0 {
      PlayFrom(i, len, n - 1);
    }
  }

  /** A stopped reader ignores the clock. */
  lemma {:induction false} PausedStays(p: Playback, len: int, n: nat)
    requires !p.playing
    ensures Ticks(p, len, n) == p
  {
    if n > 0 {
      PausedStays(p, len, n - 1);
    }
  }

  /** From an index inside the list, ticks never move the index backwards nor
      past the last word. */
  lemma {:induction false} TicksStayInList(p: Playback, len: int, n: nat)
    requires 0 <= p.index <= len - 1
    ensures p.index <= Ticks(p, len, n).index <= len - 1
  {
    if n > 0 {
      TicksStayInList(p, len, n - 1);
    }
  }

  /** The text shown for the word at `index`. */
  function Display(words: seq<string>, index: int): (r: string)
    ensures r == EndLabel || r in words
  {
    if |words| > 0 && 0 <= index < |words| then words[index] else EndLabel
  }

  /** Played from the start, the reader shows the words one per tick, each in
      its turn and still playing; the tick after the last word stops it there. */
  lemma ShowsEveryWord(words: seq<string>, k: nat)
    requires k < |words|
    ensures var p := Ticks(Playback(0, true), |words|, k);
            p == Playback(k, true) && Display(words, p.index) == words[k]
    ensures Ticks(Playback(0, true), |words|, |words|) == Playback(|words| - 1, false)
  {
    PlayFrom(0, |words|, k);
    PlayFrom(0, |words|, |words|);
  }

  /** The delay between two words at `wpm` words a minute, `60000 / (wpm / 2.5)`
      milliseconds: 150000 / wpm, so 1.5 s at the slowest speed of 100. */
  function MsPerChunk(wpm: int): (ms: real)
    requires wpm > 0
    ensures ms * wpm as real == 150000.0
    ensures wpm >= 100 ==> 0.0 < ms <= 1500.0
  {
    60000.0 / (wpm as real / 2.5)
  }

  /** The faster the speed, the shorter the delay. */
  lemma MsPerChunkDecreasing(a: int, b: int)
    requires 0 < a < b
    ensures MsPerChunk(b) < MsPerChunk(a)
  {
    var ma, mb := MsPerChunk(a), MsPerChunk(b);
    var ra, rb := a as real, b as real;
    assert ma * ra == mb * rb;
    PositiveFactor(mb, rb);
    SmallerFactor(ma, mb, ra, rb);
  }

  /** Of two equal products, the one with the larger positive factor has the
      smaller other factor. */
  lemma SmallerFactor(x: real, y: real, a: real, b: real)
    requires 0.0 < a < b && y > 0.0 && x * a == y * b
    ensures y < x
  {
    CrossDifference(x, y, a, b);
    PositiveFactor(y, b - a);
    PositiveFactor(x - y, a);
  }

  /** Equal products `x * a == y * b` differ by `y * (b - a)` when `x` becomes `x - y`. */
  lemma CrossDifference(x: real, y: real, a: real, b: real)
    requires x * a == y * b
    ensures (x - y) * a == y * (b - a)
  {
    assert (x - y) * a == x * a - y * a;
    assert y * (b - a) == y * b - y * a;
  }

  /** A product with a positive factor is positive exactly when the other factor is. */
  lemma PositiveFactor(x: real, c: real)
    requires c > 0.0
    ensures x * c > 0.0 <==> x > 0.0
  {
  }

  // ---------------------------------------------------------------------------
  // The reader
  // ---------------------------------------------------------------------------

  /** The reader's state. */
  class RsvpReader {
    var words: seq<string>
    var currentIndex: int
    var isPlaying: bool
    var wpm: int

    function State(): Playback
      reads this
    {
      Playback(currentIndex, isPlaying)
    }

    /** Every reachable speed is a multiple of 50 no lower than 100, and the
        index is never negative. */
    ghost predicate Valid()
      reads this
    {
      wpm >= 100 && wpm % 50 == 0 && currentIndex >= 0
    }

    /** The reader as first shown: no words, stopped at 0, 300 words a minute. */
    constructor ()
      ensures Valid()
      ensures words == [] && currentIndex == 0 && !isPlaying && wpm == 300
    {
      words := [];
      currentIndex := 0;
      isPlaying := false;
      wpm := 300;
    }

    /** Rebuilding the words when the text changes. `editing` says that the
        custom text is being typed, which leaves everything as it is. A blank
        text shows the prompt and keeps the index and the clock; every other
        rebuild rewinds to the first word and stops. */
    method Rebuild(text: ReadingText, editing: bool, segments: Option<seq<string>>)
      requires Valid()
      modifies this
      ensures Valid() && wpm == old(wpm)
      ensures editing ==> words == old(words) && State() == old(State())
      ensures !editing ==> words == WordList(text, segments)
      ensures !editing && text.chunks.None? && IsBlank(text.content) ==> State() == old(State())
      ensures !editing && (text.chunks.Some? || !IsBlank(text.content)) ==> State() == Playback(0, false)
    {
      if editing {
        return;
      }
      if text.chunks.Some? {
        words := StripAll(text.chunks.value);
      } else {
        var rawContent := text.content;
        if Trim(rawContent) == "" {
          words := Prompt;
          return;
        }
        var w: seq<string> := [];
        if segments.Some? {
          w := GroupSegments(segments.value);
        }
        if |w| == 0 {
          w := RegexChunks(rawContent);
        }
        words := w;
      }
      currentIndex := 0;
      isPlaying := false;
    }

    /** One firing of the word clock. */
    method Tick()
      requires Valid()
      modifies this
      ensures Valid() && words == old(words) && wpm == old(wpm)
      ensures State() == Step(old(State()), |words|)
    {
      if isPlaying && currentIndex < |words| {
        if currentIndex >= |words| - 1 {
          isPlaying := false;
        } else {
          currentIndex := currentIndex + 1;
        }
      }
    }

    /** The reset button: back to the first word, stopped. */
    method Reset()
      requires Valid()
      modifies this
      ensures Valid() && words == old(words) && wpm == old(wpm)
      ensures State() == Playback(0, false)
    {
      currentIndex := 0;
      isPlaying := false;
    }

    /** The play/pause button. From the last word or beyond it first rewinds
        to the first word, whether it starts or stops the clock; so once
        playing, the clock is armed exactly when there are words. */
    method TogglePlay()
      requires Valid()
      modifies this
      ensures Valid() && words == old(words) && wpm == old(wpm)
      ensures isPlaying == !old(isPlaying)
      ensures currentIndex == if old(currentIndex) >= |words| - 1 then 0 else old(currentIndex)
      ensures isPlaying ==> (currentIndex < |words| <==> words != [])
    {
      if currentIndex >= |words| - 1 {
        currentIndex := 0;
      }
      isPlaying := !isPlaying;
    }

    /** The `-` speed button: 50 slower, but never below 100. */
    method SlowDown()
      requires Valid()
      modifies this
      ensures Valid() && words == old(words) && State() == old(State())
      ensures wpm == if old(wpm) - 50 < 100 then 100 else old(wpm) - 50
      ensures old(wpm) > 100 ==> wpm == old(wpm) - 50
    {
      wpm := if wpm - 50 < 100 then 100 else wpm - 50;
    }

    /** The `+` speed button: 50 faster, with no upper bound. */
    method SpeedUp()
      requires Valid()
      modifies this
      ensures Valid() && words == old(words) && State() == old(State())
      ensures wpm == old(wpm) + 50
    {
      wpm := wpm + 50;
    }
  }
}
