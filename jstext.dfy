/** The pieces of JavaScript string behaviour the drills rely on: joining,
    `String.prototype.trim` (section 22.1.3.32 of ECMA-262), removal of every
    `/`, and the line terminators that the regular-expression `.` refuses. */
module JsText {

  /** The strings of `ss` joined end to end. */
  function Concat(ss: seq<string>): string
  {
    if ss == [] then "" else ss[0] + Concat(ss[1..])
  }

  lemma {:induction false} ConcatAppend(a: seq<string>, b: seq<string>)
    ensures Concat(a + b) == Concat(a) + Concat(b)
  {
    if a == [] {
      assert a + b == b;
    } else {
      assert (a + b)[1..] == a[1..] + b;
      ConcatAppend(a[1..], b);
    }
  }

  /** LineTerminator of ECMA-262 section 12.3: LF, CR, LINE SEPARATOR, PARAGRAPH SEPARATOR. */
  predicate IsLineTerminator(c: char)
  {
    c == '\n' || c == '\r' || c == '\U{2028}' || c == '\U{2029}'
  }

  /** What `trim` removes: WhiteSpace of ECMA-262 section 12.2 (TAB, VT, FF,
      ZWNBSP and the space separators of category Zs) and every LineTerminator. */
  predicate IsJsWhitespace(c: char)
  {
    || IsLineTerminator(c)
    || c == '\t' || c == '\U{000B}' || c == '\U{000C}' || c == '\U{FEFF}'
    || c == ' ' || c == '\U{00A0}' || c == '\U{1680}'
    || ('\U{2000}' <= c <= '\U{200A}')
    || c == '\U{202F}' || c == '\U{205F}' || c == '\U{3000}'
  }

  /** A string that is falsy once trimmed. */
  predicate IsBlank(s: string)
  {
    forall i | 0 <= i < |s| :: IsJsWhitespace(s[i])
  }

  /** `s` without its leading white space: what is left does not start with
      white space (and is a suffix of `s`, see `TrimStartCutsBlank`). */
  function TrimStart(s: string): (r: string)
    ensures |r| <= |s|
    ensures r == [] || !IsJsWhitespace(r[0])
  {
    if s != [] && IsJsWhitespace(s[0]) then TrimStart(s[1..]) else s
  }

  /** `TrimStart` keeps a suffix of `s` and all it cuts is white space. */
  lemma {:induction false} TrimStartCutsBlank(s: string)
    ensures var r := TrimStart(s);
            r == s[|s| - |r|..] && IsBlank(s[..|s| - |r|])
  {
    if s != [] && IsJsWhitespace(s[0]) {
      TrimStartCutsBlank(s[1..]);
      var r := TrimStart(s);
      assert s[1..][|s| - 1 - |r|..] == s[|s| - |r|..];
      assert s[..|s| - |r|] == [s[0]] + s[1..][..|s| - 1 - |r|];
    }
  }

  /** `s` without its trailing white space: what is left does not end with
      white space (and is a prefix of `s`, see `TrimEndCutsBlank`). */
  function TrimEnd(s: string): (r: string)
    ensures |r| <= |s|
    ensures r == [] || !IsJsWhitespace(r[|r| - 1])
  {
    if s != [] && IsJsWhitespace(s[|s| - 1]) then TrimEnd(s[..|s| - 1]) else s
  }

  /** `TrimEnd` keeps a prefix of `s` and all it cuts is white space. */
  lemma {:induction false} TrimEndCutsBlank(s: string)
    ensures var r := TrimEnd(s);
            r == s[..|r|] && IsBlank(s[|r|..])
  {
    if s != [] && IsJsWhitespace(s[|s| - 1]) {
      TrimEndCutsBlank(s[..|s| - 1]);
      var r := TrimEnd(s);
      assert s[..|s| - 1][..|r|] == s[..|r|];
      assert s[|r|..] == s[..|s| - 1][|r|..] + [s[|s| - 1]];
    }
  }

  /** `String.prototype.trim`: `s` without its leading and trailing white space.
      What is left is a contiguous middle part of `s` with only white space cut
      on either side; it neither starts nor ends with white space, and it is
      empty exactly when `s` is blank. */
  function Trim(s: string): (r: string)
    ensures exists a: nat, b: nat | a <= b <= |s| ::
              r == s[a..b] && IsBlank(s[..a]) && IsBlank(s[b..])
    ensures r != [] ==> !IsJsWhitespace(r[0]) && !IsJsWhitespace(r[|r| - 1])
    ensures r == [] <==> IsBlank(s)
  {
    var t := TrimStart(s);
    var r := TrimEnd(t);
    TrimStartCutsBlank(s);
    TrimEndCutsBlank(t);
    TrimFacts(s, t, r);
    r
  }

  /** `Trim` only cuts: it keeps a middle part of `s`, so every code unit it
      keeps was in `s`, at most as often. */
  lemma TrimKeepsOnly(s: string)
    ensures multiset(Trim(s)) <= multiset(s)
    ensures forall c | c in Trim(s) :: c in s
  {
    var t := TrimStart(s);
    var r := TrimEnd(t);
    assert r == Trim(s);
    TrimStartCutsBlank(s);
    TrimEndCutsBlank(t);
    MiddleKeepsOnly(s, t, r);
  }

  /** A prefix of a suffix of `s` takes nothing that `s` does not have. */
  lemma MiddleKeepsOnly(s: string, t: string, r: string)
    requires |t| <= |s| && t == s[|s| - |t|..]
    requires |r| <= |t| && r == t[..|r|]
    ensures multiset(r) <= multiset(s)
    ensures forall c | c in r :: c in s
  {
    assert s == s[..|s| - |t|] + t;
    assert t == r + t[|r|..];
    assert multiset(s) == multiset(s[..|s| - |t|]) + multiset(t);
    assert multiset(t) == multiset(r) + multiset(t[|r|..]);
    forall c | c in r ensures c in s {
      assert c in multiset(r);
    }
  }

  /** From the two halves' contracts to the contract of `Trim`. */
  lemma TrimFacts(s: string, t: string, r: string)
    requires |t| <= |s| && t == s[|s| - |t|..] && IsBlank(s[..|s| - |t|])
    requires t == [] || !IsJsWhitespace(t[0])
    requires |r| <= |t| && r == t[..|r|] && IsBlank(t[|r|..])
    requires r == [] || !IsJsWhitespace(r[|r| - 1])
    ensures var lead := |s| - |t|;
            lead + |r| <= |s| && r == s[lead..lead + |r|]
            && IsBlank(s[..lead]) && IsBlank(s[lead + |r|..])
    ensures r != [] ==> !IsJsWhitespace(r[0]) && !IsJsWhitespace(r[|r| - 1])
    ensures r == [] <==> IsBlank(s)
  {
    var lead := |s| - |t|;
    assert s[lead + |r|..] == t[|r|..];
    assert r != [] ==> r[0] == t[0];
    assert s == s[..lead] + t;
    BlankSplit(s[..lead], t);
    if r == [] {
      assert t == t[|r|..];
    }
    if t != [] {
      assert s[lead] == t[0];
    }
  }

  lemma BlankSplit(a: string, b: string)
    ensures IsBlank(a + b) <==> IsBlank(a) && IsBlank(b)
  {
    if IsBlank(a) && IsBlank(b) {
      forall i | 0 <= i < |a + b| ensures IsJsWhitespace((a + b)[i]) {
        if i >= |a| { assert (a + b)[i] == b[i - |a|]; }
      }
    }
    if IsBlank(a + b) {
      forall i | 0 <= i < |a| ensures IsJsWhitespace(a[i]) {
        assert (a + b)[i] == a[i];
      }
      forall i | 0 <= i < |b| ensures IsJsWhitespace(b[i]) {
        assert (a + b)[|a| + i] == b[i];
      }
    }
  }

  /** `s.replace(/\//g, '')`: every `/` removed, every other code unit kept. */
  function StripSlashes(s: string): (r: string)
    ensures '/' !in r && |r| <= |s|
  {
    if s == [] then ""
    else
      var rest := StripSlashes(s[1..]);
      if s[0] == '/' then rest else [s[0]] + rest
  }

  /** Every code unit other than `/` is kept, as often as it occurs. */
  lemma {:induction false} StripSlashesKeepsOthers(s: string)
    ensures multiset(StripSlashes(s)) == multiset(s)['/' := 0]
  {
    if s != [] {
      assert s == [s[0]] + s[1..];
      StripSlashesKeepsOthers(s[1..]);
    }
  }

  /** Removing slashes keeps order: it distributes over concatenation. */
  lemma {:induction false} StripSlashesAppend(a: string, b: string)
    ensures StripSlashes(a + b) == StripSlashes(a) + StripSlashes(b)
  {
    if a != [] {
      assert (a + b)[1..] == a[1..] + b;
      StripSlashesAppend(a[1..], b);
    } else {
      assert a + b == b;
    }
  }

  /** A string without slashes is left as it is, so stripping is idempotent. */
  lemma {:induction false} StripSlashesNoSlash(s: string)
    requires '/' !in s
    ensures StripSlashes(s) == s
  {
    if s != [] {
      assert s[0] != '/';
      assert forall c | c in s[1..] :: c in s;
      StripSlashesNoSlash(s[1..]);
    }
  }

  /** `chunks.map(c => c.replace(/\//g, ''))`. */
  function StripAll(cs: seq<string>): (r: seq<string>)
    ensures |r| == |cs|
    ensures forall i | 0 <= i < |cs| :: r[i] == StripSlashes(cs[i])
  {
    seq(|cs|, i requires 0 <= i < |cs| => StripSlashes(cs[i]))
  }

  /** Stripping each chunk and joining them gives the joined chunks stripped:
      no slash is lost or kept at a chunk border, and the order is kept. */
  lemma {:induction false} StripAllSpells(cs: seq<string>)
    ensures Concat(StripAll(cs)) == StripSlashes(Concat(cs))
  {
    if cs != [] {
      var r := StripAll(cs);
      assert r == [StripSlashes(cs[0])] + StripAll(cs[1..]);
      assert r[1..] == StripAll(cs[1..]);
      StripAllSpells(cs[1..]);
      StripSlashesAppend(cs[0], Concat(cs[1..]));
    }
  }
}
