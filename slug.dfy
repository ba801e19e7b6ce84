/**
 * The `slugify` helper of the testing library: a chain of string replacements that
 * turns an endpoint's display name into a key-safe identifier.
 *
 * Each stage below is one call of the JavaScript chain, in the same order:
 *   strip combining marks, lower-case, trim, `_` to `-`, whitespace runs to `-`,
 *   drop everything that is not a word character or `-`, collapse `--+` to `-`.
 * Unicode NFD normalisation is not modelled: the input is taken as already decomposed.
 */
module Slug {
  import opened Chars

  /** Combining diacritical marks, U+0300 to U+036F: the range the first replacement removes. */
  predicate IsCombiningMark(c: char) {
    '\U{0300}' <= c <= '\U{036F}'
  }

  /** JavaScript's `\s` class, which is also the set that `String.prototype.trim` removes
      (the WhiteSpace and LineTerminator code points of ECMAScript). */
  predicate IsSpace(c: char) {
    || c == '\t' || c == '\n' || c == '\U{000B}' || c == '\U{000C}' || c == '\r'
    || c == ' ' || c == '\U{00A0}' || c == '\U{1680}'
    || ('\U{2000}' <= c <= '\U{200A}')
    || c == '\U{2028}' || c == '\U{2029}' || c == '\U{202F}' || c == '\U{205F}'
    || c == '\U{3000}' || c == '\U{FEFF}'
  }

  /** JavaScript's `\w` class (without the `u` flag): `[A-Za-z0-9_]`. */
  predicate IsWordChar(c: char) {
    IsAsciiUpper(c) || IsAsciiLower(c) || IsDigit(c) || c == '_'
  }

  /** The characters a slug is made of: `[a-z0-9-]`. */
  predicate IsSlugChar(c: char) {
    IsAsciiLower(c) || IsDigit(c) || c == '-'
  }

  predicate NoDoubleHyphen(s: string) {
    forall i :: 0 <= i < |s| - 1 ==> !(s[i] == '-' && s[i + 1] == '-')
  }

  /** What a slug looks like: only `[a-z0-9-]`, and never two hyphens in a row. */
  predicate IsSlug(s: string) {
    (forall c :: c in s ==> IsSlugChar(c)) && NoDoubleHyphen(s)
  }

  // ---------------------------------------------------------------------------
  // The stages of the chain

  /** Removes every combining mark and keeps every other character. */
  function StripMarks(s: string): (r: string)
    ensures forall c :: c in r ==> c in s && !IsCombiningMark(c)
    ensures forall c :: c in s && !IsCombiningMark(c) ==> c in r
  {
    if s == [] then []
    else
      assert s == [s[0]] + s[1..];
      (if IsCombiningMark(s[0]) then [] else [s[0]]) + StripMarks(s[1..])
  }

  function LowerChar(c: char): char {
    if IsAsciiUpper(c) then (c as int - 'A' as int + 'a' as int) as char else c
  }

  /** `.toLowerCase()`, restricted to the ASCII letters: each character is lower-cased in place. */
  function Lower(s: string): (r: string)
    ensures |r| == |s|
    ensures forall i :: 0 <= i < |s| ==> r[i] == LowerChar(s[i])
    ensures forall c :: c in r ==> !IsAsciiUpper(c)
    ensures forall c :: c in r ==> c in s || IsAsciiLower(c)
  {
    if s == [] then [] else [LowerChar(s[0])] + Lower(s[1..])
  }

  /** The character at `k` is whitespace. */
  predicate SpaceAt(s: string, k: int)
    requires 0 <= k < |s|
  {
    IsSpace(s[k])
  }

  /** Drops the whitespace at the front of `s`; also what is left after one `\s+` match. */
  function TrimStart(s: string): (r: string)
    ensures |r| <= |s| && r == s[|s| - |r|..]
    ensures forall k :: 0 <= k < |s| - |r| ==> SpaceAt(s, k)
    ensures r == [] || !IsSpace(r[0])
  {
    if s != [] && IsSpace(s[0]) then
      var r := TrimStart(s[1..]);
      assert forall k :: 0 <= k < |s| - |r| ==> SpaceAt(s, k) by {
        forall k | 0 <= k < |s| - |r| ensures SpaceAt(s, k) {
          if k > 0 { assert SpaceAt(s[1..], k - 1); }
        }
      }
      r
    else s
  }

  /** What `TrimStart` drops is whitespace only. */
  lemma {:induction false} TrimStartKeepsNonSpace(s: string)
    ensures forall c :: c in s && !IsSpace(c) ==> c in TrimStart(s)
  {
    if s != [] && IsSpace(s[0]) {
      assert s == [s[0]] + s[1..];
      TrimStartKeepsNonSpace(s[1..]);
    }
  }

  function TrimEnd(s: string): (r: string)
    ensures |r| <= |s| && r == s[..|r|]
    ensures forall k :: |r| <= k < |s| ==> SpaceAt(s, k)
    ensures r == [] || !IsSpace(r[|r| - 1])
  {
    if s != [] && IsSpace(s[|s| - 1]) then
      var r := TrimEnd(s[..|s| - 1]);
      assert forall k :: |r| <= k < |s| ==> SpaceAt(s, k) by {
        forall k | |r| <= k < |s| ensures SpaceAt(s, k) {
          if k < |s| - 1 { assert SpaceAt(s[..|s| - 1], k); }
        }
      }
      r
    else s
  }

  /** `s[..i]` and `s[j..]` are all whitespace. */
  predicate SpaceOutside(s: string, i: nat, j: nat) {
    && i <= j <= |s|
    && (forall k :: 0 <= k < i ==> SpaceAt(s, k))
    && (forall k :: j <= k < |s| ==> SpaceAt(s, k))
  }

  /** The length of the whitespace at the front of `s`. */
  function Lead(s: string): nat {
    |s| - |TrimStart(s)|
  }

  /** Trimming leaves the middle of `s`: what follows its leading whitespace, up to where
      only whitespace is left. */
  lemma TrimIsMiddle(s: string, r: string)
    requires r == TrimEnd(TrimStart(s))
    ensures SpaceOutside(s, Lead(s), Lead(s) + |r|) && r == s[Lead(s)..Lead(s) + |r|]
  {
    var t := TrimStart(s);
    var i := Lead(s);
    assert r == s[i..i + |r|] by {
      assert t == s[i..] && r == t[..|r|];
    }
    forall k | i + |r| <= k < |s| ensures SpaceAt(s, k) {
      SpaceAtShift(s, i, k);
    }
  }

  lemma SpaceAtShift(s: string, i: nat, k: nat)
    requires i <= k < |s| && SpaceAt(s[i..], k - i)
    ensures SpaceAt(s, k)
  {
    assert s[i..][k - i] == s[k];
  }

  /** Trimming adds no character. */
  lemma TrimAddsNothing(s: string, r: string)
    requires r == TrimEnd(TrimStart(s))
    ensures forall c :: c in r ==> c in s
  {
    var t := TrimStart(s);
    forall c | c in r ensures c in s {
      var k :| 0 <= k < |r| && r[k] == c;
      assert t[k] == c;
    }
  }

  /** Trimming leaves no whitespace at either end. */
  lemma TrimEnds(s: string, r: string)
    requires r == TrimEnd(TrimStart(s))
    ensures r == [] || (!IsSpace(r[0]) && !IsSpace(r[|r| - 1]))
  {
    if r != [] {
      assert r[0] == TrimStart(s)[0];
    }
  }

  /** `.trim()`: the result is the part of `s` between a whitespace prefix and a whitespace
      suffix, and it neither starts nor ends with whitespace. */
  function Trim(s: string): (r: string)
    ensures SpaceOutside(s, Lead(s), Lead(s) + |r|) && r == s[Lead(s)..Lead(s) + |r|]
    ensures forall c :: c in r ==> c in s
    ensures r == [] || (!IsSpace(r[0]) && !IsSpace(r[|r| - 1]))
  {
    var r := TrimEnd(TrimStart(s));
    TrimIsMiddle(s, r);
    TrimAddsNothing(s, r);
    TrimEnds(s, r);
    r
  }

  /** `.replace(/_/g, '-')`: each `_` becomes `-` in place, every other character stays. */
  function UnderscoresToHyphens(s: string): (r: string)
    ensures |r| == |s|
    ensures forall i :: 0 <= i < |s| ==> r[i] == (if s[i] == '_' then '-' else s[i])
    ensures forall c :: c in r ==> c != '_' && (c in s || c == '-')
  {
    if s == [] then [] else [if s[0] == '_' then '-' else s[0]] + UnderscoresToHyphens(s[1..])
  }

  /** `.replace(/\s+/g, '-')`: every maximal run of whitespace becomes one `-`, and every
      other character is kept. */
  function SpaceRunsToHyphens(s: string): (r: string)
    ensures forall c :: c in r ==> !IsSpace(c) && (c in s || c == '-')
    ensures forall c :: c in s && !IsSpace(c) ==> c in r
    ensures forall c :: c in s && IsSpace(c) ==> '-' in r
    decreases |s|
  {
    if s == [] then []
    else if IsSpace(s[0]) then
      var rest := TrimStart(s);
      assert forall c :: c in rest ==> c in s;
      TrimStartKeepsNonSpace(s);
      "-" + SpaceRunsToHyphens(rest)
    else
      assert s == [s[0]] + s[1..];
      [s[0]] + SpaceRunsToHyphens(s[1..])
  }

  /** `.replace(/[^\w\-]+/g, '')`: removing each run of other characters is removing each
      other character; word characters and `-` are kept. */
  function KeepWordAndHyphen(s: string): (r: string)
    ensures forall c :: c in r ==> c in s && (IsWordChar(c) || c == '-')
    ensures forall c :: c in s && (IsWordChar(c) || c == '-') ==> c in r
  {
    if s == [] then []
    else
      assert s == [s[0]] + s[1..];
      (if IsWordChar(s[0]) || s[0] == '-' then [s[0]] else []) + KeepWordAndHyphen(s[1..])
  }

  /** Drops the hyphens at the front of `s`: the rest of one `\-\-+` match. */
  function SkipHyphens(s: string): (r: string)
    ensures |r| <= |s| && r == s[|s| - |r|..]
    ensures r == [] || r[0] != '-'
    ensures forall c :: c in s && c != '-' ==> c in r
  {
    if s != [] && s[0] == '-' then
      assert s == [s[0]] + s[1..];
      SkipHyphens(s[1..])
    else s
  }

  /** `.replace(/\-\-+/g, '-')`: every run of two or more hyphens becomes one; every other
      character, and at least one hyphen when there was one, is kept. */
  function CollapseHyphens(s: string): (r: string)
    ensures forall c :: c in r ==> c in s
    ensures forall c :: c in s && c != '-' ==> c in r
    ensures '-' in s ==> '-' in r
    ensures NoDoubleHyphen(r)
    ensures s == [] <==> r == []
    ensures s != [] ==> r[0] == s[0]
    decreases |s|
  {
    if s == [] then []
    else if |s| >= 2 && s[0] == '-' && s[1] == '-' then
      var rest := SkipHyphens(s);
      assert forall c :: c in rest ==> c in s;
      "-" + CollapseHyphens(rest)
    else
      assert s == [s[0]] + s[1..];
      [s[0]] + CollapseHyphens(s[1..])
  }

  /** The whole chain. Its result is always a slug. */
  function Slugify(text: string): (r: string)
    ensures IsSlug(r)
  {
    CollapseHyphens(KeepWordAndHyphen(SpaceRunsToHyphens(UnderscoresToHyphens(Trim(Lower(StripMarks(text)))))))
  }

  // ---------------------------------------------------------------------------
  // The stages work piece by piece, so they keep the order of the input.

  /** Removing marks from a concatenation removes them from each part. */
  lemma {:induction false} StripMarksAppend(a: string, b: string)
    ensures StripMarks(a + b) == StripMarks(a) + StripMarks(b)
  {
    if a != [] {
      var head := if IsCombiningMark(a[0]) then [] else [a[0]];
      assert (a + b)[0] == a[0] && (a + b)[1..] == a[1..] + b;
      assert StripMarks(a + b) == head + StripMarks(a[1..] + b);
      StripMarksAppend(a[1..], b);
      assert StripMarks(a) == head + StripMarks(a[1..]);
    } else {
      assert a + b == b;
    }
  }

  /** Dropping the other characters from a concatenation drops them from each part. */
  lemma {:induction false} KeepWordAndHyphenAppend(a: string, b: string)
    ensures KeepWordAndHyphen(a + b) == KeepWordAndHyphen(a) + KeepWordAndHyphen(b)
  {
    if a != [] {
      assert (a + b)[1..] == a[1..] + b;
      KeepWordAndHyphenAppend(a[1..], b);
    } else {
      assert a + b == b;
    }
  }

  /** The bookkeeping shared by the order lemmas: if `whole == h + rest` and `part == h + p`,
      and `rest == p + tail`, then `whole == part + tail`. */
  lemma PrefixedAppend<T>(h: seq<T>, whole: seq<T>, part: seq<T>, rest: seq<T>, p: seq<T>, tail: seq<T>)
    requires whole == h + rest && part == h + p && rest == p + tail
    ensures whole == part + tail
  {
    assert h + (p + tail) == (h + p) + tail;
  }

  /** `TrimStart` stops at the first non-space character, so what follows it is untouched. */
  lemma {:induction false} TrimStartAppend(a: string, x: string)
    requires x != [] && !IsSpace(x[0])
    ensures TrimStart(a + x) == TrimStart(a) + x
  {
    if a != [] {
      assert (a + x)[0] == a[0];
      if IsSpace(a[0]) {
        assert (a + x)[1..] == a[1..] + x;
        TrimStartAppend(a[1..], x);
      }
    }
  }

  /** A string of whitespace only is dropped whole by `TrimStart`. */
  lemma {:induction false} TrimStartOfSpaces(w: string)
    requires forall k :: 0 <= k < |w| ==> IsSpace(w[k])
    ensures TrimStart(w) == []
  {
    if w != [] {
      assert forall k :: 0 <= k < |w[1..]| ==> w[1..][k] == w[k + 1];
      TrimStartOfSpaces(w[1..]);
    }
  }

  /** Whitespace runs are replaced where they are: the result for `a + x` is the result for
      `a` followed by the result for `x`, when `x` starts with a non-space character (so no
      run spans the boundary). */
  lemma {:induction false} SpaceRunsAppend(a: string, x: string)
    requires x != [] && !IsSpace(x[0])
    ensures SpaceRunsToHyphens(a + x) == SpaceRunsToHyphens(a) + SpaceRunsToHyphens(x)
    decreases |a|
  {
    if a == [] {
      assert a + x == x;
    } else if IsSpace(a[0]) {
      SpaceRunsUnfoldAtSpace(a, x);
      SpaceRunsAppend(TrimStart(a), x);
      PrefixedAppend("-", SpaceRunsToHyphens(a + x), SpaceRunsToHyphens(a),
        SpaceRunsToHyphens(TrimStart(a) + x), SpaceRunsToHyphens(TrimStart(a)), SpaceRunsToHyphens(x));
    } else {
      SpaceRunsUnfoldAtOther(a, x);
      SpaceRunsAppend(a[1..], x);
      PrefixedAppend([a[0]], SpaceRunsToHyphens(a + x), SpaceRunsToHyphens(a),
        SpaceRunsToHyphens(a[1..] + x), SpaceRunsToHyphens(a[1..]), SpaceRunsToHyphens(x));
    }
  }

  /** One step of `SpaceRunsToHyphens` at a leading whitespace run, with and without `x`. */
  lemma SpaceRunsUnfoldAtSpace(a: string, x: string)
    requires a != [] && IsSpace(a[0]) && x != [] && !IsSpace(x[0])
    ensures SpaceRunsToHyphens(a + x) == "-" + SpaceRunsToHyphens(TrimStart(a) + x)
    ensures SpaceRunsToHyphens(a) == "-" + SpaceRunsToHyphens(TrimStart(a))
  {
    assert (a + x)[0] == a[0];
    TrimStartAppend(a, x);
  }

  /** One step of `SpaceRunsToHyphens` at a leading non-space character. */
  lemma SpaceRunsUnfoldAtOther(a: string, x: string)
    requires a != [] && !IsSpace(a[0])
    ensures SpaceRunsToHyphens(a + x) == [a[0]] + SpaceRunsToHyphens(a[1..] + x)
    ensures SpaceRunsToHyphens(a) == [a[0]] + SpaceRunsToHyphens(a[1..])
  {
    assert (a + x)[0] == a[0] && (a + x)[1..] == a[1..] + x;
  }

  /** A whole run of whitespace becomes exactly one `-`. */
  lemma SpaceRunIsOneHyphen(w: string)
    requires w != [] && forall k :: 0 <= k < |w| ==> IsSpace(w[k])
    ensures SpaceRunsToHyphens(w) == "-"
  {
    TrimStartOfSpaces(w);
  }

  /** `SkipHyphens` stops at the first character other than `-`. */
  lemma {:induction false} SkipHyphensAppend(a: string, x: string)
    requires x != [] && x[0] != '-'
    ensures SkipHyphens(a + x) == SkipHyphens(a) + x
  {
    if a != [] {
      assert (a + x)[0] == a[0];
      if a[0] == '-' {
        assert (a + x)[1..] == a[1..] + x;
        SkipHyphensAppend(a[1..], x);
      }
    }
  }

  /** A string of hyphens only is dropped whole by `SkipHyphens`. */
  lemma {:induction false} SkipHyphensOfHyphens(w: string)
    requires forall k :: 0 <= k < |w| ==> w[k] == '-'
    ensures SkipHyphens(w) == []
  {
    if w != [] {
      assert forall k :: 0 <= k < |w[1..]| ==> w[1..][k] == w[k + 1];
      SkipHyphensOfHyphens(w[1..]);
    }
  }

  /** Hyphen runs are collapsed where they are: the result for `a + x` is the result for `a`
      followed by the result for `x`, when `x` starts with a character other than `-`. */
  lemma {:induction false} CollapseHyphensAppend(a: string, x: string)
    requires x != [] && x[0] != '-'
    ensures CollapseHyphens(a + x) == CollapseHyphens(a) + CollapseHyphens(x)
    decreases |a|
  {
    if a == [] {
      assert a + x == x;
    } else if |a| >= 2 && a[0] == '-' && a[1] == '-' {
      CollapseUnfoldAtRun(a, x);
      CollapseHyphensAppend(SkipHyphens(a), x);
      PrefixedAppend("-", CollapseHyphens(a + x), CollapseHyphens(a),
        CollapseHyphens(SkipHyphens(a) + x), CollapseHyphens(SkipHyphens(a)), CollapseHyphens(x));
    } else {
      CollapseUnfoldAtOther(a, x);
      CollapseHyphensAppend(a[1..], x);
      PrefixedAppend([a[0]], CollapseHyphens(a + x), CollapseHyphens(a),
        CollapseHyphens(a[1..] + x), CollapseHyphens(a[1..]), CollapseHyphens(x));
    }
  }

  /** One step of `CollapseHyphens` at a leading run of two or more hyphens. */
  lemma CollapseUnfoldAtRun(a: string, x: string)
    requires |a| >= 2 && a[0] == '-' && a[1] == '-' && x != [] && x[0] != '-'
    ensures CollapseHyphens(a + x) == "-" + CollapseHyphens(SkipHyphens(a) + x)
    ensures CollapseHyphens(a) == "-" + CollapseHyphens(SkipHyphens(a))
  {
    assert (a + x)[0] == a[0] && (a + x)[1] == a[1];
    SkipHyphensAppend(a, x);
  }

  /** One step of `CollapseHyphens` at any other leading character. */
  lemma CollapseUnfoldAtOther(a: string, x: string)
    requires a != [] && !(|a| >= 2 && a[0] == '-' && a[1] == '-') && x != [] && x[0] != '-'
    ensures CollapseHyphens(a + x) == [a[0]] + CollapseHyphens(a[1..] + x)
    ensures CollapseHyphens(a) == [a[0]] + CollapseHyphens(a[1..])
  {
    assert (a + x)[0] == a[0] && (a + x)[1..] == a[1..] + x;
    assert |a| == 1 ==> (a + x)[1] == x[0];
    assert |a| >= 2 ==> (a + x)[1] == a[1];
  }

  /** A whole run of hyphens becomes exactly one `-`. */
  lemma CollapseHyphenRun(w: string)
    requires w != [] && forall k :: 0 <= k < |w| ==> w[k] == '-'
    ensures CollapseHyphens(w) == "-"
  {
    if |w| >= 2 {
      SkipHyphensOfHyphens(w);
    }
  }

  // ---------------------------------------------------------------------------
  // Each stage leaves a slug unchanged, so slugify is idempotent.

  lemma {:induction false} StripMarksKeeps(s: string)
    requires forall c :: c in s ==> !IsCombiningMark(c)
    ensures StripMarks(s) == s
  {
    if s != [] {
      assert s[0] in s;
      assert forall c :: c in s[1..] ==> c in s;
      StripMarksKeeps(s[1..]);
    }
  }

  lemma {:induction false} LowerKeeps(s: string)
    requires forall c :: c in s ==> !IsAsciiUpper(c)
    ensures Lower(s) == s
  {
    if s != [] {
      assert s[0] in s;
      assert forall c :: c in s[1..] ==> c in s;
      LowerKeeps(s[1..]);
    }
  }

  lemma TrimKeeps(s: string)
    requires forall c :: c in s ==> !IsSpace(c)
    ensures Trim(s) == s
  {
    if s != [] {
      assert s[0] in s && s[|s| - 1] in s;
    }
  }

  lemma {:induction false} UnderscoresKeep(s: string)
    requires forall c :: c in s ==> c != '_'
    ensures UnderscoresToHyphens(s) == s
  {
    if s != [] {
      assert s[0] in s;
      assert forall c :: c in s[1..] ==> c in s;
      UnderscoresKeep(s[1..]);
    }
  }

  lemma {:induction false} SpaceRunsKeep(s: string)
    requires forall c :: c in s ==> !IsSpace(c)
    ensures SpaceRunsToHyphens(s) == s
  {
    if s != [] {
      assert s[0] in s;
      assert forall c :: c in s[1..] ==> c in s;
      SpaceRunsKeep(s[1..]);
    }
  }

  lemma {:induction false} KeepWordKeeps(s: string)
    requires forall c :: c in s ==> IsWordChar(c) || c == '-'
    ensures KeepWordAndHyphen(s) == s
  {
    if s != [] {
      assert s[0] in s;
      assert forall c :: c in s[1..] ==> c in s;
      KeepWordKeeps(s[1..]);
    }
  }

  lemma {:induction false} CollapseHyphensKeeps(s: string)
    requires NoDoubleHyphen(s)
    ensures CollapseHyphens(s) == s
  {
    if s != [] {
      assert NoDoubleHyphen(s[1..]) by {
        forall i | 0 <= i < |s[1..]| - 1 ensures !(s[1..][i] == '-' && s[1..][i + 1] == '-') {
          assert s[1..][i] == s[i + 1] && s[1..][i + 1] == s[i + 2];
        }
      }
      CollapseHyphensKeeps(s[1..]);
    }
  }

  /** A string is left unchanged by slugify exactly when it is already a slug. */
  lemma SlugifyFixedPoint(s: string)
    ensures Slugify(s) == s <==> IsSlug(s)
  {
    if IsSlug(s) {
      assert forall c :: c in s ==> !IsCombiningMark(c) && !IsAsciiUpper(c) && !IsSpace(c) && c != '_' by {
        forall c | c in s ensures IsSlugChar(c) { }
      }
      FrontStagesKeep(s);
      UnderscoresKeep(s);
      BackStagesKeep(s);
    }
  }

  /** slugify(slugify(x)) == slugify(x) */
  lemma SlugifyIdempotent(text: string)
    ensures Slugify(Slugify(text)) == Slugify(text)
  {
    SlugifyFixedPoint(Slugify(text));
  }

  // ---------------------------------------------------------------------------
  // What slugify keeps of a name

  lemma LowerKeepsChar(s: string, c: char)
    requires c in s
    ensures LowerChar(c) in Lower(s)
  {
    var k :| 0 <= k < |s| && s[k] == c;
    assert Lower(s)[k] == LowerChar(c);
  }

  lemma TrimKeepsNonSpace(s: string, c: char)
    requires c in s && !IsSpace(c)
    ensures c in Trim(s)
  {
    var t := TrimStart(s);
    var i := |s| - |t|;
    var k :| 0 <= k < |s| && s[k] == c;
    assert !SpaceAt(s, k);
    assert i <= k;
    assert t[k - i] == c && !SpaceAt(t, k - i);
    assert k - i < |TrimEnd(t)|;
    assert Trim(s)[k - i] == c;
  }

  lemma UnderscoresKeepChar(s: string, c: char)
    requires c in s
    ensures (if c == '_' then '-' else c) in UnderscoresToHyphens(s)
  {
    var k :| 0 <= k < |s| && s[k] == c;
    assert UnderscoresToHyphens(s)[k] == (if c == '_' then '-' else c);
  }

  /** The stages after lower-casing keep a character that is neither whitespace nor `_`,
      and turn `_` into a `-` that stays. */
  lemma LaterStagesKeep(lowered: string, c: char)
    requires c in lowered && !IsSpace(c) && (IsWordChar(c) || c == '-')
    ensures (if c == '_' then '-' else c) in
      CollapseHyphens(KeepWordAndHyphen(SpaceRunsToHyphens(UnderscoresToHyphens(Trim(lowered)))))
  {
    var d := if c == '_' then '-' else c;
    TrimKeepsNonSpace(lowered, c);
    UnderscoresKeepChar(Trim(lowered), c);
    var spaced := SpaceRunsToHyphens(UnderscoresToHyphens(Trim(lowered)));
    assert d in spaced;
    assert d in KeepWordAndHyphen(spaced);
  }

  /** Every ASCII letter and digit of a name survives slugify, lower-cased. */
  lemma SlugifyKeepsLetterOrDigit(text: string, c: char)
    requires c in text && (IsAsciiUpper(c) || IsAsciiLower(c) || IsDigit(c))
    ensures LowerChar(c) in Slugify(text)
  {
    LowerKeepsChar(StripMarks(text), c);
    LaterStagesKeep(Lower(StripMarks(text)), LowerChar(c));
  }

  /** A name with `_` or `-` in it gets a `-` in its slug. */
  lemma SlugifyKeepsHyphen(text: string)
    requires '_' in text || '-' in text
    ensures '-' in Slugify(text)
  {
    var c := if '_' in text then '_' else '-';
    LowerKeepsChar(StripMarks(text), c);
    LaterStagesKeep(Lower(StripMarks(text)), c);
  }

  // ---------------------------------------------------------------------------
  // A slug may begin with a hyphen, and different names may share a slug.

  /** A string with no marks, upper-case letters or whitespace goes through the first three
      stages unchanged. */
  lemma FrontStagesKeep(s: string)
    requires forall c :: c in s ==> !IsCombiningMark(c) && !IsAsciiUpper(c) && !IsSpace(c)
    ensures Trim(Lower(StripMarks(s))) == s
  {
    StripMarksKeeps(s);
    LowerKeeps(s);
    TrimKeeps(s);
  }

  /** A slug goes through the last three stages unchanged. */
  lemma BackStagesKeep(u: string)
    requires IsSlug(u)
    ensures CollapseHyphens(KeepWordAndHyphen(SpaceRunsToHyphens(u))) == u
  {
    assert forall c :: c in u ==> IsSlugChar(c);
    SpaceRunsKeep(u);
    KeepWordKeeps(u);
    CollapseHyphensKeeps(u);
  }

  /** If the underscore stage already yields a slug from such a string, that is the result. */
  lemma SlugifyWithoutMarksCaseOrSpace(s: string, u: string)
    requires forall c :: c in s ==> !IsCombiningMark(c) && !IsAsciiUpper(c) && !IsSpace(c)
    requires UnderscoresToHyphens(s) == u && IsSlug(u)
    ensures Slugify(s) == u
  {
    FrontStagesKeep(s);
    BackStagesKeep(u);
  }

  lemma LeadingUnderscoreBecomesHyphen(t: string)
    requires forall c :: c in t ==> c != '_'
    ensures UnderscoresToHyphens("_" + t) == "-" + t
  {
    assert ("_" + t)[1..] == t;
    UnderscoresKeep(t);
  }

  lemma HyphenBeforeSlug(t: string)
    requires IsSlug(t) && (t == [] || t[0] != '-')
    ensures IsSlug("-" + t)
  {
    var u := "-" + t;
    assert forall c :: c in u ==> c == '-' || c in t;
    forall i | 0 <= i < |u| - 1 ensures !(u[i] == '-' && u[i + 1] == '-') {
      if i > 0 {
        assert u[i] == t[i - 1] && u[i + 1] == t[i];
      }
    }
  }

  /** Trimming happens before the underscore stage, so a leading `_` survives as a leading
      `-`: slugify does not keep hyphens off the ends of its result. */
  lemma {:induction false} LeadingUnderscoreGivesLeadingHyphen(t: string)
    requires IsSlug(t) && (t == [] || t[0] != '-')
    ensures Slugify("_" + t) == "-" + t
  {
    LeadingUnderscoreBecomesHyphen(t);
    HyphenBeforeSlug(t);
    UnderscoreBeforeSlugIsPlain(t);
    SlugifyWithoutMarksCaseOrSpace("_" + t, "-" + t);
  }

  lemma UnderscoreBeforeSlugIsPlain(t: string)
    requires IsSlug(t)
    ensures forall c :: c in "_" + t ==> !IsCombiningMark(c) && !IsAsciiUpper(c) && !IsSpace(c)
  {
    forall c | c in "_" + t ensures !IsCombiningMark(c) && !IsAsciiUpper(c) && !IsSpace(c) {
      if c != '_' {
        assert c in t && IsSlugChar(c);
      }
    }
  }

  /** Two different names can slugify to the same key. */
  lemma {:induction false} DistinctNamesShareSlug(t: string)
    requires IsSlug(t) && (t == [] || t[0] != '-')
    ensures "_" + t != "-" + t
    ensures Slugify("_" + t) == Slugify("-" + t) == "-" + t
  {
    assert ("_" + t)[0] != ("-" + t)[0];
    LeadingUnderscoreGivesLeadingHyphen(t);
    HyphenBeforeSlug(t);
    SlugifyFixedPoint("-" + t);
  }

  // ---------------------------------------------------------------------------
  // A worked case: "A b" becomes "a-b", one stage at a time.

  lemma SlugifyWorkedCase()
    ensures Slugify("A b") == "a-b"
  {
    StripMarksWorked();
    LowerWorked();
    TrimWorked();
    UnderscoresWorked();
    SpaceBetween('a', 'b');
    KeepWordWorked();
    CollapseWorked();
  }

  lemma StripMarksWorked()
    ensures StripMarks("A b") == "A b"
  {
    assert StripMarks("A b") == "A b";
  }

  lemma LowerWorked()
    ensures Lower("A b") == "a b"
  {
    assert Lower("A b") == "a b";
  }

  lemma TrimWorked()
    ensures Trim("a b") == "a b"
  {
    assert Trim("a b") == "a b";
  }

  lemma UnderscoresWorked()
    ensures UnderscoresToHyphens("a b") == "a b"
  {
    assert UnderscoresToHyphens("a b") == "a b";
  }

  /** A single space between two other characters becomes a single `-`. */
  lemma SpaceBetween(c: char, d: char)
    requires !IsSpace(c) && !IsSpace(d)
    ensures SpaceRunsToHyphens([c, ' ', d]) == [c, '-', d]
  {
    PairThenOne(c, ' ', d);
    SpaceRunsAppend([c, ' '], [d]);
    SpaceAfter(c);
    SpaceRunsOfOne(d);
    PairThenOne(c, '-', d);
  }

  lemma PairThenOne<T>(x: T, y: T, z: T)
    ensures [x, y] + [z] == [x, y, z]
  {
  }

  lemma SpaceAfter(c: char)
    requires !IsSpace(c)
    ensures SpaceRunsToHyphens([c, ' ']) == [c, '-']
  {
    SpaceRunsUnfoldAtOther([c, ' '], [c]);
    assert [c, ' '][1..] == [' '];
    SpaceRunIsOneHyphen([' ']);
  }

  lemma SpaceRunsOfOne(d: char)
    requires !IsSpace(d)
    ensures SpaceRunsToHyphens([d]) == [d]
  {
    SpaceRunsUnfoldAtOther([d], [d]);
    assert [d][1..] == [];
  }

  lemma KeepWordWorked()
    ensures KeepWordAndHyphen("a-b") == "a-b"
  {
    assert "a-b" == "a" + "-" + "b";
    KeepWordAndHyphenAppend("a" + "-", "b");
    KeepWordAndHyphenAppend("a", "-");
    assert "a"[1..] == [] && "-"[1..] == [] && "b"[1..] == [];
  }

  lemma CollapseWorked()
    ensures CollapseHyphens("a-b") == "a-b"
  {
    assert "a-b"[1..] == "-b" && "-b"[1..] == "b" && "b"[1..] == [];
    assert CollapseHyphens("b") == "b";
    assert CollapseHyphens("-b") == "-b";
  }
}
