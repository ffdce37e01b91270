/**
 * Text helpers shared by the playlist parser, the guide serialiser and the
 * search routes: substring search (the `find` behind nom's `take_until` and
 * `str::contains`), ASCII lower-casing, Rust's `trim` and `lines`, and the
 * decimal forms of integers that `i32::from_str` and `Display` use.
 */
module Strings {
  import opened Wrappers

  // ---------------------------------------------------------------------------
  // Substring search
  // ---------------------------------------------------------------------------

  /** `p` occurs in `s` at index `i`. */
  predicate StartsAt(s: string, p: string, i: int)
  {
    0 <= i <= |s| && p <= s[i..]
  }

  /** `p` occurs nowhere in `s`. */
  predicate Absent(p: string, s: string)
  {
    forall i :: 0 <= i <= |s| ==> !StartsAt(s, p, i)
  }

  /** `s` ends with `suffix`. */
  predicate EndsWith(s: string, suffix: string)
  {
    |suffix| <= |s| && s[|s| - |suffix|..] == suffix
  }

  lemma StartsAtTail(s: string, p: string)
    requires |s| > 0
    ensures forall i :: 1 <= i <= |s| ==> (StartsAt(s, p, i) <==> StartsAt(s[1..], p, i - 1))
  {
    forall i | 1 <= i <= |s|
      ensures StartsAt(s, p, i) <==> StartsAt(s[1..], p, i - 1)
    {
      assert s[1..][i - 1..] == s[i..];
    }
  }

  /** Index of the first occurrence of `p` in `s`, as `str::find` computes it. */
  function IndexOf(s: string, p: string): (r: Option<nat>)
    ensures r.Some? ==> StartsAt(s, p, r.value) && forall i :: 0 <= i < r.value ==> !StartsAt(s, p, i)
    ensures r.None? <==> Absent(p, s)
    decreases |s|
  {
    if p <= s then Some(0)
    else if |s| == 0 then None
    else
      StartsAtTail(s, p);
      match IndexOf(s[1..], p)
      case None => None
      case Some(k) => Some(k + 1)
  }

  /** `s.contains(p)` */
  predicate Contains(s: string, p: string)
  {
    IndexOf(s, p).Some?
  }

  /** Occurrences of `p` at index `i` of `a + [c] + b`, split by where they lie. */
  lemma StartsAtSplit(a: string, c: char, b: string, p: string, i: int)
    ensures StartsAt(a + [c] + b, p, i) ==>
      || (i + |p| <= |a| && StartsAt(a, p, i))
      || (i > |a| && StartsAt(b, p, i - |a| - 1))
      || (i <= |a| < i + |p| && p[|a| - i] == c && a[i..] == p[..|a| - i] && p[|a| - i + 1..] <= b)
  {
    var s := a + [c] + b;
    if StartsAt(s, p, i) {
      if i + |p| <= |a| {
        assert a[i..][..|p|] == s[i..][..|p|];
      } else if i > |a| {
        assert s[i..] == b[i - |a| - 1..];
      } else {
        var k := |a| - i;
        assert s[i..][k] == c;
        assert a[i..] == s[i..][..k];
        assert p[k + 1..] == s[i..][k + 1..|p|];
        assert s[i..][k + 1..] == b;
      }
    }
  }

  /** The characters of an occurrence. */
  lemma StartsAtChar(s: string, p: string, i: int, k: int)
    ensures StartsAt(s, p, i) && 0 <= k < |p| ==> i + k < |s| && s[i + k] == p[k]
  {
    if StartsAt(s, p, i) && 0 <= k < |p| {
      assert s[i..][k] == p[k];
    }
  }

  /** `p` found right after a prefix `f` that does not contain `p`'s first character. */
  lemma FoundAfter(f: string, p: string, t: string)
    requires |p| > 0 && p[0] !in f
    ensures IndexOf(f + p + t, p) == Some(|f|)
  {
    var s := f + p + t;
    assert s[|f|..] == p + t;
    assert StartsAt(s, p, |f|);
    forall i | 0 <= i < |f|
      ensures !StartsAt(s, p, i)
    {
      assert s[i] == f[i];
    }
  }

  lemma AbsentByChar(p: string, s: string, c: char)
    requires c in p && c !in s
    ensures Absent(p, s)
  {
    var k :| 0 <= k < |p| && p[k] == c;
    forall i | 0 <= i <= |s|
      ensures !StartsAt(s, p, i)
    {
      StartsAtChar(s, p, i, k);
    }
  }

  lemma AbsentCons(c: char, s: string, p: string)
    requires Absent(p, s) && |p| > 0 && p[0] != c
    ensures Absent(p, [c] + s)
  {
    StartsAtTail([c] + s, p);
    assert ([c] + s)[1..] == s;
  }

  // ---------------------------------------------------------------------------
  // Segments separated by one character
  // ---------------------------------------------------------------------------

  /** `gs[0] + [q] + gs[1] + [q] + ... + gs[|gs|-1]` */
  function Interleave(gs: seq<string>, q: char): string
    requires |gs| > 0
  {
    if |gs| == 1 then gs[0] else gs[0] + [q] + Interleave(gs[1..], q)
  }

  predicate FreeOf(gs: seq<string>, q: char)
  {
    forall j :: 0 <= j < |gs| ==> q !in gs[j]
  }

  lemma InterleaveFree(gs: seq<string>, q: char, c: char)
    requires |gs| > 0 && c != q && FreeOf(gs, c)
    ensures c !in Interleave(gs, q)
  {
    if |gs| > 1 {
      InterleaveFree(gs[1..], q, c);
    }
  }

  /** A text `p` free of the separator occurs only inside one segment. */
  lemma {:induction false} InterleavePlainAbsent(gs: seq<string>, q: char, p: string)
    requires |gs| > 0 && q !in p
    requires forall j :: 0 <= j < |gs| ==> Absent(p, gs[j])
    ensures Absent(p, Interleave(gs, q))
  {
    if |gs| > 1 {
      InterleavePlainAbsent(gs[1..], q, p);
      var a, b := gs[0], Interleave(gs[1..], q);
      assert Absent(p, a) && Absent(p, b);
      forall i | 0 <= i <= |a + [q] + b|
        ensures !StartsAt(a + [q] + b, p, i)
      {
        StartsAtSplit(a, q, b, p, i);
      }
    }
  }

  lemma QuotedPrefix(g: string, seg: string, q: char, rest: string)
    ensures q !in g && q !in seg && (rest == [] || rest[0] == q) && g + [q] <= seg + rest ==>
      g == seg && rest != []
  {
    var s := seg + rest;
    if q !in g && q !in seg && (rest == [] || rest[0] == q) && g + [q] <= s {
      PrefixChar(g + [q], s, |g|);
      PrefixChar(g + [q], s, |seg|);
      assert |g| == |seg|;
      assert g == (g + [q])[..|g|] == s[..|g|] == seg;
    }
  }

  lemma PrefixChar(x: string, y: string, k: int)
    ensures x <= y && 0 <= k < |x| ==> k < |y| && x[k] == y[k]
  {
  }

  /** `[q] + g + [q]` occurs only around an inner segment equal to `g`. */
  lemma {:induction false} InterleaveQuotedAbsent(gs: seq<string>, q: char, g: string)
    requires |gs| > 0 && FreeOf(gs, q) && q !in g
    requires forall j :: 1 <= j < |gs| - 1 ==> gs[j] != g
    ensures Absent([q] + g + [q], Interleave(gs, q))
  {
    var p := [q] + g + [q];
    if |gs| == 1 {
      AbsentByChar(p, gs[0], q);
    } else {
      InterleaveQuotedAbsent(gs[1..], q, g);
      var a, b := gs[0], Interleave(gs[1..], q);
      var rest := if |gs| == 2 then [] else [q] + Interleave(gs[2..], q);
      assert b == gs[1] + rest;
      assert p[1..] == g + [q];
      QuotedPrefix(g, gs[1], q, rest);
      forall i | 0 <= i <= |a + [q] + b|
        ensures !StartsAt(a + [q] + b, p, i)
      {
        StartsAtSplit(a, q, b, p, i);
        StartsAtChar(a, p, i, 0);
        if 0 <= i < |a| {
          assert a[i..][0] == a[i];
        }
      }
    }
  }

  /** `g + [q]` occurs only at the end of a segment that ends with `g`. */
  lemma {:induction false} InterleaveSuffixAbsent(gs: seq<string>, q: char, g: string)
    requires |gs| > 0 && FreeOf(gs, q) && q !in g
    requires forall j :: 0 <= j < |gs| - 1 ==> !EndsWith(gs[j], g)
    ensures Absent(g + [q], Interleave(gs, q))
  {
    var p := g + [q];
    if |gs| == 1 {
      AbsentByChar(p, gs[0], q);
    } else {
      InterleaveSuffixAbsent(gs[1..], q, g);
      var a, b := gs[0], Interleave(gs[1..], q);
      assert !EndsWith(a, g);
      forall i | 0 <= i <= |a + [q] + b|
        ensures !StartsAt(a + [q] + b, p, i)
      {
        StartsAtSplit(a, q, b, p, i);
        StartsAtChar(a, p, i, |g|);
        if 0 <= i <= |a| && |a| - i == |g| {
          assert p[..|g|] == g;
        }
      }
    }
  }

  // ---------------------------------------------------------------------------
  // Case folding (ASCII only)
  // ---------------------------------------------------------------------------

  function LowerChar(c: char): char
  {
    if 'A' <= c <= 'Z' then (c as int + 32) as char else c
  }

  /** `to_lowercase`, restricted to the ASCII letters. */
  function Lower(s: string): (r: string)
    ensures |r| == |s| && forall i :: 0 <= i < |s| ==> r[i] == LowerChar(s[i])
  {
    seq(|s|, i requires 0 <= i < |s| => LowerChar(s[i]))
  }

  // ---------------------------------------------------------------------------
  // trim and lines
  // ---------------------------------------------------------------------------

  /** Rust's `char::is_whitespace`: the Unicode White_Space property. */
  predicate IsWhitespace(c: char)
  {
    || '\t' <= c <= '\r' || c == ' ' || c == '\U{0085}' || c == '\U{00A0}' || c == '\U{1680}'
    || '\U{2000}' <= c <= '\U{200A}' || c == '\U{2028}' || c == '\U{2029}' || c == '\U{202F}'
    || c == '\U{205F}' || c == '\U{3000}'
  }

  function TrimStart(s: string): (r: string)
    ensures |r| <= |s| && r == s[|s| - |r|..]
    ensures r == [] || !IsWhitespace(r[0])
  {
    if |s| > 0 && IsWhitespace(s[0]) then TrimStart(s[1..]) else s
  }

  function TrimEnd(s: string): (r: string)
    ensures |r| <= |s| && r == s[..|r|]
    ensures r == [] || !IsWhitespace(r[|r| - 1])
  {
    if |s| > 0 && IsWhitespace(s[|s| - 1]) then TrimEnd(s[..|s| - 1]) else s
  }

  /** Everything `trim_start` drops is whitespace. */
  lemma {:induction false} TrimStartDropsWhitespace(s: string)
    ensures forall i :: 0 <= i < |s| - |TrimStart(s)| ==> IsWhitespace(s[i])
  {
    if |s| > 0 && IsWhitespace(s[0]) {
      TrimStartDropsWhitespace(s[1..]);
      assert forall i :: 1 <= i < |s| ==> s[i] == s[1..][i - 1];
    }
  }

  /** Everything `trim_end` drops is whitespace. */
  lemma {:induction false} TrimEndDropsWhitespace(s: string)
    ensures forall i :: |TrimEnd(s)| <= i < |s| ==> IsWhitespace(s[i])
  {
    if |s| > 0 && IsWhitespace(s[|s| - 1]) {
      TrimEndDropsWhitespace(s[..|s| - 1]);
      assert forall i :: 0 <= i < |s| - 1 ==> s[i] == s[..|s| - 1][i];
    }
  }

  /** `str::trim` */
  function Trim(s: string): (r: string)
    ensures |r| <= |s|
    ensures r == [] || (!IsWhitespace(r[0]) && !IsWhitespace(r[|r| - 1]))
  {
    TrimEnd(TrimStart(s))
  }

  /** `trim` adds no character: what is absent from the input is absent from the result. */
  lemma TrimNoCharAdded(s: string, c: char)
    ensures c !in s ==> c !in Trim(s)
  {
    TrimStartNoChar(s, c);
    TrimEndNoChar(TrimStart(s), c);
  }

  lemma {:induction false} TrimStartNoChar(s: string, c: char)
    ensures c !in s ==> c !in TrimStart(s)
  {
    if |s| > 0 && IsWhitespace(s[0]) {
      TrimStartNoChar(s[1..], c);
      assert c !in s ==> c !in s[1..];
    }
  }

  lemma {:induction false} TrimEndNoChar(s: string, c: char)
    ensures c !in s ==> c !in TrimEnd(s)
  {
    if |s| > 0 && IsWhitespace(s[|s| - 1]) {
      TrimEndNoChar(s[..|s| - 1], c);
      assert c !in s ==> c !in s[..|s| - 1];
    }
  }

  lemma TrimUnchanged(s: string)
    requires |s| > 0 && !IsWhitespace(s[0]) && !IsWhitespace(s[|s| - 1])
    ensures Trim(s) == s
  {
  }

  predicate AllWhitespace(s: string)
  {
    forall i :: 0 <= i < |s| ==> IsWhitespace(s[i])
  }

  lemma {:induction false} TrimStartPadded(pre: string, x: string)
    requires AllWhitespace(pre) && x != [] && !IsWhitespace(x[0])
    ensures TrimStart(pre + x) == x
  {
    if pre != [] {
      assert (pre + x)[1..] == pre[1..] + x;
      TrimStartPadded(pre[1..], x);
    } else {
      assert pre + x == x;
    }
  }

  lemma {:induction false} TrimEndPadded(x: string, post: string)
    requires AllWhitespace(post) && x != [] && !IsWhitespace(x[|x| - 1])
    ensures TrimEnd(x + post) == x
  {
    if post != [] {
      assert (x + post)[..|x + post| - 1] == x + post[..|post| - 1];
      TrimEndPadded(x, post[..|post| - 1]);
    } else {
      assert x + post == x;
    }
  }

  /** Trimming text padded with whitespace on both sides gives the text back. */
  lemma TrimPadded(pre: string, x: string, post: string)
    requires AllWhitespace(pre) && AllWhitespace(post)
    requires x != [] && !IsWhitespace(x[0]) && !IsWhitespace(x[|x| - 1])
    ensures Trim(pre + x + post) == x
  {
    assert pre + x + post == pre + (x + post);
    TrimStartPadded(pre, x + post);
    TrimEndPadded(x, post);
  }

  /** Index of the first `c` in `s`, or `|s|` when there is none. */
  function FindChar(s: string, c: char): (r: nat)
    ensures r <= |s| && c !in s[..r] && (r < |s| ==> s[r] == c)
  {
    if |s| == 0 || s[0] == c then 0 else 1 + FindChar(s[1..], c)
  }

  /** Drops one `\r` left in front of a `\n` line break. */
  function StripCr(line: string): string
  {
    if |line| > 0 && line[|line| - 1] == '\r' then line[..|line| - 1] else line
  }

  /**
   * `str::lines`: split at `\n`, drop a `\r` directly before it, and produce no
   * empty last line after a final `\n`.
   */
  function Lines(s: string): (r: seq<string>)
    ensures forall k :: 0 <= k < |r| ==> '\n' !in r[k]
    decreases |s|
  {
    if s == [] then []
    else
      var i := FindChar(s, '\n');
      if i == |s| then [s] else [StripCr(s[..i])] + Lines(s[i + 1..])
  }

  /** The first `c` is found where it is. */
  lemma {:induction false} FindCharAt(s: string, c: char, i: nat)
    requires i < |s| && s[i] == c && c !in s[..i]
    ensures FindChar(s, c) == i
  {
    if i > 0 {
      assert s[0] in s[..i];
      assert s[1..][..i - 1] == s[1..i];
      assert forall x :: x in s[1..i] ==> x in s[..i];
      FindCharAt(s[1..], c, i - 1);
    }
  }

  lemma LinesCons(a: string, b: string)
    requires '\n' !in a && (a == [] || a[|a| - 1] != '\r')
    ensures Lines(a + "\n" + b) == [a] + Lines(b)
  {
    var s := a + "\n" + b;
    assert s[..|a|] == a;
    assert s[|a|] == '\n';
    FindCharAt(s, '\n', |a|);
    assert StripCr(a) == a;
    assert s[|a| + 1..] == b;
  }

  lemma LinesSingle(a: string)
    requires a != [] && '\n' !in a
    ensures Lines(a) == [a]
  {
    var i := FindChar(a, '\n');
    assert a[..i] == a[..i];
  }

  /** itertools' `join`: the items with `sep` between them. */
  function JoinWith(xs: seq<string>, sep: string): (r: string)
    ensures |xs| > 0 ==> xs[0] <= r
    ensures forall c :: c !in sep && (forall k :: 0 <= k < |xs| ==> c !in xs[k]) ==> c !in r
  {
    if |xs| == 0 then "" else if |xs| == 1 then xs[0] else xs[0] + sep + JoinWith(xs[1..], sep)
  }

  // ---------------------------------------------------------------------------
  // 32-bit integers in decimal
  // ---------------------------------------------------------------------------

  type I32 = x: int | -0x8000_0000 <= x <= 0x7FFF_FFFF

  predicate IsDigit(c: char)
  {
    '0' <= c <= '9'
  }

  predicate AllDigits(s: string)
  {
    forall i :: 0 <= i < |s| ==> IsDigit(s[i])
  }

  function DigitsValue(s: string): nat
    requires AllDigits(s)
  {
    if s == [] then 0 else DigitsValue(s[..|s| - 1]) * 10 + (s[|s| - 1] as int - '0' as int)
  }

  function NatToString(n: nat): (r: string)
    ensures |r| > 0 && AllDigits(r)
  {
    if n < 10 then [('0' as int + n) as char]
    else NatToString(n / 10) + [('0' as int + n % 10) as char]
  }

  /** `Display` for a signed integer: an optional `-` and the decimal digits. */
  function IntToString(x: int): (r: string)
    ensures |r| > 0
  {
    if x < 0 then "-" + NatToString(-x) else NatToString(x)
  }

  /** `str::parse::<i32>`: an optional sign, one or more digits, in range. */
  function ParseI32(s: string): (r: Option<I32>)
    ensures r.Some? ==> s != [] && IsDigit(s[|s| - 1]) && ' ' !in s
  {
    if s == [] then None
    else
      var negative := s[0] == '-';
      var digits := if s[0] == '+' || s[0] == '-' then s[1..] else s;
      if digits == [] || !AllDigits(digits) then None
      else
        var magnitude: int := DigitsValue(digits);
        var v := if negative then -magnitude else magnitude;
        if -0x8000_0000 <= v <= 0x7FFF_FFFF then Some(v) else None
  }

  lemma {:induction false} DigitsOfNat(n: nat)
    ensures DigitsValue(NatToString(n)) == n
  {
    if n >= 10 {
      DigitsOfNat(n / 10);
      var s := NatToString(n);
      assert s[..|s| - 1] == NatToString(n / 10);
    }
  }

  /** Parsing what `Display` wrote gives the integer back. */
  lemma ParseDisplayedI32(x: I32)
    ensures ParseI32(IntToString(x)) == Some(x)
  {
    var n: int := x;
    DigitsOfNat(if n < 0 then -n else n);
    if n < 0 {
      SignedDigitsParse(NatToString(-n), -n);
    } else {
      UnsignedDigitsParse(NatToString(n), n);
    }
  }

  lemma SignedDigitsParse(d: string, m: nat)
    requires d != [] && AllDigits(d) && DigitsValue(d) == m && m <= 0x8000_0000
    ensures ParseI32("-" + d) == Some(-(m as int))
  {
    var s := "-" + d;
    assert s[0] == '-';
    assert s[1..] == d;
  }

  lemma UnsignedDigitsParse(d: string, m: nat)
    requires d != [] && AllDigits(d) && DigitsValue(d) == m && m <= 0x7FFF_FFFF
    ensures ParseI32(d) == Some(m)
  {
    assert IsDigit(d[0]);
  }

  lemma NoSpaceInInt(x: int)
    ensures ' ' !in IntToString(x)
  {
    var s := IntToString(x);
    if x < 0 {
      assert forall i :: 1 <= i < |s| ==> s[i] == NatToString(-x)[i - 1];
    }
  }
}
