/** The JavaScript string operations the portal relies on (`toLowerCase`, `indexOf`, `includes`,
    `replace` with a string pattern, `split`, `join`, `trim`, number-to-decimal conversion),
    stated over `seq<char>`. */
module Text {
  import opened Wrappers

  predicate IsDigit(c: char) { '0' <= c <= '9' }
  predicate IsUpper(c: char) { 'A' <= c <= 'Z' }
  predicate IsLowerLetter(c: char) { 'a' <= c <= 'z' }

  /** The characters the class `[a-z0-9]` matches under the `i` flag. */
  predicate IsAsciiAlnum(c: char) { IsDigit(c) || IsUpper(c) || IsLowerLetter(c) }

  /** `toLowerCase` on one character, for the ASCII letters. */
  function LowerChar(c: char): char
  {
    if IsUpper(c) then (c as int - 'A' as int + 'a' as int) as char else c
  }

  /** `toLowerCase`, restricted to ASCII letters (every other character is kept). */
  function Lower(s: string): string
  {
    seq(|s|, i requires 0 <= i < |s| => LowerChar(s[i]))
  }

  /** JavaScript truthiness of an optional string. */
  predicate Truthy(v: Option<string>)
  {
    v.Some? && v.value != ""
  }

  // ---------------------------------------------------------------------------
  // Searching

  predicate OccursAt(s: string, pat: string, i: int)
  {
    0 <= i && i + |pat| <= |s| && s[i..i + |pat|] == pat
  }

  /** `s.indexOf(pat, from)`: the first occurrence of `pat` at or after `from`. */
  function IndexOfFrom(s: string, pat: string, from: nat): (r: Option<nat>)
    ensures r.Some? ==> from <= r.value && OccursAt(s, pat, r.value)
    ensures r.Some? ==> forall k :: from <= k < r.value ==> !OccursAt(s, pat, k)
    ensures r.None? ==> forall k :: from <= k ==> !OccursAt(s, pat, k)
    decreases |s| - from
  {
    if from + |pat| > |s| then None
    else if s[from..from + |pat|] == pat then Some(from)
    else IndexOfFrom(s, pat, from + 1)
  }

  /** `s.indexOf(pat)`. */
  function IndexOf(s: string, pat: string): Option<nat>
  {
    IndexOfFrom(s, pat, 0)
  }

  /** `s.includes(pat)`. */
  predicate Contains(s: string, pat: string)
  {
    IndexOf(s, pat).Some?
  }

  /** `s.replace(pat, rep)` with a string pattern: only the first occurrence is replaced.
      Every replacement used here is free of `$`, so no replacement pattern is expanded. */
  function ReplaceFirst(s: string, pat: string, rep: string): string
  {
    match IndexOf(s, pat)
    case None => s
    case Some(i) => s[..i] + rep + s[i + |pat|..]
  }

  // ---------------------------------------------------------------------------
  // split / join / filter(Boolean) / indexOf on arrays

  /** `s.split(c)` for a one-character separator. */
  function Split(s: string, c: char): (parts: seq<string>)
    ensures |parts| >= 1
    ensures forall k :: 0 <= k < |parts| ==> c !in parts[k]
    ensures c !in s <==> |parts| == 1
    ensures c !in s ==> parts == [s]
    decreases |s|
  {
    if s == [] then [""]
    else
      var rest := Split(s[1..], c);
      assert s == [s[0]] + s[1..];
      if s[0] == c then [""] + rest else [[s[0]] + rest[0]] + rest[1..]
  }

  /** `parts.join(c)`. */
  function Join(parts: seq<string>, c: char): string
    decreases |parts|
  {
    if |parts| == 0 then ""
    else if |parts| == 1 then parts[0]
    else parts[0] + [c] + Join(parts[1..], c)
  }

  /** A character that is neither the separator nor in any part is not in the joined string. */
  lemma {:induction false} JoinAvoids(parts: seq<string>, c: char, x: char)
    requires x != c
    requires forall k :: 0 <= k < |parts| ==> x !in parts[k]
    ensures x !in Join(parts, c)
    decreases |parts|
  {
    if |parts| > 1 {
      JoinAvoids(parts[1..], c, x);
    }
  }

  /** The last piece of `s.split(c)` is what follows the last `c`, or all of `s` without one. */
  function LastPiece(s: string, c: char): string
  {
    var parts := Split(s, c);
    parts[|parts| - 1]
  }

  lemma JoinConsHead(x: char, p: string, tail: seq<string>, c: char)
    ensures Join([[x] + p] + tail, c) == [x] + Join([p] + tail, c)
  {
    if |tail| > 0 {
      assert ([[x] + p] + tail)[1..] == tail;
      assert ([p] + tail)[1..] == tail;
    }
  }

  /** Joining the pieces of a split gives back the original text. */
  lemma {:induction false} JoinSplit(s: string, c: char)
    ensures Join(Split(s, c), c) == s
  {
    if s != [] {
      var rest := Split(s[1..], c);
      JoinSplit(s[1..], c);
      if s[0] == c {
        assert ([""] + rest)[1..] == rest;
        assert Join([""] + rest, c) == "" + [c] + Join(rest, c);
      } else {
        assert rest == [rest[0]] + rest[1..];
        JoinConsHead(s[0], rest[0], rest[1..], c);
      }
      assert s == [s[0]] + s[1..];
    }
  }

  lemma SplitConsSep(t: string, c: char)
    ensures Split([c] + t, c) == [""] + Split(t, c)
  {
    assert ([c] + t)[1..] == t;
  }

  lemma SplitConsOther(x: char, t: string, c: char)
    requires x != c
    ensures Split([x] + t, c) == [[x] + Split(t, c)[0]] + Split(t, c)[1..]
  {
    assert ([x] + t)[1..] == t;
  }

  /** Splitting at a separator that was written between two texts splits each text separately. */
  lemma {:induction false} SplitConcat(a: string, b: string, c: char)
    ensures Split(a + [c] + b, c) == Split(a, c) + Split(b, c)
  {
    if a == [] {
      assert [] + [c] + b == [c] + b;
      SplitConsSep(b, c);
    } else {
      var t := a[1..] + [c] + b;
      assert a + [c] + b == [a[0]] + t;
      assert a == [a[0]] + a[1..];
      SplitConcat(a[1..], b, c);
      SplitConcatStep(a[0], a[1..], t, c, Split(b, c));
    }
  }

  /** The step of `SplitConcat`: putting one character in front of both texts. */
  lemma SplitConcatStep(x: char, rest: string, t: string, c: char, tail: seq<string>)
    requires Split(t, c) == Split(rest, c) + tail
    ensures Split([x] + t, c) == Split([x] + rest, c) + tail
  {
    if x == c {
      SplitConsSep(t, c);
      SplitConsSep(rest, c);
    } else {
      SplitConcatStepOther(x, rest, t, c, tail);
    }
  }

  lemma SplitConcatStepOther(x: char, rest: string, t: string, c: char, tail: seq<string>)
    requires x != c
    requires Split(t, c) == Split(rest, c) + tail
    ensures Split([x] + t, c) == Split([x] + rest, c) + tail
  {
    var r := Split(rest, c);
    assert Split([x] + t, c) == [[x] + (r + tail)[0]] + (r + tail)[1..] by {
      SplitConsOther(x, t, c);
    }
    assert Split([x] + rest, c) == [[x] + r[0]] + r[1..] by {
      SplitConsOther(x, rest, c);
    }
    HeadOfAppend(r, tail);
    ConsAssoc([x] + r[0], r[1..], tail);
  }

  lemma HeadOfAppend<T>(a: seq<T>, b: seq<T>)
    requires a != []
    ensures (a + b)[0] == a[0] && (a + b)[1..] == a[1..] + b
  {
  }

  /** Splitting text that was built by joining separator-free pieces before a last one. */
  lemma {:induction false} SplitJoinLast(xs: seq<string>, last: string, c: char)
    requires forall k :: 0 <= k < |xs| ==> c !in xs[k]
    ensures Split(Join(xs + [last], c), c) == xs + Split(last, c)
  {
    if xs == [] {
      assert xs + [last] == [last];
    } else {
      var tail := xs[1..];
      var ys := tail + [last];
      SplitJoinLast(tail, last, c);
      SplitJoinCons(xs[0], ys, tail + Split(last, c), c);
      assert xs == [xs[0]] + tail;
      ConsAssoc(xs[0], tail, [last]);
      ConsAssoc(xs[0], tail, Split(last, c));
    }
  }

  lemma ConsAssoc<T>(x: T, a: seq<T>, b: seq<T>)
    ensures [x] + a + b == [x] + (a + b)
  {
  }

  /** Seven successive appends to an empty list give the seven elements in order. */
  lemma SevenAppends<T>(a: T, b: T, c: T, d: T, e: T, f: T, g: T)
    ensures [] + [a] + [b] + [c] + [d] + [e] + [f] + [g] == [a, b, c, d, e, f, g]
  {
  }

  lemma MiddleAssoc<T>(a: seq<T>, b: seq<T>, c: seq<T>, d: seq<T>)
    ensures a + (b + c) + d == a + b + c + d
  {
  }

  /** The step of `SplitJoinLast`: one more separator-free piece in front. */
  lemma SplitJoinCons(x: string, ys: seq<string>, split: seq<string>, c: char)
    requires c !in x && ys != []
    requires Split(Join(ys, c), c) == split
    ensures Split(Join([x] + ys, c), c) == [x] + split
  {
    assert Join([x] + ys, c) == x + [c] + Join(ys, c) by {
      assert ([x] + ys)[1..] == ys;
    }
    SplitConcat(x, Join(ys, c), c);
  }

  /** `p` is what follows the last `c` of `s`, or all of `s` when it has no `c`. */
  predicate IsLastPieceOf(p: string, s: string, c: char)
  {
    && |p| <= |s| && s[|s| - |p|..] == p && c !in p
    && (c in s ==> |p| < |s| && s[|s| - |p| - 1] == c)
    && (c !in s ==> p == s)
  }

  /** The last piece of a split is a suffix of the text, preceded by the separator when there is one. */
  lemma {:induction false} LastPieceIsSuffix(s: string, c: char)
    ensures IsLastPieceOf(LastPiece(s, c), s, c)
  {
    if s != [] {
      LastPieceIsSuffix(s[1..], c);
      LastPieceStep(s[0], s[1..], c);
      assert s == [s[0]] + s[1..];
    }
  }

  lemma LastPieceStep(x: char, t: string, c: char)
    requires IsLastPieceOf(LastPiece(t, c), t, c)
    ensures IsLastPieceOf(LastPiece([x] + t, c), [x] + t, c)
  {
    if x == c {
      LastPieceAfterSep(t, c);
    } else if c in t {
      LastPieceKeptPast(x, t, c);
    } else {
      LastPieceWhole(x, t, c);
    }
  }

  lemma LastPieceAfterSep(t: string, c: char)
    requires IsLastPieceOf(LastPiece(t, c), t, c)
    ensures IsLastPieceOf(LastPiece([c] + t, c), [c] + t, c)
  {
    var s := [c] + t;
    var q := LastPiece(t, c);
    assert LastPiece(s, c) == q by {
      SplitConsSep(t, c);
    }
    assert s[|s| - |q|..] == q by {
      assert t[|t| - |q|..] == q;
    }
    assert c in s by {
      assert s[0] == c;
    }
    assert |q| < |s| && s[|s| - |q| - 1] == c by {
      if c !in t {
        assert s[|s| - |q| - 1] == s[0];
      } else {
        assert s[|s| - |q| - 1] == t[|t| - |q| - 1];
      }
    }
  }

  lemma LastPieceKeptPast(x: char, t: string, c: char)
    requires x != c && c in t
    requires IsLastPieceOf(LastPiece(t, c), t, c)
    ensures IsLastPieceOf(LastPiece([x] + t, c), [x] + t, c)
  {
    var s := [x] + t;
    var q := LastPiece(t, c);
    assert s[|s| - |q|..] == q by {
      assert t[|t| - |q|..] == q;
    }
    SplitConsOther(x, t, c);
    assert LastPiece(s, c) == q;
    assert s[|s| - |q| - 1] == t[|t| - |q| - 1];
    assert c in s by { assert t[|t| - |q| - 1] == s[|s| - |q| - 1]; }
  }

  lemma LastPieceWhole(x: char, t: string, c: char)
    requires x != c && c !in t
    ensures IsLastPieceOf(LastPiece([x] + t, c), [x] + t, c)
  {
    var s := [x] + t;
    SplitConsOther(x, t, c);
    assert LastPiece(s, c) == s;
    assert c !in s by {
      forall k | 0 <= k < |s| ensures s[k] != c {
        if k > 0 { assert s[k] == t[k - 1]; }
      }
    }
  }

  /** `parts.filter(Boolean)`: the non-empty pieces, in order. */
  function NonEmpty(parts: seq<string>): (r: seq<string>)
    ensures forall k :: 0 <= k < |r| ==> r[k] != ""
    ensures forall x :: x in r <==> x in parts && x != ""
    decreases |parts|
  {
    if parts == [] then []
    else (if parts[0] == "" then [] else [parts[0]]) + NonEmpty(parts[1..])
  }

  lemma {:induction false} NonEmptyAppend(a: seq<string>, b: seq<string>)
    ensures NonEmpty(a + b) == NonEmpty(a) + NonEmpty(b)
  {
    if a != [] {
      assert (a + b)[1..] == a[1..] + b;
      NonEmptyAppend(a[1..], b);
    } else {
      assert a + b == b;
    }
  }

  lemma {:induction false} NonEmptyKeepsAll(parts: seq<string>)
    requires forall k :: 0 <= k < |parts| ==> parts[k] != ""
    ensures NonEmpty(parts) == parts
  {
    if parts != [] {
      NonEmptyKeepsAll(parts[1..]);
    }
  }

  /** `parts.indexOf(x)` on an array of strings. */
  function FirstIndex(parts: seq<string>, x: string): (r: Option<nat>)
    ensures r.Some? ==> r.value < |parts| && parts[r.value] == x
    ensures r.Some? ==> forall k :: 0 <= k < r.value ==> parts[k] != x
    ensures r.None? <==> x !in parts
    decreases |parts|
  {
    if parts == [] then None
    else if parts[0] == x then Some(0)
    else match FirstIndex(parts[1..], x)
      case None => None
      case Some(k) => Some(k + 1)
  }

  // ---------------------------------------------------------------------------
  // trim

  /** The characters `String.prototype.trim` removes: white space and line terminators. */
  predicate IsJsWhitespace(c: char)
  {
    || c == '\t' || c == '\n' || c == '\U{000B}' || c == '\U{000C}' || c == '\r' || c == ' '
    || c == '\U{00A0}' || c == '\U{1680}' || ('\U{2000}' <= c <= '\U{200A}')
    || c == '\U{2028}' || c == '\U{2029}' || c == '\U{202F}' || c == '\U{205F}'
    || c == '\U{3000}' || c == '\U{FEFF}'
  }

  predicate IsBlank(s: string)
  {
    forall k :: 0 <= k < |s| ==> IsJsWhitespace(s[k])
  }

  function TrimStart(s: string): (r: string)
    ensures |r| <= |s| && r == s[|s| - |r|..]
    ensures IsBlank(s[..|s| - |r|])
    ensures r != "" ==> !IsJsWhitespace(r[0])
    decreases |s|
  {
    if s != [] && IsJsWhitespace(s[0]) then
      var r := TrimStart(s[1..]);
      assert s[..|s| - |r|] == [s[0]] + s[1..][..|s| - 1 - |r|];
      r
    else s
  }

  function TrimEnd(s: string): (r: string)
    ensures |r| <= |s| && r == s[..|r|]
    ensures IsBlank(s[|r|..])
    ensures r != "" ==> !IsJsWhitespace(r[|r| - 1])
    decreases |s|
  {
    if s != [] && IsJsWhitespace(s[|s| - 1]) then
      var r := TrimEnd(s[..|s| - 1]);
      assert s[|r|..] == s[..|s| - 1][|r|..] + [s[|s| - 1]];
      r
    else s
  }

  /** `s.trim()`. */
  function Trim(s: string): string
  {
    TrimEnd(TrimStart(s))
  }

  /** The trimmed text is empty exactly when `s` is blank, and otherwise neither starts nor ends
      with white space. */
  lemma TrimProperties(s: string)
    ensures Trim(s) == "" <==> IsBlank(s)
    ensures Trim(s) != "" ==> !IsJsWhitespace(Trim(s)[0]) && !IsJsWhitespace(Trim(s)[|Trim(s)| - 1])
    ensures |Trim(s)| <= |s|
  {
    var t := TrimStart(s);
    var r := TrimEnd(t);
    assert Trim(s) == r;
    var cut := |s| - |t|;
    if r == "" {
      assert t == "" by {
        assert IsBlank(t[|r|..]) && t[|r|..] == t;
      }
      assert s[..cut] == s;
    } else {
      assert r[0] == t[0] && t[0] == s[cut];
    }
  }

  // ---------------------------------------------------------------------------
  // numbers written in decimal (template literals)

  function DigitChar(d: nat): (c: char)
    requires d < 10
    ensures IsDigit(c)
  {
    ('0' as int + d) as char
  }

  /** `${n}` for a non-negative integer. */
  function NatToString(n: nat): (r: string)
    ensures |r| >= 1
    ensures forall k :: 0 <= k < |r| ==> IsDigit(r[k])
    decreases n
  {
    if n < 10 then [DigitChar(n)] else NatToString(n / 10) + [DigitChar(n % 10)]
  }

  /** The number a string of decimal digits denotes. */
  function DigitsValue(s: string): nat
    requires forall k :: 0 <= k < |s| ==> IsDigit(s[k])
    decreases |s|
  {
    if s == [] then 0
    else
      assert IsDigit(s[|s| - 1]);
      DigitsValue(s[..|s| - 1]) * 10 + (s[|s| - 1] as int - '0' as int)
  }

  /** Writing a number in decimal loses nothing: it reads back as the same number. */
  lemma {:induction false} DecimalRoundTrip(n: nat)
    ensures DigitsValue(NatToString(n)) == n
  {
    if n >= 10 {
      var t := NatToString(n / 10);
      var r := t + [DigitChar(n % 10)];
      assert r[..|r| - 1] == t;
      DecimalRoundTrip(n / 10);
    }
  }
}
