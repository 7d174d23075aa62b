/**
 * The JavaScript string operations the web part relies on:
 * `split`/`join` on a one-character separator, `trim`, ASCII case mapping,
 * and the decimal rendering of integers inside template strings.
 */
module Text {

  /** JavaScript's truthiness of a string: only the empty string is falsy. */
  predicate Truthy(s: string) {
    s != ""
  }

  // ---------------------------------------------------------------------------
  // split / join

  /** `s.split(sep)` for a one-character separator: never empty, the pieces hold no separator. */
  function Split(s: string, sep: char): (r: seq<string>)
    ensures |r| >= 1
    ensures |r| == 1 <==> sep !in s
    ensures forall k :: 0 <= k < |r| ==> sep !in r[k]
  {
    if s == [] then [""]
    else
      var rest := Split(s[1..], sep);
      if s[0] == sep then [""] + rest
      else [[s[0]] + rest[0]] + rest[1..]
  }

  /** `xs.join(sep)` for a non-empty array of strings. */
  function Join(xs: seq<string>, sep: char): string
    requires |xs| >= 1
  {
    if |xs| == 1 then xs[0] else xs[0] + [sep] + Join(xs[1..], sep)
  }

  /** Joining the pieces of a split gives back the original string. */
  lemma {:induction false} JoinSplit(s: string, sep: char)
    ensures Join(Split(s, sep), sep) == s
  {
    if s != [] {
      var rest := Split(s[1..], sep);
      JoinSplit(s[1..], sep);
      if s[0] == sep {
        assert Split(s, sep) == [""] + rest;
        assert ([""] + rest)[1..] == rest;
      } else {
        var xs := Split(s, sep);
        assert xs == [[s[0]] + rest[0]] + rest[1..];
        if |rest| == 1 {
          assert Join(xs, sep) == [s[0]] + rest[0];
        } else {
          assert xs[1..] == rest[1..];
          assert Join(rest, sep) == rest[0] + [sep] + Join(rest[1..], sep);
          assert Join(xs, sep) == [s[0]] + rest[0] + [sep] + Join(rest[1..], sep);
        }
        assert [s[0]] + s[1..] == s;
      }
    }
  }

  /** Splitting a string that starts with a separator-free piece `x`. */
  lemma {:induction false} SplitPrefix(x: string, t: string, sep: char)
    requires sep !in x
    ensures Split(x + t, sep) == [x + Split(t, sep)[0]] + Split(t, sep)[1..]
  {
    if x != [] {
      SplitPrefix(x[1..], t, sep);
      assert (x + t)[1..] == x[1..] + t;
      assert (x + t)[0] == x[0];
      assert [x[0]] + (x[1..] + Split(t, sep)[0]) == x + Split(t, sep)[0];
    } else {
      assert x + t == t;
      assert x + Split(t, sep)[0] == Split(t, sep)[0];
      assert Split(t, sep) == [Split(t, sep)[0]] + Split(t, sep)[1..];
    }
  }

  /** Splitting a join of separator-free pieces gives back the pieces. */
  lemma {:induction false} SplitJoin(xs: seq<string>, sep: char)
    requires |xs| >= 1
    requires forall k :: 0 <= k < |xs| ==> sep !in xs[k]
    ensures Split(Join(xs, sep), sep) == xs
  {
    if |xs| == 1 {
      SplitPrefix(xs[0], "", sep);
      assert xs[0] + "" == xs[0];
    } else {
      var tail := Join(xs[1..], sep);
      SplitJoin(xs[1..], sep);
      assert Join(xs, sep) == xs[0] + ([sep] + tail);
      SplitPrefix(xs[0], [sep] + tail, sep);
      assert ([sep] + tail)[1..] == tail;
      assert Split([sep] + tail, sep) == [""] + Split(tail, sep);
      assert xs[0] + "" == xs[0];
      assert xs == [xs[0]] + xs[1..];
    }
  }

  /** The last piece of `s.split(sep)`, which is what `.pop()` returns. */
  function LastPiece(s: string, sep: char): string {
    var pieces := Split(s, sep);
    pieces[|pieces| - 1]
  }

  /**
   * The last piece is the text after the last separator: it holds no separator,
   * it ends `s`, and it is either all of `s` or preceded by a separator.
   */
  lemma {:induction false} LastPieceIsTextAfterLastSeparator(s: string, sep: char)
    ensures var p := LastPiece(s, sep);
      && sep !in p
      && |p| <= |s|
      && s[|s| - |p|..] == p
      && (|p| == |s| <==> sep !in s)
      && (|p| < |s| ==> s[|s| - |p| - 1] == sep)
  {
    if s != [] {
      var t := s[1..];
      LastPieceIsTextAfterLastSeparator(t, sep);
      var rest := Split(t, sep);
      var q := LastPiece(t, sep);
      assert q == rest[|rest| - 1];
      assert s == [s[0]] + t;
      if s[0] != sep && |rest| == 1 {
        assert q == t;
        assert LastPiece(s, sep) == [s[0]] + rest[0];
        assert LastPiece(s, sep) == s;
      } else {
        assert LastPiece(s, sep) == q;
        assert sep in s;
        assert |q| < |s|;
        assert s[|s| - |q|..] == t[|t| - |q|..];
        if |q| < |t| {
          assert s[|s| - |q| - 1] == t[|t| - |q| - 1];
        } else {
          assert s[|s| - |q| - 1] == s[0];
        }
      }
    }
  }

  // ---------------------------------------------------------------------------
  // trim

  /** The characters `String.prototype.trim` removes: white space and line terminators. */
  predicate IsJsWhitespace(c: char) {
    || c == ' ' || c == '\t' || c == '\n' || c == '\r' || c == '\U{000B}' || c == '\U{000C}'
    || c == '\U{00A0}' || c == '\U{1680}' || ('\U{2000}' <= c <= '\U{200A}')
    || c == '\U{2028}' || c == '\U{2029}' || c == '\U{202F}' || c == '\U{205F}'
    || c == '\U{3000}' || c == '\U{FEFF}'
  }

  function TrimStart(s: string): string {
    if s != [] && IsJsWhitespace(s[0]) then TrimStart(s[1..]) else s
  }

  function TrimEnd(s: string): string {
    if s != [] && IsJsWhitespace(s[|s| - 1]) then TrimEnd(s[..|s| - 1]) else s
  }

  /** `s.trim()`. */
  function Trim(s: string): string {
    TrimEnd(TrimStart(s))
  }

  /** `s.trim()` is empty exactly when every character of `s` is white space. */
  lemma {:induction false} TrimEmptyIff(s: string)
    ensures Trim(s) == "" <==> forall k :: 0 <= k < |s| ==> IsJsWhitespace(s[k])
  {
    TrimStartEmptyIff(s);
    var t := TrimStart(s);
    TrimStartShape(s);
    if t != "" {
      assert !IsJsWhitespace(t[0]);
      TrimEndKeepsNonWhitespaceHead(t);
    }
  }

  lemma {:induction false} TrimStartEmptyIff(s: string)
    ensures TrimStart(s) == "" <==> forall k :: 0 <= k < |s| ==> IsJsWhitespace(s[k])
  {
    if s != [] && IsJsWhitespace(s[0]) {
      TrimStartEmptyIff(s[1..]);
      assert forall k :: 1 <= k < |s| ==> s[k] == s[1..][k - 1];
    }
  }

  lemma {:induction false} TrimStartShape(s: string)
    ensures TrimStart(s) != "" ==> !IsJsWhitespace(TrimStart(s)[0])
  {
    if s != [] && IsJsWhitespace(s[0]) {
      TrimStartShape(s[1..]);
    }
  }

  lemma {:induction false} TrimEndKeepsNonWhitespaceHead(t: string)
    requires t != "" && !IsJsWhitespace(t[0])
    ensures TrimEnd(t) != ""
  {
    if IsJsWhitespace(t[|t| - 1]) {
      assert |t| > 1;
      TrimEndKeepsNonWhitespaceHead(t[..|t| - 1]);
    }
  }

  // ---------------------------------------------------------------------------
  // case mapping (ASCII letters only)

  function LowerChar(c: char): char {
    if 'A' <= c <= 'Z' then (c as int + 32) as char else c
  }

  function UpperChar(c: char): char {
    if 'a' <= c <= 'z' then (c as int - 32) as char else c
  }

  /** `s.toLowerCase()` on the ASCII letters. */
  function Lower(s: string): (r: string)
    ensures |r| == |s|
    ensures forall k :: 0 <= k < |s| ==> r[k] == LowerChar(s[k])
  {
    seq(|s|, k requires 0 <= k < |s| => LowerChar(s[k]))
  }

  /** `s.toUpperCase()` on the ASCII letters. */
  function Upper(s: string): (r: string)
    ensures |r| == |s|
    ensures forall k :: 0 <= k < |s| ==> r[k] == UpperChar(s[k])
  {
    seq(|s|, k requires 0 <= k < |s| => UpperChar(s[k]))
  }

  /** Lower-cases every string of a sequence, as `xs.map(x => x.toLowerCase())`. */
  function LowerAll(xs: seq<string>): (r: seq<string>)
    ensures |r| == |xs|
  {
    if xs == [] then [] else [Lower(xs[0])] + LowerAll(xs[1..])
  }

  lemma LowerAllAt(xs: seq<string>, k: nat)
    requires k < |xs|
    ensures LowerAll(xs)[k] == Lower(xs[k])
  {
    if k > 0 {
      LowerAllAt(xs[1..], k - 1);
    }
  }

  /** Lower-casing commutes with `split` on a separator that is not a letter. */
  lemma {:induction false} LowerSplit(s: string, sep: char)
    requires !('A' <= sep <= 'Z') && !('a' <= sep <= 'z')
    ensures Split(Lower(s), sep) == LowerAll(Split(s, sep))
  {
    if s != [] {
      LowerSplit(s[1..], sep);
      assert Lower(s)[1..] == Lower(s[1..]);
      var rest := Split(s[1..], sep);
      var lrest := Split(Lower(s[1..]), sep);
      assert lrest == LowerAll(rest);
      if s[0] == sep {
        assert Lower(s)[0] == sep;
        assert Lower("") == "";
        assert Split(s, sep) == [""] + rest;
        assert LowerAll([""] + rest) == [""] + LowerAll(rest) by {
          assert ([""] + rest)[1..] == rest;
        }
      } else {
        assert Lower(s)[0] == LowerChar(s[0]) != sep;
        var xs := Split(s, sep);
        assert xs == [[s[0]] + rest[0]] + rest[1..];
        assert Lower([s[0]] + rest[0]) == [LowerChar(s[0])] + Lower(rest[0]);
        LowerAllAt(rest, 0);
        assert LowerAll(rest)[1..] == LowerAll(rest[1..]);
        assert xs[1..] == rest[1..];
        assert LowerAll(xs) == [Lower(xs[0])] + LowerAll(rest[1..]);
      }
    }
  }

  /** The last piece of a lower-cased string is the lower-cased last piece. */
  lemma LowerLastPiece(s: string, sep: char)
    requires !('A' <= sep <= 'Z') && !('a' <= sep <= 'z')
    ensures LastPiece(Lower(s), sep) == Lower(LastPiece(s, sep))
  {
    LowerSplit(s, sep);
    LowerAllAt(Split(s, sep), |Split(s, sep)| - 1);
  }

  /** Lower-casing twice is lower-casing once. */
  lemma LowerIdempotent(s: string)
    ensures Lower(Lower(s)) == Lower(s)
  {
  }

  // ---------------------------------------------------------------------------
  // numbers inside template strings

  function DigitChar(d: nat): char
    requires d < 10
  {
    "0123456789"[d]
  }

  /** The decimal text of a natural number, as `${n}` renders it. */
  function NatToString(n: nat): (r: string)
    ensures |r| >= 1
    ensures forall k :: 0 <= k < |r| ==> '0' <= r[k] <= '9'
    decreases n
  {
    if n < 10 then [DigitChar(n)] else NatToString(n / 10) + [DigitChar(n % 10)]
  }

  /** The decimal text of an integer, as `${n}` renders it. */
  function IntToString(n: int): string {
    if n < 0 then "-" + NatToString(-n) else NatToString(n)
  }

  /** The value of a string of decimal digits. */
  function DigitsValue(s: string): nat
    requires forall k :: 0 <= k < |s| ==> '0' <= s[k] <= '9'
  {
    if s == [] then 0 else DigitsValue(s[..|s| - 1]) * 10 + (s[|s| - 1] as int - '0' as int)
  }

  /** The decimal text reads back as the number it renders. */
  lemma {:induction false} NatToStringRoundTrip(n: nat)
    ensures DigitsValue(NatToString(n)) == n
  {
    if n >= 10 {
      NatToStringRoundTrip(n / 10);
      var s := NatToString(n);
      assert s[..|s| - 1] == NatToString(n / 10);
    }
  }
}
