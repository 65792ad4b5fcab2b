/**
 * The string helpers of src/keyboard/common/linux_layout.cpp: whitespace
 * trimming, quote stripping, ASCII case mapping and character search.
 *
 * The source mutates a `std::string` through a reference; here each such
 * helper is a method that returns the new string, proved equal to a function
 * (`Trim`, `Unquote`, `Upper`, `Lower`) whose meaning the lemmas state.
 */
module LayoutText {

  /** The set `" \t\r\n"` that trimInPlace strips. */
  predicate IsSpace(c: char)
  {
    c == ' ' || c == '\t' || c == '\r' || c == '\n'
  }

  predicate AllSpace(s: string)
  {
    forall i | 0 <= i < |s| :: IsSpace(s[i])
  }

  // ---------------------------------------------------------------------------
  // Character search (std::string::find for one character)

  /** The index of the first `c` in `s`, or -1 (`npos`) when there is none. */
  function FindChar(s: string, c: char): (r: int)
    ensures -1 <= r < |s|
    ensures r == -1 <==> c !in s
    ensures 0 <= r ==> s[r] == c && forall j | 0 <= j < r :: s[j] != c
    decreases |s|
  {
    if s == [] then -1
    else if s[0] == c then 0
    else
      var k := FindChar(s[1..], c);
      if k < 0 then -1 else k + 1
  }

  /** `if ((p = s.find(c)) != npos) s.resize(p)`: everything before the first `c`. */
  function CutAt(s: string, c: char): (r: string)
    ensures c !in r
    ensures c !in s ==> r == s
    ensures c in s ==> |r| < |s| && s == r + s[|r|..] && s[|r|] == c
  {
    var p := FindChar(s, c);
    if p >= 0 then s[..p] else s
  }

  /** The text after the first `c` is dropped, whatever it contains. */
  lemma CutAtDropsTail(x: string, c: char, y: string)
    requires c !in x
    ensures CutAt(x + [c] + y, c) == x
  {
    var s := x + [c] + y;
    assert s[|x|] == c;
    assert forall j | 0 <= j < |x| :: s[j] == x[j];
    assert s[..|x|] == x;
  }

  // ---------------------------------------------------------------------------
  // Trimming

  function TrimStart(s: string): string
    decreases |s|
  {
    if s != [] && IsSpace(s[0]) then TrimStart(s[1..]) else s
  }

  function TrimEnd(s: string): string
    decreases |s|
  {
    if s != [] && IsSpace(s[|s| - 1]) then TrimEnd(s[..|s| - 1]) else s
  }

  /** What trimInPlace leaves: `s` without its leading and trailing whitespace. */
  function Trim(s: string): string
  {
    TrimEnd(TrimStart(s))
  }

  /**
   * `trimInPlace`: find the first and the last character outside the set; an
   * all-whitespace string is cleared, otherwise the span between them is kept.
   */
  method TrimInPlace(s: string) returns (t: string)
    ensures t == Trim(s)
  {
    var a := 0;
    while a < |s| && IsSpace(s[a])
      invariant 0 <= a <= |s|
      invariant TrimStart(s[a..]) == TrimStart(s)
    {
      assert s[a..][1..] == s[a + 1..];
      a := a + 1;
    }
    if a == |s| {
      return [];
    }
    var b := |s| - 1;
    assert s[a..b + 1] == s[a..];
    while IsSpace(s[b])
      invariant a <= b < |s|
      invariant TrimEnd(s[a..b + 1]) == TrimEnd(s[a..])
      decreases b
    {
      assert s[a..b + 1][..b - a] == s[a..b];
      b := b - 1;
    }
    t := s[a..b + 1];
  }

  lemma {:induction false} TrimStartIsSuffix(s: string)
    ensures |TrimStart(s)| <= |s|
    ensures TrimStart(s) == s[|s| - |TrimStart(s)|..]
    ensures AllSpace(s[..|s| - |TrimStart(s)|])
    ensures TrimStart(s) != [] ==> !IsSpace(TrimStart(s)[0])
    decreases |s|
  {
    if s != [] && IsSpace(s[0]) {
      TrimStartIsSuffix(s[1..]);
      var k := |s| - |TrimStart(s)|;
      assert s[1..][|s| - 1 - |TrimStart(s)|..] == s[k..];
      forall i | 0 <= i < k ensures IsSpace(s[i]) {
        if i > 0 {
          assert s[i] == s[1..][..k - 1][i - 1];
        }
      }
    }
  }

  lemma {:induction false} TrimEndIsPrefix(s: string)
    ensures |TrimEnd(s)| <= |s|
    ensures TrimEnd(s) == s[..|TrimEnd(s)|]
    ensures AllSpace(s[|TrimEnd(s)|..])
    ensures TrimEnd(s) != [] ==> !IsSpace(TrimEnd(s)[|TrimEnd(s)| - 1])
    decreases |s|
  {
    if s != [] && IsSpace(s[|s| - 1]) {
      var init := s[..|s| - 1];
      TrimEndIsPrefix(init);
      var k := |TrimEnd(s)|;
      assert init[..k] == s[..k];
      forall i | k <= i < |s| ensures IsSpace(s[i]) {
        if i < |s| - 1 {
          assert s[i] == init[k..][i - k];
        }
      }
    }
  }

  /**
   * Trimming removes exactly the leading and trailing whitespace: the result
   * is the span `s[a..b]` with only whitespace before and after it, and it
   * neither starts nor ends with whitespace.
   */
  lemma TrimRemovesOuterSpace(s: string)
    ensures |Trim(s)| <= |TrimStart(s)| <= |s|
    ensures var a := |s| - |TrimStart(s)|;
            var b := a + |Trim(s)|;
            && b <= |s|
            && Trim(s) == s[a..b]
            && AllSpace(s[..a])
            && AllSpace(s[b..])
    ensures Trim(s) != [] ==> !IsSpace(Trim(s)[0]) && !IsSpace(Trim(s)[|Trim(s)| - 1])
  {
    TrimSpan(s);
    TrimEdges(s);
  }

  lemma TrimSpan(s: string)
    ensures |Trim(s)| <= |TrimStart(s)| <= |s|
    ensures var a := |s| - |TrimStart(s)|;
            var b := a + |Trim(s)|;
            && b <= |s|
            && Trim(s) == s[a..b]
            && AllSpace(s[..a])
            && AllSpace(s[b..])
  {
    TrimStartIsSuffix(s);
    var u := TrimStart(s);
    TrimEndIsPrefix(u);
    var t := Trim(s);
    var a := |s| - |u|;
    var b := a + |t|;
    assert u == s[a..] && AllSpace(s[..a]);
    assert t == u[..|t|] && AllSpace(u[|t|..]);
    assert u[..|t|] == s[a..b];
    assert u[|t|..] == s[b..];
  }

  lemma TrimEdges(s: string)
    ensures Trim(s) != [] ==> !IsSpace(Trim(s)[0]) && !IsSpace(Trim(s)[|Trim(s)| - 1])
  {
    var u := TrimStart(s);
    var t := Trim(s);
    TrimStartIsSuffix(s);
    TrimEndIsPrefix(u);
    if t != [] {
      assert t == u[..|t|];
      assert t[0] == u[0];
    }
  }

  /** Only an all-whitespace string trims to empty. */
  lemma TrimEmptyIffAllSpace(s: string)
    ensures Trim(s) == [] <==> AllSpace(s)
  {
    TrimRemovesOuterSpace(s);
    var a := |s| - |TrimStart(s)|;
    if Trim(s) != [] {
      assert Trim(s)[0] == s[a];
    } else {
      forall i | 0 <= i < |s| ensures IsSpace(s[i]) {
        if i < a {
          assert s[i] == s[..a][i];
        } else {
          assert s[i] == s[a..][i - a];
        }
      }
    }
  }

  /** A string without outer whitespace is its own trim. */
  lemma TrimFixesTrimmed(s: string)
    requires s == [] || (!IsSpace(s[0]) && !IsSpace(s[|s| - 1]))
    ensures Trim(s) == s
  {
  }

  lemma TrimIdempotent(s: string)
    ensures Trim(Trim(s)) == Trim(s)
  {
    TrimRemovesOuterSpace(s);
    TrimFixesTrimmed(Trim(s));
  }

  /** Whitespace around a trimmed string is removed whatever its amount. */
  lemma {:induction false} TrimPadded(p: string, x: string, q: string)
    requires AllSpace(p) && AllSpace(q)
    requires x == [] || (!IsSpace(x[0]) && !IsSpace(x[|x| - 1]))
    ensures Trim(p + x + q) == x
  {
    if x == [] {
      assert p + x + q == p + q;
      assert AllSpace(p + q);
      TrimEmptyIffAllSpace(p + q);
    } else {
      TrimStartPadded(p, x + q);
      assert p + x + q == p + (x + q);
      TrimEndPadded(x, q);
    }
  }

  lemma {:induction false} TrimStartPadded(p: string, y: string)
    requires AllSpace(p)
    requires y == [] || !IsSpace(y[0])
    ensures TrimStart(p + y) == y
    decreases |p|
  {
    if p != [] {
      assert (p + y)[1..] == p[1..] + y;
      TrimStartPadded(p[1..], y);
    } else {
      assert p + y == y;
    }
  }

  lemma {:induction false} TrimEndPadded(x: string, q: string)
    requires AllSpace(q)
    requires x == [] || !IsSpace(x[|x| - 1])
    ensures TrimEnd(x + q) == x
    decreases |q|
  {
    if q != [] {
      assert (x + q)[..|x + q| - 1] == x + q[..|q| - 1];
      TrimEndPadded(x, q[..|q| - 1]);
    } else {
      assert x + q == x;
    }
  }

  /** Leading whitespace stops at the first non-space character, even past the end of `x`. */
  lemma TrimStartConcat(x: string, y: string)
    requires y != [] && !IsSpace(y[0])
    ensures TrimStart(x + y) == TrimStart(x) + y
  {
    TrimStartIsSuffix(x);
    var t := TrimStart(x);
    var p := x[..|x| - |t|];
    assert x == p + t;
    assert x + y == p + (t + y);
    TrimStartPadded(p, t + y);
  }

  /** Trailing whitespace stops at the last non-space character, even before the start of `y`. */
  lemma TrimEndConcat(x: string, y: string)
    requires x != [] && !IsSpace(x[|x| - 1])
    ensures TrimEnd(x + y) == x + TrimEnd(y)
  {
    TrimEndIsPrefix(y);
    var t := TrimEnd(y);
    var q := y[|t|..];
    assert y == t + q;
    assert x + y == (x + t) + q;
    if t != [] {
      assert (x + t)[|x + t| - 1] == t[|t| - 1];
    } else {
      assert x + t == x;
    }
    TrimEndPadded(x + t, q);
  }

  lemma TrimStartIdempotent(s: string)
    ensures TrimStart(TrimStart(s)) == TrimStart(s)
  {
    TrimStartIsSuffix(s);
    assert [] + TrimStart(s) == TrimStart(s);
    TrimStartPadded([], TrimStart(s));
  }

  /** Trimming the end first changes nothing about the trimmed result. */
  lemma TrimOfTrimEnd(s: string)
    ensures Trim(TrimEnd(s)) == Trim(s)
  {
    TrimSpan(s);
    TrimEdges(s);
    var a := |s| - |TrimStart(s)|;
    var b := a + |Trim(s)|;
    var p, x, q := s[..a], s[a..b], s[b..];
    assert s == p + x + q;
    TrimEndIsPrefix(s);
    if x == [] {
      assert AllSpace(s) by { assert s == p + q; }
      assert AllSpace(TrimEnd(s)) by { assert TrimEnd(s) == s[..|TrimEnd(s)|]; }
      TrimEmptyIffAllSpace(TrimEnd(s));
      TrimEmptyIffAllSpace(s);
    } else {
      TrimEndPadded(p + x, q);
      assert s == (p + x) + q;
      TrimPadded(p, x, []);
      assert p + x + [] == p + x;
    }
  }

  // ---------------------------------------------------------------------------
  // Quotes

  predicate IsQuote(c: char)
  {
    c == '"' || c == '\''
  }

  /** Whether `s` is wrapped in one pair of the same quote character. */
  predicate Quoted(s: string)
  {
    |s| >= 2 && IsQuote(s[0]) && s[|s| - 1] == s[0]
  }

  /** What stripSurroundingQuotes leaves. */
  function Unquote(s: string): string
  {
    if Quoted(s) then s[1..|s| - 1] else s
  }

  /** `stripSurroundingQuotes`: drop one outer pair of matching quotes. */
  method StripSurroundingQuotes(s: string) returns (t: string)
    ensures t == Unquote(s)
  {
    t := s;
    if |s| >= 2 && ((s[0] == '"' && s[|s| - 1] == '"') || (s[0] == '\'' && s[|s| - 1] == '\'')) {
      t := s[1..|s| - 1];
    }
  }

  /** Exactly one pair comes off a quoted string, even when the inside is quoted too. */
  lemma UnquoteRoundTrip(q: char, x: string)
    requires IsQuote(q)
    ensures Unquote([q] + x + [q]) == x
  {
    var s := [q] + x + [q];
    assert s[1..|s| - 1] == x;
  }

  /** Anything shorter than two characters, or with different ends, is left alone. */
  lemma UnquoteUnchanged(s: string)
    ensures Unquote(s) == s <==> !Quoted(s)
    ensures Quoted(s) ==> s == [s[0]] + Unquote(s) + [s[0]]
  {
    if Quoted(s) {
      assert |Unquote(s)| < |s|;
      assert s == [s[0]] + s[1..|s| - 1] + [s[|s| - 1]];
    }
  }

  // ---------------------------------------------------------------------------
  // ASCII case mapping (`std::toupper` / `std::tolower` in the "C" locale)

  function UpperChar(c: char): (r: char)
    ensures 'a' <= c <= 'z' ==> 'A' <= r <= 'Z' && r as int == c as int - 32
    ensures !('a' <= c <= 'z') ==> r == c
  {
    if 'a' <= c <= 'z' then (c as int - 32) as char else c
  }

  function LowerChar(c: char): (r: char)
    ensures 'A' <= c <= 'Z' ==> 'a' <= r <= 'z' && r as int == c as int + 32
    ensures !('A' <= c <= 'Z') ==> r == c
  {
    if 'A' <= c <= 'Z' then (c as int + 32) as char else c
  }

  function Upper(s: string): (r: string)
  {
    seq(|s|, i requires 0 <= i < |s| => UpperChar(s[i]))
  }

  function Lower(s: string): (r: string)
  {
    seq(|s|, i requires 0 <= i < |s| => LowerChar(s[i]))
  }

  /** `std::transform(..., toupper)` over the string in place. */
  method UpperInPlace(s: string) returns (t: string)
    ensures t == Upper(s)
  {
    t := s;
    for i := 0 to |t|
      invariant |t| == |s|
      invariant forall j | 0 <= j < i :: t[j] == UpperChar(s[j])
      invariant forall j | i <= j < |t| :: t[j] == s[j]
    {
      t := t[i := UpperChar(t[i])];
    }
  }

  /** `std::transform(..., tolower)` over the string in place. */
  method LowerInPlace(s: string) returns (t: string)
    ensures t == Lower(s)
  {
    t := s;
    for i := 0 to |t|
      invariant |t| == |s|
      invariant forall j | 0 <= j < i :: t[j] == LowerChar(s[j])
      invariant forall j | i <= j < |t| :: t[j] == s[j]
    {
      t := t[i := LowerChar(t[i])];
    }
  }

  /** Upper-casing leaves no lower-case ASCII letter and is idempotent. */
  lemma UpperIsUpper(s: string)
    ensures forall i | 0 <= i < |Upper(s)| :: !('a' <= Upper(s)[i] <= 'z')
    ensures Upper(Upper(s)) == Upper(s)
    ensures Upper(Lower(s)) == Upper(s)
  {
  }

  /** Lower-casing leaves no upper-case ASCII letter and is idempotent. */
  lemma LowerIsLower(s: string)
    ensures forall i | 0 <= i < |Lower(s)| :: !('A' <= Lower(s)[i] <= 'Z')
    ensures Lower(Lower(s)) == Lower(s)
    ensures Lower(Upper(s)) == Lower(s)
  {
  }

  /** Case mapping never touches whitespace, so it commutes with trimming. */
  lemma {:induction false} UpperCommutesWithTrim(s: string)
    ensures Upper(Trim(s)) == Trim(Upper(s))
  {
    TrimRemovesOuterSpace(s);
    var a := |s| - |TrimStart(s)|;
    var b := a + |Trim(s)|;
    var p, x, q := s[..a], s[a..b], s[b..];
    assert s == p + x + q;
    UpperPadded(p, x, q);
  }

  /** Upper-casing a padded string keeps the padding around the upper-cased middle. */
  lemma UpperPadded(p: string, x: string, q: string)
    requires AllSpace(p) && AllSpace(q)
    requires x == [] || (!IsSpace(x[0]) && !IsSpace(x[|x| - 1]))
    ensures Trim(Upper(p + x + q)) == Upper(x)
  {
    UpperAppend(p + x, q);
    UpperAppend(p, x);
    UpperKeepsSpace(p);
    UpperKeepsSpace(x);
    UpperKeepsSpace(q);
    TrimPadded(Upper(p), Upper(x), Upper(q));
  }

  lemma UpperAppend(x: string, y: string)
    ensures Upper(x + y) == Upper(x) + Upper(y)
  {
    assert forall i | 0 <= i < |x + y| :: Upper(x + y)[i] == (Upper(x) + Upper(y))[i];
  }

  /** Upper-casing changes no character's whitespace class. */
  lemma UpperKeepsSpace(x: string)
    ensures forall i | 0 <= i < |x| :: IsSpace(Upper(x)[i]) == IsSpace(x[i])
    ensures AllSpace(x) ==> AllSpace(Upper(x))
  {
  }

  // ---------------------------------------------------------------------------
  // normalizeKey

  /** The comparison form of a configuration key: trimmed, then upper-cased. */
  function NormalKey(key: string): string
  {
    Upper(Trim(key))
  }

  /** `normalizeKey`: trim the copy, then upper-case it in place. */
  method NormalizeKey(key: string) returns (r: string)
    ensures r == NormalKey(key)
  {
    r := TrimInPlace(key);
    r := UpperInPlace(r);
  }

  /** Keys that differ only in ASCII case and surrounding whitespace normalise alike. */
  lemma NormalKeyIgnoresCaseAndPadding(p: string, x: string, q: string)
    requires AllSpace(p) && AllSpace(q)
    ensures NormalKey(p + x + q) == NormalKey(Lower(x))
  {
    TrimRemovesOuterSpace(x);
    var a := |x| - |TrimStart(x)|;
    var b := a + |Trim(x)|;
    assert p + x + q == (p + x[..a]) + x[a..b] + (x[b..] + q);
    TrimPadded(p + x[..a], x[a..b], x[b..] + q);
    UpperCommutesWithTrim(Lower(x));
    UpperCommutesWithTrim(x);
    LowerIsLower(x);
    UpperIsUpper(x);
  }
}
