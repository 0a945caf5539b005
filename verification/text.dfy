/**
 * The string operations the bot's command handler relies on: JavaScript's
 * `String.prototype.trim`, `split(/ +/)`, `toLowerCase` (on ASCII letters),
 * the digit classes of its two regular expressions, and the decimal rendering
 * of a number inside a template literal.
 */
module Text {

  /** The code points `trim` removes: ECMAScript WhiteSpace and LineTerminator. */
  predicate IsTrimmable(c: char) {
    c == '\t' || c == '\n' || c == '\U{000B}' || c == '\U{000C}' || c == '\r' || c == ' '
    || c == '\U{00A0}' || c == '\U{1680}' || ('\U{2000}' <= c <= '\U{200A}')
    || c == '\U{2028}' || c == '\U{2029}' || c == '\U{202F}' || c == '\U{205F}'
    || c == '\U{3000}' || c == '\U{FEFF}'
  }

  /** Drops the leading white space. */
  function TrimStart(s: string): (r: string)
    ensures |r| <= |s| && r == s[|s| - |r|..]
    ensures r == [] || !IsTrimmable(r[0])
    ensures forall k :: 0 <= k < |s| - |r| ==> IsTrimmable(s[k])
  {
    if s != [] && IsTrimmable(s[0]) then TrimStart(s[1..]) else s
  }

  /** Drops the trailing white space. */
  function TrimEnd(s: string): (r: string)
    ensures |r| <= |s| && r == s[..|r|]
    ensures r == [] || !IsTrimmable(r[|r| - 1])
    ensures forall k :: |r| <= k < |s| ==> IsTrimmable(s[k])
  {
    if s != [] && IsTrimmable(s[|s| - 1]) then TrimEnd(s[..|s| - 1]) else s
  }

  /** `s.trim()`: the longest slice of `s` that neither begins nor ends with white space. */
  function Trim(s: string): (r: string)
    ensures |r| <= |s|
    ensures r == [] || (!IsTrimmable(r[0]) && !IsTrimmable(r[|r| - 1]))
  {
    TrimEnd(TrimStart(s))
  }

  /** Trim cuts only white space, and only at the two ends: `Trim(s)` is the slice of `s`
      that starts after the leading white space, and everything outside it is white space. */
  lemma TrimIsSlice(s: string)
    ensures |s| - |TrimStart(s)| + |Trim(s)| <= |s|
    ensures Trim(s) == s[|s| - |TrimStart(s)|..|s| - |TrimStart(s)| + |Trim(s)|]
    ensures forall k :: 0 <= k < |s| - |TrimStart(s)| ==> IsTrimmable(s[k])
    ensures forall k :: |s| - |TrimStart(s)| + |Trim(s)| <= k < |s| ==> IsTrimmable(s[k])
  {
    var t := TrimStart(s);
    var lead := |s| - |t|;
    var r := TrimEnd(t);
    assert Trim(s) == r;
    PrefixOfSuffix(s, lead, |r|);
    forall k | lead + |r| <= k < |s| ensures IsTrimmable(s[k]) {
      assert s[k] == t[k - lead];
      assert IsTrimmable(t[k - lead]);
    }
  }

  /** The first `n` characters after position `lead` form the slice `[lead, lead + n)`. */
  lemma PrefixOfSuffix(s: string, lead: nat, n: nat)
    requires lead + n <= |s|
    ensures s[lead..][..n] == s[lead..lead + n]
  {
  }

  /** Trimming twice is trimming once. */
  lemma TrimIdempotent(s: string)
    ensures Trim(Trim(s)) == Trim(s)
  {
    var r := Trim(s);
    assert TrimStart(r) == r;
    assert TrimEnd(r) == r;
  }

  /** The leading spaces (U+0020 only) removed, as the separator regex ` +` consumes them. */
  function DropSpaces(s: string): (r: string)
    ensures |r| <= |s| && r == s[|s| - |r|..]
    ensures r == [] || r[0] != ' '
    ensures s != [] && s[0] == ' ' ==> |r| < |s|
  {
    if s != [] && s[0] == ' ' then DropSpaces(s[1..]) else s
  }

  /**
   * `s.split(/ +/)`: the pieces of `s` between maximal runs of spaces. A leading run
   * yields an empty first piece, a trailing run an empty last piece, and the empty
   * string splits into one empty piece.
   */
  function SplitOnSpaces(s: string): (r: seq<string>)
    ensures |r| >= 1
    ensures forall k :: 0 <= k < |r| ==> ' ' !in r[k]
    decreases |s|
  {
    if s == [] then [""]
    else if s[0] == ' ' then [""] + SplitOnSpaces(DropSpaces(s))
    else
      var rest := SplitOnSpaces(s[1..]);
      [[s[0]] + rest[0]] + rest[1..]
  }

  /** `pieces.join(' ')`. */
  function JoinWithSpace(pieces: seq<string>): string
    requires |pieces| >= 1
  {
    if |pieces| == 1 then pieces[0] else pieces[0] + " " + JoinWithSpace(pieces[1..])
  }

  /** No two spaces in a row. */
  predicate SingleSpaced(s: string) {
    forall k :: 0 <= k < |s| - 1 ==> !(s[k] == ' ' && s[k + 1] == ' ')
  }

  /** The text with every run of spaces shrunk to one space: a space is dropped exactly
      when the next character is a space too. */
  function CollapseSpaces(s: string): (r: string)
    ensures |r| <= |s|
  {
    if s == [] then []
    else if s[0] == ' ' && |s| > 1 && s[1] == ' ' then CollapseSpaces(s[1..])
    else [s[0]] + CollapseSpaces(s[1..])
  }

  /** A text that begins with a space collapses to one space and the collapse of the rest
      after its leading run. */
  lemma {:induction false} CollapseLeadingRun(s: string)
    requires s != [] && s[0] == ' '
    ensures CollapseSpaces(s) == " " + CollapseSpaces(DropSpaces(s))
    decreases |s|
  {
    if |s| > 1 && s[1] == ' ' {
      CollapseLeadingRun(s[1..]);
    } else {
      assert DropSpaces(s[1..]) == s[1..];
    }
  }

  /** Joining the first piece, extended at its front by one character, with the others. */
  lemma JoinExtendFirst(c: char, pieces: seq<string>)
    requires |pieces| >= 1
    ensures JoinWithSpace([[c] + pieces[0]] + pieces[1..]) == [c] + JoinWithSpace(pieces)
  {
    var q := [[c] + pieces[0]] + pieces[1..];
    if |pieces| > 1 {
      assert q[1..] == pieces[1..];
    }
  }

  /** What `split(/ +/)` yields on any text: its pieces, joined with one space, are the text
      with every run of spaces shrunk to one. Together with `JoinInjective` this fixes the
      pieces completely. */
  lemma {:induction false} SplitJoinIsCollapse(s: string)
    ensures JoinWithSpace(SplitOnSpaces(s)) == CollapseSpaces(s)
    decreases |s|, 1
  {
    if s == [] {
    } else if s[0] == ' ' {
      SplitJoinLeadingSpace(s);
    } else {
      SplitJoinLeadingWord(s);
    }
  }

  /** The inductive step of `SplitJoinIsCollapse` for a text that begins with a space. */
  lemma {:induction false} SplitJoinLeadingSpace(s: string)
    requires s != [] && s[0] == ' '
    ensures JoinWithSpace(SplitOnSpaces(s)) == CollapseSpaces(s)
    decreases |s|, 0
  {
    var d := DropSpaces(s);
    var rest := SplitOnSpaces(d);
    assert SplitOnSpaces(s) == [""] + rest;
    assert ([""] + rest)[1..] == rest;
    assert JoinWithSpace([""] + rest) == " " + JoinWithSpace(rest);
    SplitJoinIsCollapse(d);
    CollapseLeadingRun(s);
  }

  /** The inductive step of `SplitJoinIsCollapse` for a text that begins with a non-space. */
  lemma {:induction false} SplitJoinLeadingWord(s: string)
    requires s != [] && s[0] != ' '
    ensures JoinWithSpace(SplitOnSpaces(s)) == CollapseSpaces(s)
    decreases |s|, 0
  {
    var rest := SplitOnSpaces(s[1..]);
    assert SplitOnSpaces(s) == [[s[0]] + rest[0]] + rest[1..];
    JoinExtendFirst(s[0], rest);
    SplitJoinIsCollapse(s[1..]);
  }

  /** Space-free pieces are determined by their join: two sequences of space-free pieces
      with the same join are equal. */
  lemma {:induction false} JoinInjective(p: seq<string>, q: seq<string>)
    requires |p| >= 1 && |q| >= 1
    requires forall k :: 0 <= k < |p| ==> ' ' !in p[k]
    requires forall k :: 0 <= k < |q| ==> ' ' !in q[k]
    requires JoinWithSpace(p) == JoinWithSpace(q)
    ensures p == q
    decreases |p|
  {
    var jp := JoinWithSpace(p);
    if |p| == 1 && |q| == 1 {
    } else if |p| == 1 {
      assert false;
    } else if |q| == 1 {
      assert false;
    } else {
      var a, b := |p[0]|, |q[0]|;
      assert jp[a] == ' ' && jp[b] == ' ';
      if a < b {
        assert false;
      } else if b < a {
        assert false;
      }
      assert p[0] == jp[..a] == q[0];
      assert JoinWithSpace(p[1..]) == jp[a + 1..] == JoinWithSpace(q[1..]);
      JoinInjective(p[1..], q[1..]);
      assert p == [p[0]] + p[1..] && q == [q[0]] + q[1..];
    }
  }

  /** A text whose spaces stand alone is its own collapse. */
  lemma {:induction false} CollapseSingleSpaced(s: string)
    requires SingleSpaced(s)
    ensures CollapseSpaces(s) == s
    decreases |s|
  {
    if s != [] {
      assert SingleSpaced(s[1..]) by {
        forall k | 0 <= k < |s[1..]| - 1 ensures !(s[1..][k] == ' ' && s[1..][k + 1] == ' ') {
          assert s[1..][k] == s[k + 1] && s[1..][k + 1] == s[k + 2];
        }
      }
      CollapseSingleSpaced(s[1..]);
      assert s == [s[0]] + s[1..];
    }
  }

  /** On a text whose spaces stand alone, joining the pieces with one space gives the text back. */
  lemma SplitJoinRoundTrip(s: string)
    requires SingleSpaced(s)
    ensures JoinWithSpace(SplitOnSpaces(s)) == s
  {
    SplitJoinIsCollapse(s);
    CollapseSingleSpaced(s);
  }

  /** The first piece is the longest space-free prefix of `s`. */
  lemma {:induction false} FirstPieceIsFirstWord(s: string)
    ensures var w := SplitOnSpaces(s)[0];
      w <= s && (|w| < |s| ==> s[|w|] == ' ')
    decreases |s|
  {
    if s != [] && s[0] != ' ' {
      FirstPieceIsFirstWord(s[1..]);
    }
  }

  /** On a string that does not end in a space, every piece after the first is non-empty,
      and the first is non-empty too when the string does not begin with a space. */
  lemma {:induction false} PiecesNonEmpty(s: string)
    requires s == [] || s[|s| - 1] != ' '
    ensures forall k :: 1 <= k < |SplitOnSpaces(s)| ==> SplitOnSpaces(s)[k] != ""
    ensures s != [] && s[0] != ' ' ==> SplitOnSpaces(s)[0] != ""
    decreases |s|
  {
    if s == [] {
    } else if s[0] == ' ' {
      var d := DropSpaces(s);
      assert d != [] by {
        if d == [] { assert s[|s| - 1] != ' '; DropSpacesKeepsNonSpace(s); }
      }
      PiecesNonEmpty(d);
    } else {
      PiecesNonEmpty(s[1..]);
    }
  }

  /** A string whose last character is not a space keeps a character after its spaces are dropped. */
  lemma {:induction false} DropSpacesKeepsNonSpace(s: string)
    requires s != [] && s[|s| - 1] != ' '
    ensures DropSpaces(s) != []
    decreases |s|
  {
    if s[0] == ' ' {
      DropSpacesKeepsNonSpace(s[1..]);
    }
  }

  predicate IsUpper(c: char) { 'A' <= c <= 'Z' }

  /** ASCII lower-casing of one character. */
  function LowerChar(c: char): (r: char)
    ensures !IsUpper(r)
    ensures IsUpper(c) ==> r as int == c as int + 32
    ensures !IsUpper(c) ==> r == c
  {
    if IsUpper(c) then (c as int + 32) as char else c
  }

  /** `s.toLowerCase()` restricted to ASCII letters. */
  function ToLower(s: string): (r: string)
    ensures |r| == |s|
    ensures forall k :: 0 <= k < |s| ==> r[k] == LowerChar(s[k])
  {
    seq(|s|, k requires 0 <= k < |s| => LowerChar(s[k]))
  }

  /** Lower-casing a lower-cased string changes nothing. */
  lemma ToLowerIdempotent(s: string)
    ensures ToLower(ToLower(s)) == ToLower(s)
  {
  }

  /** Two strings are equal ignoring ASCII case. */
  predicate SameIgnoringCase(a: string, b: string) {
    ToLower(a) == ToLower(b)
  }

  /** `\d`: an ASCII decimal digit. */
  predicate IsDigit(c: char) { '0' <= c <= '9' }

  /** `[a-fA-F0-9]`. */
  predicate IsHexDigit(c: char) { IsDigit(c) || 'a' <= c <= 'f' || 'A' <= c <= 'F' }

  predicate AllDigits(s: string) { forall k :: 0 <= k < |s| ==> IsDigit(s[k]) }

  function DigitChar(d: nat): (c: char)
    requires d < 10
    ensures IsDigit(c) && c as int - '0' as int == d
  {
    ('0' as int + d) as char
  }

  /** The number a string of decimal digits denotes. */
  function DecimalValue(s: string): nat
    requires AllDigits(s)
  {
    if s == [] then 0 else DecimalValue(s[..|s| - 1]) * 10 + (s[|s| - 1] as int - '0' as int)
  }

  /** The decimal rendering of `n` in a template literal: digits only, no leading zero. */
  function DecimalString(n: nat): (s: string)
    ensures |s| >= 1 && AllDigits(s)
    ensures s[0] == '0' ==> n == 0
    ensures DecimalValue(s) == n
  {
    if n < 10 then [DigitChar(n)]
    else
      var s := DecimalString(n / 10) + [DigitChar(n % 10)];
      assert s[..|s| - 1] == DecimalString(n / 10);
      s
  }
}
