/**
 * The two regular expressions of the command handler, written as anchored patterns
 * (`^…$`) over a sequence of terms, with their whole-string matching relation:
 * the wallet-address pattern `^0x[a-fA-F0-9]{40}$` and the token-number pattern `^\d+$`.
 */
module Pattern {
  import opened Text

  /** A single-character class: a literal, `[a-fA-F0-9]` or `\d`. */
  datatype CharClass = Literal(c: char) | Hex | Digit

  predicate InClass(k: CharClass, c: char) {
    match k
    case Literal(d) => c == d
    case Hex => IsHexDigit(c)
    case Digit => IsDigit(c)
  }

  /** `k{n}` (a literal alone is `k{1}`) or `k+`. */
  datatype Term = Repeat(k: CharClass, n: nat) | OneOrMore(k: CharClass)

  /** The whole of `s` matches the concatenation of the terms `p`. */
  predicate Matches(p: seq<Term>, s: string)
    decreases |s|, |p|
  {
    if p == [] then s == []
    else match p[0]
      case Repeat(k, n) =>
        if n == 0 then Matches(p[1..], s)
        else s != [] && InClass(k, s[0]) && Matches([Repeat(k, n - 1)] + p[1..], s[1..])
      case OneOrMore(k) =>
        s != [] && InClass(k, s[0]) && (Matches(p[1..], s[1..]) || Matches(p, s[1..]))
  }

  predicate AllInClass(k: CharClass, s: string) {
    forall i :: 0 <= i < |s| ==> InClass(k, s[i])
  }

  /** `k{n}` followed by `rest` matches exactly the strings made of `n` characters of the
      class followed by a string that `rest` matches. */
  lemma {:induction false} RepeatMatches(k: CharClass, n: nat, rest: seq<Term>, s: string)
    ensures Matches([Repeat(k, n)] + rest, s)
        <==> n <= |s| && AllInClass(k, s[..n]) && Matches(rest, s[n..])
    decreases n
  {
    var p := [Repeat(k, n)] + rest;
    assert p[1..] == rest;
    if n > 0 && s != [] {
      RepeatMatches(k, n - 1, rest, s[1..]);
      if n <= |s| {
        assert s[1..][..n - 1] == s[1..n];
        assert s[1..][n - 1..] == s[n..];
        assert AllInClass(k, s[..n]) <==> InClass(k, s[0]) && AllInClass(k, s[1..n]) by {
          if InClass(k, s[0]) && AllInClass(k, s[1..n]) {
            forall i | 0 <= i < n ensures InClass(k, s[..n][i]) {
              if i > 0 { assert s[..n][i] == s[1..n][i - 1]; }
            }
          }
          if AllInClass(k, s[..n]) {
            assert s[..n][0] == s[0];
            forall i | 0 <= i < n - 1 ensures InClass(k, s[1..n][i]) {
              assert s[1..n][i] == s[..n][i + 1];
            }
          }
        }
      }
    }
  }

  /** `k+` matches exactly the non-empty strings of characters of the class. */
  lemma {:induction false} OneOrMoreMatches(k: CharClass, s: string)
    ensures Matches([OneOrMore(k)], s) <==> s != [] && AllInClass(k, s)
    decreases |s|
  {
    var p := [OneOrMore(k)];
    assert p[1..] == [];
    if s != [] {
      OneOrMoreMatches(k, s[1..]);
      assert AllInClass(k, s) <==> InClass(k, s[0]) && AllInClass(k, s[1..]) by {
        if InClass(k, s[0]) && AllInClass(k, s[1..]) {
          forall i | 0 <= i < |s| ensures InClass(k, s[i]) {
            if i > 0 { assert s[i] == s[1..][i - 1]; }
          }
        }
      }
    }
  }

  /** `^0x[a-fA-F0-9]{40}$` */
  const AddressPattern: seq<Term> := [Repeat(Literal('0'), 1), Repeat(Literal('x'), 1), Repeat(Hex, 40)]

  /** `^\d+$` */
  const NumberPattern: seq<Term> := [OneOrMore(Digit)]

  /** What the address pattern accepts: exactly 42 characters, a lower-case `0x` prefix
      and forty hexadecimal digits of either case. */
  lemma AddressPatternMatches(s: string)
    ensures Matches(AddressPattern, s)
        <==> |s| == 42 && s[0] == '0' && s[1] == 'x' && forall i :: 2 <= i < 42 ==> IsHexDigit(s[i])
  {
    assert AddressPattern == [Repeat(Literal('0'), 1)] + AddressPattern[1..];
    assert AddressPattern[1..] == [Repeat(Literal('x'), 1)] + AddressPattern[2..];
    assert AddressPattern[2..] == [Repeat(Hex, 40)] + [];
    RepeatMatches(Literal('0'), 1, AddressPattern[1..], s);
    if 1 <= |s| {
      assert s[..1] == [s[0]];
      RepeatMatches(Literal('x'), 1, AddressPattern[2..], s[1..]);
      if 2 <= |s| {
        assert s[1..][..1] == [s[1]] && s[1..][1..] == s[2..];
        RepeatMatches(Hex, 40, [], s[2..]);
      }
      if 42 <= |s| {
        assert AllInClass(Hex, s[2..][..40]) <==> forall i :: 2 <= i < 42 ==> IsHexDigit(s[i]) by {
          forall i | 2 <= i < 42 ensures IsHexDigit(s[i]) <==> InClass(Hex, s[2..][..40][i - 2]) {
            assert s[2..][..40][i - 2] == s[i];
          }
        }
      }
    }
  }

  /** The address test of `!linkwallet` (`0X` is refused, hexadecimal digits of either case are not). */
  function IsWalletAddress(s: string): (ok: bool)
    ensures ok <==> |s| == 42 && s[0] == '0' && s[1] == 'x'
                    && forall i :: 2 <= i < 42 ==> IsHexDigit(s[i])
  {
    AddressPatternMatches(s);
    Matches(AddressPattern, s)
  }

  /** The token-number test of `!sleepyN`: one or more ASCII digits, nothing else. */
  function IsTokenNumber(s: string): (ok: bool)
    ensures ok <==> s != [] && AllDigits(s)
  {
    OneOrMoreMatches(Digit, s);
    Matches(NumberPattern, s)
  }
}
