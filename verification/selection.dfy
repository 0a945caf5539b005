/**
 * Choosing from the owned tokens: the capped listing of `!mysleepys` (`slice(0, 10)`) and
 * the random picks `Math.floor(Math.random() * n)` of `!sleepy` and the random token number
 * `Math.floor(Math.random() * 4000) + 1` of `!randomsleepy` and `!awareness`.
 */
module Selection {
  import opened Ownership

  /** A value of `Math.random()`, a number in [0, 1), as the fraction `num / den`. */
  datatype Fraction = Fraction(num: nat, den: nat)
  type Draw = f: Fraction | f.num < f.den witness Fraction(0, 1)

  /** `Math.floor(draw * n)`: the integer part of `n` scaled by the draw, below `n` when `n > 0`. */
  function ScaledIndex(draw: Draw, n: nat): (i: nat)
    ensures i * draw.den <= draw.num * n < (i + 1) * draw.den
    ensures n > 0 ==> i < n
  {
    var i := draw.num * n / draw.den;
    assert n > 0 ==> i < n by {
      if n > 0 {
        assert draw.num * n < draw.den * n by { MultiplyStrict(draw.num, draw.den, n); }
        DivisionBelow(draw.num * n, draw.den, n);
      }
    }
    i
  }

  lemma MultiplyStrict(a: nat, b: nat, n: nat)
    requires a < b && n > 0
    ensures a * n < b * n
  {
  }

  lemma DivisionBelow(x: nat, d: nat, n: nat)
    requires d > 0 && x < d * n
    ensures x / d < n
  {
  }

  /** The number of the collection's tokens, the range of `!randomsleepy` and `!awareness`. */
  const CollectionSize: nat := 4000

  /** `Math.floor(Math.random() * 4000) + 1`: a token number from 1 to 4000. */
  function RandomTokenNumber(draw: Draw): (n: nat)
    ensures 1 <= n <= CollectionSize
  {
    ScaledIndex(draw, CollectionSize) + 1
  }

  /** `tokenArray[Math.floor(Math.random() * tokenArray.length)]` on a non-empty array:
      a member of the array, the one at the scaled position. */
  function PickRandom(tokens: seq<string>, draw: Draw): (t: string)
    requires tokens != []
    ensures t in tokens
    ensures exists i :: 0 <= i < |tokens| && i * draw.den <= draw.num * |tokens| < (i + 1) * draw.den && tokens[i] == t
  {
    tokens[ScaledIndex(draw, |tokens|)]
  }

  /** The listing limit of `!mysleepys`. */
  const ListingLimit: nat := 10

  /** `tokens.slice(0, 10)`: the first `min(10, |tokens|)` tokens, in order. */
  function FirstTen(tokens: seq<string>): (r: seq<string>)
    ensures r <= tokens
    ensures |r| == if |tokens| < ListingLimit then |tokens| else ListingLimit
    ensures NoDuplicates(tokens) ==> NoDuplicates(r)
  {
    if |tokens| < ListingLimit then tokens else tokens[..ListingLimit]
  }
}
