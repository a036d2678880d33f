/**
 The reel symbols and the weighted draw that picks one symbol per cell.

 A draw takes an integer produced by the random source (values in [0, Total))
 and walks the weight table in declaration order, returning the first symbol
 whose cumulative band contains the value.
 */
module Symbols {

  /** The four symbols, in the order of the sprite array; `Pig` (the broken pig) is the blank. */
  datatype Symbol = Pig | Coin | Bar | Treasure

  /** The symbol stored at each sprite index. */
  const Alphabet: seq<Symbol> := [Pig, Coin, Bar, Treasure]

  /** The weight of each symbol, indexed like the sprite array. */
  const Probabilities: seq<nat> := [40, 30, 20, 10]

  /** The random source yields integers in [0, Total). */
  const Total: nat := 100

  /** Position of a symbol's sprite in the sprite array. */
  function SpriteIndex(s: Symbol): (i: nat)
    ensures i < |Alphabet| && Alphabet[i] == s
  {
    match s
    case Pig => 0
    case Coin => 1
    case Bar => 2
    case Treasure => 3
  }

  /** A weight table gives one weight per symbol. */
  predicate IsWeightTable(w: seq<nat>) {
    |w| == |Alphabet|
  }

  /** Sum of the first `k` weights: the lower end of the band of the symbol at index `k`. */
  function Cumulative(w: seq<nat>, k: nat): nat
    requires k <= |w|
  {
    if k == 0 then 0 else Cumulative(w, k - 1) + w[k - 1]
  }

  /**
   The cascade of threshold comparisons of the weighted draw, over any weight table:
   a value in range lands in the cumulative band of the symbol it picks.
   */
  function Pick(w: seq<nat>, r: int): (s: Symbol)
    requires IsWeightTable(w)
    ensures 0 <= r < Cumulative(w, |w|) ==>
              Cumulative(w, SpriteIndex(s)) <= r < Cumulative(w, SpriteIndex(s) + 1)
  {
    assert Cumulative(w, 3) == w[0] + w[1] + w[2] by {
      assert Cumulative(w, 1) == w[0];
    }
    if r < w[0] then Pig
    else if r < w[0] + w[1] then Coin
    else if r < w[0] + w[1] + w[2] then Bar
    else Treasure
  }

  /** The draw used by the game: thresholds 40, 70 and 90 over [0, 100). */
  function Draw(r: int): (s: Symbol)
    ensures s == Pig <==> r < 40
    ensures s == Coin <==> 40 <= r < 70
    ensures s == Bar <==> 70 <= r < 90
    ensures s == Treasure <==> 90 <= r
  {
    Pick(Probabilities, r)
  }

  /** The weights of the game's table add up to the range of the random source. */
  lemma ProbabilitiesSumToTotal()
    ensures IsWeightTable(Probabilities)
    ensures Cumulative(Probabilities, |Probabilities|) == Total
  {
    assert Cumulative(Probabilities, 2) == 70;
  }

  /** Every value in range lands in exactly the half-open band of the symbol it picks. */
  lemma PickInBand(w: seq<nat>, r: int, s: Symbol)
    requires IsWeightTable(w)
    requires 0 <= r < Cumulative(w, |w|)
    ensures Pick(w, r) == s <==>
              Cumulative(w, SpriteIndex(s)) <= r < Cumulative(w, SpriteIndex(s) + 1)
  {
  }

  /** Number of values `r` in [lo, hi) for which `Pick(w, r) == s`. */
  function CountIn(w: seq<nat>, s: Symbol, lo: int, hi: int): nat
    requires IsWeightTable(w)
    decreases hi - lo
  {
    if lo >= hi then 0
    else (if Pick(w, lo) == s then 1 else 0) + CountIn(w, s, lo + 1, hi)
  }

  lemma {:induction false} CountSplit(w: seq<nat>, s: Symbol, lo: int, mid: int, hi: int)
    requires IsWeightTable(w)
    requires lo <= mid <= hi
    ensures CountIn(w, s, lo, hi) == CountIn(w, s, lo, mid) + CountIn(w, s, mid, hi)
    decreases mid - lo
  {
    if lo < mid {
      CountSplit(w, s, lo + 1, mid, hi);
    }
  }

  /** Over a stretch where the draw is constantly `t`, `s` is counted everywhere or nowhere. */
  lemma {:induction false} CountOnBand(w: seq<nat>, s: Symbol, t: Symbol, lo: int, hi: int)
    requires IsWeightTable(w)
    requires lo <= hi
    requires forall r :: lo <= r < hi ==> Pick(w, r) == t
    ensures CountIn(w, s, lo, hi) == if s == t then hi - lo else 0
    decreases hi - lo
  {
    if lo < hi {
      CountOnBand(w, s, t, lo + 1, hi);
    }
  }

  /** Each symbol is picked by exactly as many values of [0, total) as its weight. */
  lemma PickCountsMatchWeights(w: seq<nat>, s: Symbol)
    requires IsWeightTable(w)
    ensures CountIn(w, s, 0, Cumulative(w, |w|)) == w[SpriteIndex(s)]
  {
    var c1, c2, c3 := w[0], w[0] + w[1], w[0] + w[1] + w[2];
    var c4 := c3 + w[3];
    assert Cumulative(w, |w|) == c4 by {
      assert Cumulative(w, 1) == c1;
      assert Cumulative(w, 2) == c2;
      assert Cumulative(w, 3) == c3;
    }
    CountSplit(w, s, 0, c1, c4);
    CountSplit(w, s, c1, c2, c4);
    CountSplit(w, s, c2, c3, c4);
    CountOnBand(w, s, Pig, 0, c1);
    CountOnBand(w, s, Coin, c1, c2);
    CountOnBand(w, s, Bar, c2, c3);
    CountOnBand(w, s, Treasure, c3, c4);
  }

  /**
   Of the 100 values of the random source, 40 draw Pig, 30 Coin, 20 Bar and 10 Treasure:
   `Draw` is `Pick` over `Probabilities`, and the counts are taken over that pick.
   */
  lemma DrawCountsMatchWeights()
    ensures forall r :: Draw(r) == Pick(Probabilities, r)
    ensures forall s :: CountIn(Probabilities, s, 0, Total) == Probabilities[SpriteIndex(s)]
    ensures CountIn(Probabilities, Pig, 0, Total) == 40
    ensures CountIn(Probabilities, Coin, 0, Total) == 30
    ensures CountIn(Probabilities, Bar, 0, Total) == 20
    ensures CountIn(Probabilities, Treasure, 0, Total) == 10
  {
    ProbabilitiesSumToTotal();
    forall s: Symbol
      ensures CountIn(Probabilities, s, 0, Total) == Probabilities[SpriteIndex(s)]
    {
      PickCountsMatchWeights(Probabilities, s);
    }
    assert SpriteIndex(Pig) == 0 && SpriteIndex(Coin) == 1;
    assert SpriteIndex(Bar) == 2 && SpriteIndex(Treasure) == 3;
  }
}
