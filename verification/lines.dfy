/**
 Row evaluation of the grid: the grid is read in consecutive rows of three
 cells, and a row pays when its three cells hold one and the same symbol
 other than the blank pig. The payout of a winning row is the bet times the
 symbol's multiplier; rows are evaluated independently and their payouts add up.
 */
module Lines {
  import opened Symbols

  /** A grid is a sequence of cells, three per row. */
  type Grid = seq<Symbol>

  predicate IsRowGrid(g: Grid) {
    |g| % 3 == 0
  }

  /** Offsets `k` at which a row starts, or the end of the grid. */
  predicate IsRowStart(g: Grid, k: int) {
    IsRowGrid(g) && 0 <= k <= |g| && k % 3 == 0
  }

  /** A row start before the end of the grid leaves room for a whole row. */
  lemma RowFits(g: Grid, k: int)
    requires IsRowStart(g, k) && k < |g|
    ensures k + 2 < |g| && IsRowStart(g, k + 3)
  {
  }

  /**
   The paytable: how many bets a row of three copies of the symbol returns. Only
   the pig pays nothing, and no symbol pays more than ten bets.
   */
  function Multiplier(s: Symbol): (n: nat)
    ensures n == 0 <==> s == Pig
    ensures s != Pig ==> 3 <= n <= 10
  {
    match s
    case Pig => 0
    case Coin => 3
    case Bar => 5
    case Treasure => 10
  }

  /** The paytable's entries: a coin row returns 3 bets, a bar row 5, a treasure row 10. */
  lemma PaytableValues()
    ensures Multiplier(Coin) == 3 && Multiplier(Bar) == 5 && Multiplier(Treasure) == 10
  {
  }

  /** The row starting at `i` consists of three copies of one symbol that is not the pig. */
  predicate IsWinningRow(g: Grid, i: int)
    requires 0 <= i && i + 2 < |g|
  {
    g[i] != Pig && g[i + 1] == g[i] && g[i + 2] == g[i]
  }

  /**
   The credit for the row starting at `i`: cells compared pairwise, the pig row
   paying nothing, and the sprite cascade choosing 3, 5 or 10 bets.
   */
  function RowPayout(g: Grid, i: int, bet: int): (p: int)
    requires 0 <= i && i + 2 < |g|
    ensures p == if IsWinningRow(g, i) then bet * Multiplier(g[i]) else 0
    ensures p == 0 || p == 3 * bet || p == 5 * bet || p == 10 * bet
    ensures bet != 0 ==> (p != 0 <==> IsWinningRow(g, i))
  {
    if g[i] == g[i + 1] && g[i + 1] == g[i + 2] then
      if g[i] != Pig then
        if g[i] == Coin then bet * 3
        else if g[i] == Bar then bet * 5
        else if g[i] == Treasure then bet * 10
        else 0
      else 0
    else 0
  }

  /** Sum of the payouts of the rows starting at `k`, `k + 3`, ... up to the end of the grid. */
  function PayoutFrom(g: Grid, k: int, bet: int): (p: int)
    requires IsRowStart(g, k)
    decreases |g| - k
  {
    if k == |g| then 0
    else
      RowFits(g, k);
      RowPayout(g, k, bet) + PayoutFrom(g, k + 3, bet)
  }

  /**
   Total credit of one evaluation of the grid: the bet times the multipliers of
   exactly the matched rows (`MatchesFrom(g, 0)` is `Matches(g)`).
   */
  function TotalPayout(g: Grid, bet: int): (t: int)
    requires IsRowGrid(g)
    ensures t == bet * MultiplierSum(MatchesFrom(g, 0))
  {
    PayoutFromIsMatchSum(g, 0, bet);
    PayoutFrom(g, 0, bet)
  }

  lemma {:induction false} PayoutFromBound(g: Grid, k: int, bet: int)
    requires IsRowStart(g, k)
    requires bet >= 0
    ensures 0 <= PayoutFrom(g, k, bet) <= (|g| - k) / 3 * (10 * bet)
    decreases |g| - k
  {
    if k < |g| {
      PayoutFromBound(g, k + 3, bet);
      var n := (|g| - (k + 3)) / 3;
      assert (|g| - k) / 3 == n + 1;
      BoundStep(RowPayout(g, k, bet), PayoutFrom(g, k + 3, bet), n, bet);
    }
  }

  lemma BoundStep(row: int, rest: int, n: int, bet: int)
    requires bet >= 0 && 0 <= row <= 10 * bet && 0 <= rest <= n * (10 * bet)
    ensures 0 <= row + rest <= (n + 1) * (10 * bet)
  {
  }

  /** No grid pays more than ten bets per row. */
  lemma TotalPayoutBound(g: Grid, bet: int)
    requires IsRowGrid(g)
    requires bet >= 0
    ensures 0 <= TotalPayout(g, bet) <= |g| / 3 * (10 * bet)
  {
    PayoutFromBound(g, 0, bet);
  }

  /** A winning row: where it starts and the symbol filling it. */
  datatype Match = Match(row: nat, symbol: Symbol)

  /** The matches among the rows at or after `k`, in row order. */
  function MatchesFrom(g: Grid, k: int): seq<Match>
    requires IsRowStart(g, k)
    decreases |g| - k
  {
    if k == |g| then []
    else
      RowFits(g, k);
      (if IsWinningRow(g, k) then [Match(k, g[k])] else []) + MatchesFrom(g, k + 3)
  }

  /** Every match recorded from `k` on is a winning row start at or after `k`, with its symbol. */
  lemma {:induction false} MatchesFromSound(g: Grid, k: int)
    requires IsRowStart(g, k)
    ensures forall j :: 0 <= j < |MatchesFrom(g, k)| ==>
              var m := MatchesFrom(g, k)[j];
              k <= m.row && m.row + 2 < |g| && m.row % 3 == 0 &&
              IsWinningRow(g, m.row) && m.symbol == g[m.row]
    decreases |g| - k
  {
    if k < |g| {
      MatchesFromSound(g, k + 3);
    }
  }

  /** Every winning row start at or after `k` is recorded, with its symbol. */
  lemma {:induction false} MatchesFromComplete(g: Grid, k: int)
    requires IsRowStart(g, k)
    ensures forall i :: k <= i && i + 2 < |g| && i % 3 == 0 && IsWinningRow(g, i) ==>
              Match(i, g[i]) in MatchesFrom(g, k)
    decreases |g| - k
  {
    if k < |g| {
      MatchesFromComplete(g, k + 3);
    }
  }

  /** The matches recorded from `k` on come in strictly increasing row order. */
  lemma {:induction false} MatchesFromSorted(g: Grid, k: int)
    requires IsRowStart(g, k)
    ensures forall a, b :: 0 <= a < b < |MatchesFrom(g, k)| ==>
              MatchesFrom(g, k)[a].row < MatchesFrom(g, k)[b].row
    decreases |g| - k
  {
    if k < |g| {
      MatchesFromSound(g, k + 3);
      MatchesFromSorted(g, k + 3);
    }
  }

  /**
   `MatchesFrom(g, k)` lists exactly the winning rows at or after `k`, each once
   with its symbol, in increasing row order.
   */
  lemma MatchesFromCorrect(g: Grid, k: int)
    requires IsRowStart(g, k)
    ensures forall j :: 0 <= j < |MatchesFrom(g, k)| ==>
              var m := MatchesFrom(g, k)[j];
              k <= m.row && m.row + 2 < |g| && m.row % 3 == 0 &&
              IsWinningRow(g, m.row) && m.symbol == g[m.row]
    ensures forall i :: k <= i && i + 2 < |g| && i % 3 == 0 && IsWinningRow(g, i) ==>
              Match(i, g[i]) in MatchesFrom(g, k)
    ensures forall a, b :: 0 <= a < b < |MatchesFrom(g, k)| ==>
              MatchesFrom(g, k)[a].row < MatchesFrom(g, k)[b].row
  {
    MatchesFromSound(g, k);
    MatchesFromComplete(g, k);
    MatchesFromSorted(g, k);
  }

  /** The rows over which a winning line is drawn, each with its symbol, in row order. */
  function Matches(g: Grid): (ms: seq<Match>)
    requires IsRowGrid(g)
    ensures forall i: nat, s :: Match(i, s) in ms <==>
              i + 2 < |g| && i % 3 == 0 && IsWinningRow(g, i) && s == g[i]
    ensures forall a, b :: 0 <= a < b < |ms| ==> ms[a].row < ms[b].row
  {
    MatchesFromCorrect(g, 0);
    MatchesFrom(g, 0)
  }

  /** Sum of the multipliers of the matched symbols. */
  function MultiplierSum(ms: seq<Match>): nat {
    if |ms| == 0 then 0 else Multiplier(ms[0].symbol) + MultiplierSum(ms[1..])
  }

  /** The payout from `k` on is the bet times the multipliers of exactly the matched rows. */
  lemma {:induction false} PayoutFromIsMatchSum(g: Grid, k: int, bet: int)
    requires IsRowStart(g, k)
    ensures PayoutFrom(g, k, bet) == bet * MultiplierSum(MatchesFrom(g, k))
    decreases |g| - k
  {
    if k < |g| {
      PayoutFromIsMatchSum(g, k + 3, bet);
      var rest := MatchesFrom(g, k + 3);
      if IsWinningRow(g, k) {
        var ms := [Match(k, g[k])] + rest;
        assert MatchesFrom(g, k) == ms;
        assert ms[1..] == rest;
        ScaledSumStep(bet, Multiplier(g[k]), MultiplierSum(rest),
                      RowPayout(g, k, bet), PayoutFrom(g, k + 3, bet));
      } else {
        assert MatchesFrom(g, k) == rest;
        assert RowPayout(g, k, bet) == 0;
        assert PayoutFrom(g, k, bet) == PayoutFrom(g, k + 3, bet);
      }
    }
  }

  lemma ScaledSumStep(bet: int, m: int, ms: int, row: int, rest: int)
    requires row == bet * m && rest == bet * ms
    ensures row + rest == bet * (m + ms)
  {
  }

  /** A row's payout depends on its own three cells only. */
  lemma RowPayoutIsLocal(g: Grid, i: int, h: Grid, j: int, bet: int)
    requires 0 <= i && i + 2 < |g|
    requires 0 <= j && j + 2 < |h|
    requires g[i] == h[j] && g[i + 1] == h[j + 1] && g[i + 2] == h[j + 2]
    ensures RowPayout(g, i, bet) == RowPayout(h, j, bet)
  {
  }

  /** The rows of `b` keep their payouts when `b` is placed after `a`. */
  lemma {:induction false} PayoutFromShift(a: Grid, b: Grid, k: int, bet: int)
    requires IsRowGrid(a) && IsRowStart(b, k)
    ensures IsRowStart(a + b, |a| + k)
    ensures PayoutFrom(a + b, |a| + k, bet) == PayoutFrom(b, k, bet)
    decreases |b| - k
  {
    if k < |b| {
      PayoutFromShift(a, b, k + 3, bet);
      var i := |a| + k;
      assert (a + b)[i] == b[k] && (a + b)[i + 1] == b[k + 1] && (a + b)[i + 2] == b[k + 2];
      RowPayoutIsLocal(a + b, i, b, k, bet);
      PayoutFromUnfold(a + b, i, bet);
      PayoutFromUnfold(b, k, bet);
      assert |a| + (k + 3) == i + 3;
    } else {
      assert |a| + k == |a + b|;
    }
  }

  /** The payout from a row start before the end is that row's payout plus the rest. */
  lemma PayoutFromUnfold(g: Grid, k: int, bet: int)
    requires IsRowStart(g, k) && k < |g|
    ensures k + 2 < |g| && IsRowStart(g, k + 3)
    ensures PayoutFrom(g, k, bet) == RowPayout(g, k, bet) + PayoutFrom(g, k + 3, bet)
  {
  }

  lemma {:induction false} PayoutFromAppend(a: Grid, b: Grid, k: int, bet: int)
    requires IsRowStart(a, k) && IsRowGrid(b)
    ensures IsRowStart(a + b, k)
    ensures PayoutFrom(a + b, k, bet) == PayoutFrom(a, k, bet) + TotalPayout(b, bet)
    decreases |a| - k
  {
    if k == |a| {
      PayoutFromShift(a, b, 0, bet);
    } else {
      PayoutFromAppend(a, b, k + 3, bet);
      assert (a + b)[k] == a[k] && (a + b)[k + 1] == a[k + 1] && (a + b)[k + 2] == a[k + 2];
      RowPayoutIsLocal(a + b, k, a, k, bet);
    }
  }

  /** Rows are evaluated independently: the payout of stacked grids is the sum of their payouts. */
  lemma TotalPayoutAppend(a: Grid, b: Grid, bet: int)
    requires IsRowGrid(a) && IsRowGrid(b)
    ensures IsRowGrid(a + b)
    ensures TotalPayout(a + b, bet) == TotalPayout(a, bet) + TotalPayout(b, bet)
  {
    PayoutFromAppend(a, b, 0, bet);
  }

  /** A row of three pigs is never a win and pays nothing. */
  lemma PigRowPaysNothing(g: Grid, i: int, bet: int)
    requires 0 <= i && i + 2 < |g|
    requires g[i] == Pig
    ensures !IsWinningRow(g, i)
    ensures RowPayout(g, i, bet) == 0
  {
  }
}
