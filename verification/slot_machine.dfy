/**
 The slot machine session: the balance, the bet and the grid of cells shown
 on screen, the start-up values, and the spin that checks the balance,
 debits the bet, refills every cell from the random source and credits the
 winning rows.

 The random source is an input: a spin receives the integers the source would
 have returned, one per cell in cell order.
 */
module SlotMachine {
  import opened Symbols
  import opened Lines

  /** The machine's state: the player's balance, the current bet and the symbol of every cell. */
  datatype Machine = Machine(balance: int, bet: int, grid: Grid)

  const StartBalance: int := 150
  const StartBet: int := 5

  /** The state right after start-up, for a machine with `cells` image cells. */
  function Start(cells: nat): (m: Machine)
    ensures m.balance == StartBalance && m.bet == StartBet
    ensures |m.grid| == cells
    ensures forall k :: 0 <= k < cells ==> m.grid[k] == Pig
  {
    Machine(StartBalance, StartBet, seq(cells, _ => Pig))
  }

  /**
   A spin is allowed only when the balance is strictly greater than the bet, that
   is, when debiting the bet still leaves a positive balance.
   */
  function CheckBalance(m: Machine): (ok: bool)
    ensures ok <==> UpdateBalance(m, -m.bet).balance > 0
  {
    m.balance > m.bet
  }

  /** Adds a profit (or, when negative, a loss) to the balance; nothing else changes. */
  function UpdateBalance(m: Machine, delta: int): (m': Machine)
    ensures m'.balance - m.balance == delta
    ensures m'.bet == m.bet && m'.grid == m.grid
  {
    m.(balance := m.balance + delta)
  }

  /** Successive updates add up, and an update is undone by its opposite. */
  lemma UpdateBalanceComposes(m: Machine, a: int, b: int)
    ensures UpdateBalance(UpdateBalance(m, a), b) == UpdateBalance(m, a + b)
    ensures UpdateBalance(UpdateBalance(m, a), -a) == m
    ensures UpdateBalance(m, 0) == m
  {
  }

  /** Every cell receives the symbol drawn from its own random value. */
  function Fill(m: Machine, draws: seq<int>): (m': Machine)
    requires |draws| == |m.grid|
    ensures |m'.grid| == |m.grid|
    ensures forall k :: 0 <= k < |draws| ==> m'.grid[k] == Draw(draws[k])
    ensures m'.balance == m.balance && m'.bet == m.bet
  {
    m.(grid := seq(|draws|, k requires 0 <= k < |draws| => Draw(draws[k])))
  }

  /**
   The credit of the row evaluation, as one update by the total payout: the bet
   times the multipliers of the matched rows, with bet and grid kept.
   */
  function Settle(m: Machine): (m': Machine)
    requires IsRowGrid(m.grid)
    ensures m'.balance == m.balance + m.bet * MultiplierSum(MatchesFrom(m.grid, 0))
    ensures m'.bet == m.bet && m'.grid == m.grid
  {
    UpdateBalance(m, TotalPayout(m.grid, m.bet))
  }

  /**
   The check of the row starting at `i`: three equal cells that are not pigs get a
   line and one balance update by 3, 5 or 10 bets.
   */
  method CheckRow(m: Machine, i: int) returns (m': Machine, line: seq<Match>)
    requires 0 <= i && i + 2 < |m.grid|
    ensures m'.balance == m.balance + RowPayout(m.grid, i, m.bet)
    ensures m'.bet == m.bet && m'.grid == m.grid
    ensures line == if IsWinningRow(m.grid, i) then [Match(i, m.grid[i])] else []
  {
    var g, bet := m.grid, m.bet;
    m', line := m, [];
    if g[i] == g[i + 1] && g[i + 1] == g[i + 2] {
      if g[i] != Pig {
        line := [Match(i, g[i])];
        if g[i] == Coin {
          m' := UpdateBalance(m', bet * 3);
        } else if g[i] == Bar {
          m' := UpdateBalance(m', bet * 5);
        } else if g[i] == Treasure {
          m' := UpdateBalance(m', bet * 10);
        }
      }
    }
  }

  /**
   The row walk of the evaluation as the game performs it: rows in steps of three,
   one balance update per winning row, one line recorded per winning row. The lines
   are stated as `MatchesFrom(m.grid, 0)`, the walk from the first row, which is
   what `Matches` returns.
   */
  method CheckLines(m: Machine) returns (m': Machine, lines: seq<Match>)
    requires IsRowGrid(m.grid)
    ensures m' == Settle(m)
    ensures lines == MatchesFrom(m.grid, 0)
  {
    var g := m.grid;
    m', lines := m, [];
    var i := 0;
    while i < |g|
      invariant 0 <= i <= |g| && i % 3 == 0
      invariant m'.bet == m.bet && m'.grid == g
      invariant m'.balance + PayoutFrom(g, i, m.bet) == m.balance + PayoutFrom(g, 0, m.bet)
      invariant lines + MatchesFrom(g, i) == MatchesFrom(g, 0)
      decreases |g| - i
    {
      RowFits(g, i);
      var line;
      m', line := CheckRow(m', i);
      NextRow(g, i, m.bet, lines, line);
      lines := lines + line;
      i := i + 3;
    }
    assert lines == MatchesFrom(g, 0) by {
      assert MatchesFrom(g, i) == [];
    }
  }

  /** One step of the row walk: the row at `i` is split off the rest of the walk. */
  lemma NextRow(g: Grid, i: int, bet: int, lines: seq<Match>, line: seq<Match>)
    requires IsRowStart(g, i) && i < |g|
    requires line == if IsWinningRow(g, i) then [Match(i, g[i])] else []
    ensures PayoutFrom(g, i, bet) == RowPayout(g, i, bet) + PayoutFrom(g, i + 3, bet)
    ensures lines + MatchesFrom(g, i) == (lines + line) + MatchesFrom(g, i + 3)
  {
    var rest := MatchesFrom(g, i + 3);
    assert MatchesFrom(g, i) == line + rest;
  }

  /** What one press of the spin button produces. */
  datatype Outcome =
    | InsufficientFunds
    | Spun(machine: Machine, lines: seq<Match>, payout: int)

  /**
   One spin. A balance not above the bet rejects it; otherwise the bet is debited,
   every cell is redrawn and the winning rows are credited.
   */
  function Spin(m: Machine, draws: seq<int>): (o: Outcome)
    requires CheckBalance(m) ==> IsRowGrid(m.grid) && |draws| == |m.grid|
    ensures o.InsufficientFunds? <==> m.balance <= m.bet
    ensures o.Spun? ==>
              && o.machine.bet == m.bet
              && |o.machine.grid| == |m.grid|
              && (forall k :: 0 <= k < |m.grid| ==> o.machine.grid[k] == Draw(draws[k]))
              && o.payout == TotalPayout(o.machine.grid, m.bet)
              && o.lines == Matches(o.machine.grid)
              && o.machine.balance == m.balance - m.bet + o.payout
  {
    if !CheckBalance(m) then InsufficientFunds
    else
      var debited := UpdateBalance(m, -m.bet);
      var filled := Fill(debited, draws);
      Spun(Settle(filled), Matches(filled.grid), TotalPayout(filled.grid, m.bet))
  }

  /**
   An accepted spin costs exactly one bet whatever the outcome, and wins back at
   most ten bets per row.
   */
  lemma SpinBalanceRange(m: Machine, draws: seq<int>)
    requires IsRowGrid(m.grid) && CheckBalance(m) && |draws| == |m.grid|
    requires m.bet >= 0
    ensures m.balance - m.bet <= Spin(m, draws).machine.balance
    ensures Spin(m, draws).machine.balance <= m.balance - m.bet + |m.grid| / 3 * (10 * m.bet)
  {
    TotalPayoutBound(Spin(m, draws).machine.grid, m.bet);
  }

  /** The machine after a press of the spin button: a rejected spin leaves it as it was. */
  function After(m: Machine, draws: seq<int>): (m': Machine)
    requires CheckBalance(m) ==> IsRowGrid(m.grid) && |draws| == |m.grid|
    ensures !CheckBalance(m) ==> m' == m
    ensures m'.bet == m.bet && |m'.grid| == |m.grid|
    ensures CheckBalance(m) ==> m'.balance == m.balance - m.bet + TotalPayout(m'.grid, m.bet)
  {
    match Spin(m, draws)
    case InsufficientFunds => m
    case Spun(m', _, _) => m'
  }

  /** The new grid depends on the draws only: no cell keeps what it showed before. */
  lemma SpinForgetsOldGrid(m1: Machine, m2: Machine, draws: seq<int>)
    requires IsRowGrid(m1.grid) && CheckBalance(m1) && |draws| == |m1.grid|
    requires IsRowGrid(m2.grid) && CheckBalance(m2) && |draws| == |m2.grid|
    ensures Spin(m1, draws).machine.grid == Spin(m2, draws).machine.grid
  {
  }

  /** A sequence of presses of the spin button, one block of draws per press. */
  function Play(m: Machine, rounds: seq<seq<int>>): (m': Machine)
    requires IsRowGrid(m.grid)
    requires forall j :: 0 <= j < |rounds| ==> |rounds[j]| == |m.grid|
    ensures m'.bet == m.bet && |m'.grid| == |m.grid|
    ensures !CheckBalance(m) ==> m' == m
    decreases |rounds|
  {
    if |rounds| == 0 then m else Play(After(m, rounds[0]), rounds[1..])
  }

  /**
   `q` bets of size `bet`. A named product, so that the existential in `Healthy`
   has a term to match on and the solver does not explore the bare product.
   */
  function Bets(q: int, bet: int): int {
    q * bet
  }

  /** The balance is a whole, positive number of bets. */
  ghost predicate Healthy(m: Machine) {
    m.bet > 0 && exists q :: q >= 1 && m.balance == Bets(q, m.bet)
  }

  lemma StartIsHealthy(cells: nat)
    ensures Healthy(Start(cells))
  {
    assert Start(cells).balance == Bets(30, StartBet);
  }

  lemma SpinKeepsHealthy(m: Machine, draws: seq<int>)
    requires IsRowGrid(m.grid)
    requires CheckBalance(m) ==> |draws| == |m.grid|
    requires Healthy(m)
    ensures Healthy(After(m, draws))
  {
    if CheckBalance(m) {
      var m' := After(m, draws);
      var q :| q >= 1 && m.balance == Bets(q, m.bet);
      var n := WholeBetsStep(q, m.bet, MultiplierSum(MatchesFrom(m'.grid, 0)));
      assert m'.balance == Bets(n, m.bet);
    }
  }

  /**
   With a whole, positive number of bets, the balance check refuses a spin exactly
   when the balance is one bet: the affordable last bet can never be played.
   */
  lemma RefusedExactlyAtOneBet(m: Machine)
    requires Healthy(m)
    ensures !CheckBalance(m) <==> m.balance == m.bet
  {
  }

  /**
   Debiting one bet from more than one bet and crediting `w` bets leaves a whole,
   positive number `n` of bets.
   */
  lemma WholeBetsStep(q: int, bet: int, w: nat) returns (n: int)
    requires bet > 0 && q >= 1 && Bets(q, bet) > bet
    ensures n >= 1
    ensures Bets(q, bet) - bet + bet * w == Bets(n, bet)
  {
    assert q >= 2;
    n := q - 1 + w;
    assert q * bet - bet + bet * w == (q - 1 + w) * bet;
  }

  /**
   Over any session from start-up the balance stays a positive multiple of the bet;
   in particular it never drops below one bet, and a balance of exactly one bet
   can no longer spin.
   */
  lemma {:induction false} PlayKeepsHealthy(m: Machine, rounds: seq<seq<int>>)
    requires IsRowGrid(m.grid)
    requires forall j :: 0 <= j < |rounds| ==> |rounds[j]| == |m.grid|
    requires Healthy(m)
    ensures Healthy(Play(m, rounds))
    decreases |rounds|
  {
    if |rounds| > 0 {
      SpinKeepsHealthy(m, rounds[0]);
      PlayKeepsHealthy(After(m, rounds[0]), rounds[1..]);
    }
  }

  lemma SessionNeverBelowOneBet(cells: nat, rounds: seq<seq<int>>)
    requires cells % 3 == 0
    requires forall j :: 0 <= j < |rounds| ==> |rounds[j]| == cells
    ensures Play(Start(cells), rounds).balance >= StartBet
    ensures Play(Start(cells), rounds).balance % StartBet == 0
  {
    var m0 := Start(cells);
    StartIsHealthy(cells);
    PlayKeepsHealthy(m0, rounds);
    FiveBetsMultiple(Play(m0, rounds));
  }

  /** A whole, positive number of bets of the start-up size is at least one such bet and a multiple of it. */
  lemma FiveBetsMultiple(m: Machine)
    requires Healthy(m) && m.bet == StartBet
    ensures m.balance >= StartBet && m.balance % StartBet == 0
  {
  }

  /** A row of treasures on the top row and no other win: 150 - 5 + 50. */
  lemma TreasureRowExample()
    ensures var o := Spin(Start(9), [95, 95, 95, 0, 10, 50, 0, 10, 75]);
            o.Spun? && o.payout == 50 && o.machine.balance == 195 && o.lines == [Match(0, Treasure)]
  {
  }

  /** No matching row: the spin only costs the bet. */
  lemma NoWinExample()
    ensures var o := Spin(Start(9), [0, 40, 70, 90, 0, 40, 70, 90, 0]);
            o.Spun? && o.payout == 0 && o.machine.balance == 145 && o.lines == []
  {
  }

  /** A balance of 4 cannot cover a bet of 5, and a balance of exactly 5 is refused too. */
  lemma InsufficientFundsExample(g: Grid, draws: seq<int>)
    ensures Spin(Machine(4, 5, g), draws) == InsufficientFunds
    ensures After(Machine(4, 5, g), draws).balance == 4
    ensures Spin(Machine(5, 5, g), draws) == InsufficientFunds
  {
  }
}
