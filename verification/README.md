# Slot machine outcome and payout model

This project models the game logic of the `ImageSwitcher` component of a small
3-reel slot game. The logic covers:

- the weighted draw that turns a random integer in [0, 100) into one of four
  symbols: broken pig, coin, golden bar or treasure chest;
- the row evaluation that credits every row of three equal non-pig symbols;
- the balance bookkeeping of a spin: a strict balance check, a debit of the bet,
  a full refill of the grid, then the credits;
- the start-up state: balance 150, bet 5, every cell a pig.

The model has three modules:

- `Symbols` (`symbols.dfy`): the `Symbol` datatype in sprite-array order, the
  weight table `{40, 30, 20, 10}` and the draw. `Pick` is the threshold cascade
  over any four-entry weight table, and `Draw` is `Pick` over the game's table.
  The lemmas show that each value lands in the half-open band of its symbol, and
  that each symbol is drawn by exactly as many of the 100 values as its weight.
- `Lines` (`lines.dfy`): the grid as `seq<Symbol>`, read in rows of three. It
  defines the paytable (coin 3, bar 5, treasure 10 bets), the payout of one row,
  the total payout and the list of matched rows (the rows that get a winning line
  on screen). The lemmas say that the total is the bet times the multipliers of
  exactly the matched rows, that rows are independent (stacking grids adds their
  payouts), and that no row pays more than ten bets.
- `SlotMachine` (`slot_machine.dfy`): the `Machine` state (balance, bet, grid),
  start-up, the balance check, `UpdateBalance`, the refill and the spin. `Spin`
  returns `InsufficientFunds` or the new machine with its matches and payout.
  `After` is the state after a button press, and `Play` is a session of presses.
  The `CheckLines` method walks the rows as the game does: one balance update
  per winning row. Its contract shows that it agrees with the functional
  `Settle`.

The random source is an input. A spin receives the integers the random source
would return, one per cell in cell order. It needs them only when the spin is
accepted, because a rejected spin draws nothing. Money is an unbounded integer
(abstract currency units).

Two consequences of the code are worth stating:

- The draw thresholds are the cumulative sums 40, 70 and 90. The inline comments
  next to them in `ImageSwitcher.cs` give the stale bands 0-49, 50-79, 80-94 and
  95-99. The model follows the comparisons, not the comments.
- The balance check is strict (`balance > bet`). Every payout is a whole number
  of bets, so from start-up the balance stays a positive multiple of the bet
  (`SessionNeverBelowOneBet`). A player who reaches a balance of exactly one bet
  can no longer spin, even though that bet is affordable (`RefusedExactlyAtOneBet`). The model keeps the
  strict check as written.

The evaluation checks rows only, credits each winning row directly to the
balance, and uses a fixed weight table.

## Model

| member | source | states |
|---|---|---|
| Symbols.SpriteIndex | Assets/Scripts/ImageSwitcher.cs:10 | each symbol sits at its own index of the sprite array (pig 0, coin 1, bar 2, treasure 3) |
| Symbols.Draw | Assets/Scripts/ImageSwitcher.cs:68-79 | the draw gives pig iff r < 40, coin iff 40 <= r < 70, bar iff 70 <= r < 90, treasure iff r >= 90; these are the code's thresholds, not the comments' |
| Symbols.ProbabilitiesSumToTotal | Assets/Scripts/ImageSwitcher.cs:19 | the weights 40, 30, 20, 10 add up to 100, the range of the random source |
| Symbols.Pick | Assets/Scripts/ImageSwitcher.cs:71-78 | the comparison chain over any four-entry weight table: a value in [0, total) lands in the cumulative band of the symbol it picks |
| Symbols.PickInBand | Assets/Scripts/ImageSwitcher.cs:70-78 | for any weight table, a value in range picks a symbol exactly when it lies in that symbol's half-open cumulative band |
| Symbols.PickCountsMatchWeights | Assets/Scripts/ImageSwitcher.cs:70-78 | for any weight table, the number of values in [0, total) that pick a symbol equals that symbol's weight |
| Symbols.DrawCountsMatchWeights | Assets/Scripts/ImageSwitcher.cs:19 | `Draw` is the pick over the game's weight table, and of the 100 random values exactly 40 draw pig, 30 coin, 20 bar and 10 treasure |
| Lines.Multiplier | Assets/Scripts/ImageSwitcher.cs:114-128 | the paytable: only the pig pays nothing, and every other symbol pays between 3 and 10 bets |
| Lines.PaytableValues | Assets/Scripts/ImageSwitcher.cs:114-128 | the paytable's entries: coin 3, bar 5 and treasure 10 bets |
| Lines.RowPayout | Assets/Scripts/ImageSwitcher.cs:86-133 | a row pays bet x multiplier when its three cells are one non-pig symbol, else 0; the payout is one of 0, 3, 5 or 10 bets; for a nonzero bet it is nonzero exactly for a winning row |
| Lines.PigRowPaysNothing | Assets/Scripts/ImageSwitcher.cs:90-132 | a row starting with a pig, including a full pig row, never wins and pays 0 |
| Lines.RowPayoutIsLocal | Assets/Scripts/ImageSwitcher.cs:86-87 | a row's payout depends on its own three cells only |
| Lines.MatchesFromSound | Assets/Scripts/ImageSwitcher.cs:84-94 | every line recorded from offset k on belongs to a winning row start at or after k, with that row's symbol |
| Lines.MatchesFromComplete | Assets/Scripts/ImageSwitcher.cs:84-94 | every winning row start at or after k gets a line, with its symbol |
| Lines.MatchesFromSorted | Assets/Scripts/ImageSwitcher.cs:84 | the lines recorded from k on come in strictly increasing row order, as the walk goes forward in steps of three |
| Lines.MatchesFromCorrect | Assets/Scripts/ImageSwitcher.cs:84-94 | the rows walked from offset k on that are recorded are exactly the winning rows at row starts, each with its symbol, in increasing row order |
| Lines.Matches | Assets/Scripts/ImageSwitcher.cs:84-112 | a winning line is drawn for row i with symbol s iff i starts a row (i % 3 == 0), all three cells hold s and s is not the pig; lines come in row order |
| Lines.PayoutFromIsMatchSum | Assets/Scripts/ImageSwitcher.cs:84-135 | the credit of the rows from k on is the bet times the sum of the multipliers of the matched rows from k on |
| Lines.TotalPayout | Assets/Scripts/ImageSwitcher.cs:84-135 | the total credit of an evaluation, summed over the rows at 0, 3, 6, ..., is the bet times the sum of the multipliers of exactly the matched rows |
| Lines.PayoutFromBound | Assets/Scripts/ImageSwitcher.cs:114-128 | for a non-negative bet, the rows from k on pay between 0 and ten bets per row |
| Lines.TotalPayoutBound | Assets/Scripts/ImageSwitcher.cs:84-135 | for a non-negative bet, the total payout lies between 0 and (cells / 3) x 10 x bet |
| Lines.PayoutFromShift | Assets/Scripts/ImageSwitcher.cs:84-87 | rows moved down by whole rows keep their payouts |
| Lines.PayoutFromAppend | Assets/Scripts/ImageSwitcher.cs:84-135 | the rows from k on in a stacked grid pay what they pay in the upper part plus the whole lower part's payout |
| Lines.TotalPayoutAppend | Assets/Scripts/ImageSwitcher.cs:84-135 | rows are evaluated independently: the payout of two stacked grids is the sum of their payouts |
| SlotMachine.Start | Assets/Scripts/ImageSwitcher.cs:21-32 | start-up sets balance 150 and bet 5 and puts a pig in every cell |
| SlotMachine.UpdateBalance | Assets/Scripts/ImageSwitcher.cs:148-151 | a balance update adds the profit or loss to the balance and changes nothing else |
| SlotMachine.UpdateBalanceComposes | Assets/Scripts/ImageSwitcher.cs:148-151 | successive balance updates add up, an update by zero changes nothing, and an update is undone by its opposite |
| SlotMachine.CheckBalance | Assets/Scripts/ImageSwitcher.cs:62-65 | a spin is allowed iff balance > bet, that is, iff debiting the bet leaves a strictly positive balance |
| SlotMachine.Fill | Assets/Scripts/ImageSwitcher.cs:45-49 | every cell gets the symbol drawn from its own random value, and balance and bet stay as they are |
| SlotMachine.Settle | Assets/Scripts/ImageSwitcher.cs:84-135 | the credits of one evaluation taken together raise the balance by the bet times the multipliers of the matched rows, and keep bet and grid |
| SlotMachine.CheckRow | Assets/Scripts/ImageSwitcher.cs:86-128 | checking one row raises the balance by exactly that row's payout and records a line exactly when the row wins |
| SlotMachine.CheckLines | Assets/Scripts/ImageSwitcher.cs:81-136 | the row walk with one balance update per winning row ends with the balance raised by exactly the total payout, and records exactly the matched rows |
| SlotMachine.Spin | Assets/Scripts/ImageSwitcher.cs:38-65 | a spin is refused iff balance <= bet; an accepted spin keeps the bet, redraws every cell from its own value, and ends at balance - bet + total payout, with the matched rows |
| SlotMachine.SpinBalanceRange | Assets/Scripts/ImageSwitcher.cs:43-54 | an accepted spin costs exactly one bet whatever the draw and wins back at most ten bets per row |
| SlotMachine.After | Assets/Scripts/ImageSwitcher.cs:38-60 | a refused spin leaves balance, bet and grid unchanged; an accepted one changes the balance by payout - bet and keeps the bet and the grid size |
| SlotMachine.SpinForgetsOldGrid | Assets/Scripts/ImageSwitcher.cs:46-49 | the grid after an accepted spin depends only on the draws: no cell keeps its previous content |
| SlotMachine.Play | Assets/Scripts/ImageSwitcher.cs:38-60 | a session of spins never changes the bet or the grid size, and a machine that cannot spin stays as it is |
| SlotMachine.StartIsHealthy | Assets/Scripts/ImageSwitcher.cs:23-24 | the starting balance is a whole, positive number of bets (30 bets of 5) |
| SlotMachine.RefusedExactlyAtOneBet | Assets/Scripts/ImageSwitcher.cs:62-65 | for a balance that is a whole, positive number of bets, the check refuses a spin exactly when the balance equals one bet |
| SlotMachine.WholeBetsStep | Assets/Scripts/ImageSwitcher.cs:40-43 | debiting one bet from more than one bet and crediting whole bets leaves a positive whole number of bets |
| SlotMachine.SpinKeepsHealthy | Assets/Scripts/ImageSwitcher.cs:38-65 | a spin keeps the balance a whole, positive number of bets |
| SlotMachine.PlayKeepsHealthy | Assets/Scripts/ImageSwitcher.cs:38-65 | over any session the balance stays a whole, positive number of bets |
| SlotMachine.FiveBetsMultiple | Assets/Scripts/ImageSwitcher.cs:23-24 | a whole, positive number of bets of 5 is at least 5 and a multiple of 5 |
| SlotMachine.SessionNeverBelowOneBet | Assets/Scripts/ImageSwitcher.cs:23-65 | from start-up, the balance never falls below 5 and is always a multiple of 5 |
| SlotMachine.TreasureRowExample | Assets/Scripts/ImageSwitcher.cs:38-60 | from start-up, a treasure row on top and no other win pays 50 and leaves 195, with one line for row 0 |
| SlotMachine.NoWinExample | Assets/Scripts/ImageSwitcher.cs:38-60 | from start-up, a grid without a matching row pays 0 and leaves 145, with no line |
| SlotMachine.InsufficientFundsExample | Assets/Scripts/ImageSwitcher.cs:55-65 | a balance of 4 with bet 5 is refused and stays 4; a balance equal to the bet is refused too |

## Left out

- `BetSelector` (`Assets/Scripts/Bet.cs`): it wires buttons and colours and assigns a bet value from an array. It has no game logic, and this component never reads its bet, so the bet here stays at its start-up value unless a caller builds a machine with another bet.
- Rendering: the `LineRenderer` instances, `GetWorldCorners` and the midpoint arithmetic, `ClearActiveLines`/`Destroy`, the `balanceText` strings (including the "cannot play" message of a refused spin) and `Debug.Log` are presentation. `Matches` stands for the set of rows that get a line.
- `UnityEngine.Random.Range`: the draws are inputs. `Draw` is total over the integers and maps values outside [0, 100) the way the comparison cascade does.
- Floating-point money: balance and bet are `double` in the component and unbounded integers here, so rounding of fractional bets is not modelled.
- Sprite reference equality is replaced by equality on `Symbol`. This assumes the four sprites are distinct objects.
- Grids whose cell count is not a multiple of 3. The row test at ImageSwitcher.cs:86-87 uses a short-circuit `&&`. So with one leftover cell, or two equal leftover cells, the last row reads past the end and the evaluation throws an index error. By then the bet has been debited, every cell redrawn and every complete row before the last credited, and those effects stay after the exception. With two different leftover cells, the third cell is never read and the evaluation finishes normally, crediting the complete rows (for example, [coin, coin, coin, pig, bar] pays 3 bets). The model covers neither case: every evaluating member requires `IsRowGrid`. `Spin` and `After` require it only of an accepted spin, and `Play` requires it of the whole session.
- The evaluation checks rows only, and the weight table is a fixed array; the model does the same.
