# Liar's Dice bot core in Dafny

This project models the decision core of a Liar's Dice bot. It sees the game
from one player's side. The core has three parts:

- **Bets and the game view** (`Base/Core.py`):
  - a `Bet` claims that at least `dices_count` dice show face `number`;
  - a `BetFabric` lists the whole bet space of a configuration and the successors of a bet;
  - a `Roll` holds the player's own dice;
  - a `DeterministicGame` scores bets with a confidence, ranks the candidate bets, and keeps an append-only bet history.
- **Selection heuristics** (`Base/SimpleHeuristics.py`): each one picks a single bet from a list of `(bet, confidence)` pairs.
- **The naive bot** (`Base/NaiveBot.py`): a small stateful policy built from the heuristics. It remembers the face it is bluffing on.

Modules, one per source file plus three helpers:

| module | file | contents |
|---|---|---|
| `Wrappers` | wrappers.dfy | `Option` and `Result` |
| `Combinatorics` | combinatorics.dfy | factorial, binomial coefficient (`math.comb`), powers of a real |
| `Sorting` | sorting.dfy | guarded comprehension, Python's stable sort with `reverse=True`, and the position of the element such a sort puts first |
| `Core` | core.dfy | `Bet`, `BetFabric`, `Roll`, the confidence and the `DeterministicGame` class |
| `SimpleHeuristics` | heuristics.dfy | the four selection functions |
| `Bot` | bot.dfy | the `NaiveBot` class |

How the source maps to Dafny:

- **Bet, BetFabric, Roll** are datatypes. `BetFabric` and `Roll` never change after construction. `Bet`'s single in-place update, the count bump in `plus_one_bluffer` (Base/SimpleHeuristics.py:47), is modelled by `PlusOneBluffer` returning the updated list.
  - Each Python constructor that validates becomes a function returning a `Result`: `NewBet`, `NewBetFabric`, `NewRoll`, `CheckGame`.
  - `BetFabric`'s two enumerations keep their nested loops as methods (`GetAllBets`, `GetNextPossibleBets`).
  - Each method is proved equal to a recursive function (`AllBets`, `NextBets`). The lemmas are about those functions.
- **DeterministicGame** is a class.
  - Its configuration, roll and fabric are constants.
  - `betsHistory` is the one field its methods update.
  - `EstimateConfidenceOfBet` only passes the game's roll and the other players' dice count to `Core.Confidence`, which carries the contract.
- **NaiveBot** is a class.
  - `threshold` and `p` are constants.
  - `blufNumber` is the one mutable field.
  - Each `random()` draw is a real parameter.
- **Numbers.** Confidences are exact reals and integers are unbounded. Python's ints are unbounded too, so no wrap-around is involved.
- **Crash paths are preconditions.** These are the places where the Python code would crash rather than raise one of its own exceptions:
  - `max` of an empty list;
  - reading `.number` of a `None` bet in the bot.

Quirks of the code that the model keeps:

- **Successors of a bet.** The first tier of `get_next_possible_bets` uses the largest count (`max_dices_count`), not the bet's own count (Base/Core.py:44).
  - So while `bet.dicesCount < maxDicesCount`, no "same count, higher face" raise is offered.
  - The tier-1 bets then also appear again in tier 2 (`NextBetsSkipSameCount`).
  - All successors carry player 0.
- **Confidence bounds.** The confidence is not bounded by 1. With 10 unknown dice and 6 faces, being one die short gives 10/6 (`ConfidenceExamples`).
- **Number of players.** The code accepts a game with one player. Only `dices_count_one_player * num_players > 0` is checked, through the fabric.
- **Validation in the confidence.** The confidence does no validation of its own.
- **"+1 bluff" mutates.** The bluff increments the `Bet` object in the caller's list instead of returning a copy.
- **Failed bluff.** When the reactive bluff finds no bet of its face, the code reads `.number` of `None`. That case is a precondition of `ReactToBet`.

## Model

| member | source | states |
|---|---|---|
| Core.NewBet | Base/Core.py:13-20 | a bet is built exactly when count > 0 and number > 0, with the given fields; otherwise the bet error |
| Core.NewBetFabric | Base/Core.py:30-36 | a fabric is built exactly when max_roll > 0 and max_dices > 0; otherwise the configuration error |
| Core.BetFabric.GetAllBets | Base/Core.py:50-55 | the nested loops return exactly `AllBets(player)` |
| Core.BetFabric.AllBetsExact | Base/Core.py:50-55 | `max_dices_count * max_roll` bets; a bet occurs exactly when it carries `player` and lies in 1..max_dices_count × 1..max_roll; strictly ascending by (count, face), hence pairwise distinct |
| Core.BetFabric.RowsShape | Base/Core.py:52-54 | the bets appended for counts lo+1..hi: (hi-lo)·max_roll of them, exactly the in-range bets of those counts, strictly ascending |
| Core.FaceRunShape | Base/Core.py:53-54 | the inner loop appends hi-lo bets of one count, faces lo+1..hi in order |
| Core.FaceRunMembers | Base/Core.py:53-54 | a bet is among them exactly when it has that count, a face in lo+1..hi and the player; strictly ascending |
| Core.BetFabric.GetNextPossibleBets | Base/Core.py:38-48 | fails with the bet error exactly when number > max_roll or count > max_dices_count; otherwise returns `NextBets(bet)` |
| Core.BetFabric.NextBetsShape | Base/Core.py:42-48 | (max_roll − number) + (max_dices_count − count)·max_roll successors; the first max_roll − number are count max_dices_count with faces number+1, number+2, …; a bet occurs exactly when it has player 0, is in bounds, and has a higher count, or the largest count and a higher face; after the first tier come exactly the rows for counts count+1..max_dices_count, strictly ascending by count and then face |
| Core.BetFabric.NextBetsExceed | Base/Core.py:42-48 | every successor is in bounds and strictly stronger than the bet (more dice, or as many dice of a higher face) |
| Core.BetFabric.NextBetsSkipSameCount | Base/Core.py:43-47 | below the largest count, no successor shares the bet's count, and every tier-1 successor occurs again in tier 2 |
| Core.AllFacesFold | Base/Core.py:65 | the `reduce` is true exactly when the accumulator is true and every die lies in 1..max_roll |
| Core.NewRoll | Base/Core.py:64-68 | a supplied list is accepted exactly when its length is dices_count and every value lies in 1..max_roll, and then kept unchanged; otherwise the dice error |
| Combinatorics.CombFactorial | Base/Core.py:112 | `Comb(n, k)·k!·(n−k)! = n!` for k ≤ n, the value `math.comb` is defined to return |
| Combinatorics.CombAboveIsZero | Base/Core.py:112 | `Comb(n, k) = 0` when k > n, as `math.comb` returns |
| Core.Confidence | Base/Core.py:100-112 | never negative; exactly 1 when the own dice of that face cover the count; 0 when the count exceeds own dice plus unknown dice; positive otherwise |
| Core.ConfidenceTimesPower | Base/Core.py:112 | when delta dice are missing, confidence · max_roll^delta = C(unknown dice, delta); so the confidence is C(n, delta)·(1/max_roll)^delta, the binomial point probability without its (1 − 1/max_roll)^(n − delta) factor, and not a probability |
| Core.ConfidenceExamples | Base/Core.py:105-112 | own roll [1,4,5,5,5]: "3 fives" gives 1; "4 fives" with 5 unknown dice gives 5/6; with 10 unknown dice it gives 10/6 |
| Core.CheckGame | Base/Core.py:88-96 | the game's checks succeed exactly when max_roll > 0, dices_count_one_player > 0, num_players > 0 and the supplied roll is valid; the fabric gets max_roll and dices_count_one_player·num_players; the error names the first check that failed |
| Core.NewGame | Base/Core.py:86-98 | fails with `CheckGame`'s error, or returns a fresh valid game with these parameters, this roll and an empty history |
| Core.DeterministicGame.constructor | Base/Core.py:86-98 | sets the configuration and the roll, a fabric for dices_count_one_player·num_players dice, and an empty history |
| Core.DeterministicGame.GetNewBetsWithConfidence | Base/Core.py:114-121 | candidates are all bets when the history is empty, else the successors of its last bet; the result is the stable descending sort of the candidates paired with their confidences: sorted non-increasing, a permutation, and the same order among equal confidences |
| Core.DeterministicGame.MakeBet | Base/Core.py:123-128 | the count error (history unchanged) when count > dices_count_one_player·num_players; else the face error (unchanged) when number > max_roll; else appends exactly `bet`, which becomes the bet whose successors are the next candidates |
| Sorting.Filter | Base/SimpleHeuristics.py:19 | keeps exactly the elements that satisfy the guard, and no others |
| Sorting.FilterCount | Base/SimpleHeuristics.py:19 | each element that satisfies the guard is kept as often as it occurs in the input; any other element occurs zero times |
| Sorting.FilterConcat | Base/SimpleHeuristics.py:19 | filtering a concatenation concatenates the filtered parts, so the kept elements keep their input order |
| Sorting.SortDesc | Base/Core.py:121 | the result is a permutation of the input |
| Sorting.SortDescSorted | Base/Core.py:121 | the result is sorted by non-increasing key |
| Sorting.SortDescStable | Base/SimpleHeuristics.py:20 | for every key value, the elements with that key appear in their input order (Python's sort is stable) |
| Sorting.FirstMaxIndex | Base/SimpleHeuristics.py:19-21 | the position of a kept element whose key is the largest among kept elements, and no earlier kept element has that key |
| Sorting.SortedFilterHead | Base/SimpleHeuristics.py:19-21 | the first element of the stably sorted guarded list is the element at `FirstMaxIndex` |
| SimpleHeuristics.MaxConfidence | Base/SimpleHeuristics.py:15 | the result is the confidence of some entry and at least every entry's confidence |
| SimpleHeuristics.MaxSizeIndex | Base/SimpleHeuristics.py:19-21 | an entry of maximal confidence; its count is the largest among maximal-confidence entries; every earlier entry of maximal confidence has a smaller count |
| SimpleHeuristics.MaxProbMaxSize | Base/SimpleHeuristics.py:9-21 | no bet exactly when the maximal confidence is 0; otherwise the bet of the entry at `MaxSizeIndex` |
| SimpleHeuristics.MinSizeIndex | Base/SimpleHeuristics.py:34-37 | an entry of maximal confidence; its count is the smallest among maximal-confidence entries; every earlier entry of maximal confidence has a larger count |
| SimpleHeuristics.MaxProbMinSize | Base/SimpleHeuristics.py:24-37 | no bet exactly when the maximal confidence is 0; otherwise the bet of the entry at `MinSizeIndex` |
| SimpleHeuristics.PlusOneBluffer | Base/SimpleHeuristics.py:39-48 | no bet exactly when `MaxProbMaxSize` gives none, with the list unchanged; otherwise its bet with count + 1 and the same face and player; in the caller's list only the entry at `MaxSizeIndex` changes, to the bumped bet with its old confidence |
| SimpleHeuristics.BluffIndex | Base/SimpleHeuristics.py:61-65 | an entry of the face; its confidence is the largest among entries of the face; every earlier entry of the face has a smaller confidence |
| SimpleHeuristics.Bluffer | Base/SimpleHeuristics.py:51-65 | no bet exactly when no face is given or no entry has that face; otherwise the bet of the entry at `BluffIndex` |
| SimpleHeuristics.ChoiceExample | Base/SimpleHeuristics.py:15-21 | on [(2×3, 0.4), (4×3, 0.4), (1×6, 0.9)] both selectors pick 1×6 and the "+1 bluff" gives 2×6 |
| Bot.NaiveBot.constructor | Base/NaiveBot.py:10-13 | no remembered bluff face; threshold and bluff probability as given (constants afterwards) |
| Bot.NaiveBot.MakeFirstTurn | Base/NaiveBot.py:15-24 | draw < p: the `PlusOneBluffer` result, with its face remembered; otherwise `MaxProbMaxSize` if coin < 0.5 else `MaxProbMinSize`, with the list and the remembered face unchanged |
| Bot.NaiveBot.ReactToBet | Base/NaiveBot.py:26-47 | no bet and no state change when the previous confidence is below the threshold; draw < p: `Bluffer` on the remembered face, else on the previous bet's face, and the new bet's face is remembered; otherwise `MaxProbMaxSize` if coin < 0.5 else `MaxProbMinSize`, with the state unchanged |

## Left out

- The interactive drivers under `__main__` are left out: console input and printing (Base/Core.py:132-139, Base/NaiveBot.py:50-77).
- The random roll in `Roll` is left out (Base/Core.py:69-74). The dice list is always supplied, so that branch's own positivity check is not modelled either.
- The bot's `random()` draws are parameters, `draw` and `coin`, so the bot is deterministic.
- Floating point is not modelled. Confidences and thresholds are exact reals, so rounding and float equality in `max_prob == 0` and `prob == max_prob` are exact comparisons here.
- `math.comb` is a library call. It is replaced by Pascal's rule, which `CombFactorial` ties to the factorial formula.
- The `__repr__` methods and the text of the exception messages are left out. Errors are cases of `Core.Error`.
- The Python default arguments are left out: every argument is passed explicitly (`Bet`'s count, number and player, `BetFabric`'s max_roll and max_dices, `DeterministicGame`'s four parameters, `get_all_bets`'s player, `bluffer`'s what_to_bluff). The two defaults the core relies on are kept: player 0 in `get_new_bets_with_confidence` and in the successor bets.
- `player` is an integer. The Python code allows any value there, and no logic reads it.
- Object identity of bets is not modelled beyond the candidate list. `PlusOneBluffer` returns the caller's list with the bumped entry. When the same `Bet` object sits somewhere else too, for example in a game's history, that other place is not updated in this model.
- The local `.sort` calls in the heuristics sort a fresh local list in place. They are modelled by the pure stable sort `SortDesc`, because no other code can see that list.
- Bot.NaiveBot.MakeFirstTurn: the Python annotation promises a `Bet`, but `max_prob_*` can return `None`. The model returns an `Option`.
