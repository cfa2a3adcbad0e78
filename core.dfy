/**
 * Bets, the bet space of one game configuration, a player's own roll, the
 * confidence of a bet and the per-player game view with its bet history
 * (Base/Core.py).
 */
module Core {
  import opened Wrappers
  import opened Combinatorics
  import opened Sorting

  type Positive = x: int | x > 0 witness 1

  /** The exceptions Base/Core.py raises, one per kind of check (their messages are not modelled). */
  datatype Error =
    | NonPositiveBet     // Bet.__init__
    | NonPositiveConfig  // BetFabric.__init__ and DeterministicGame.__init__
    | WrongDices         // Roll.__init__ with a supplied list
    | InvalidBet         // BetFabric.get_next_possible_bets
    | TooManyDices       // DeterministicGame.make_bet, count check
    | TooBigRoll         // DeterministicGame.make_bet, face check

  /** "At least dicesCount dice show number", claimed by player. */
  datatype Bet = Bet(dicesCount: Positive, number: Positive, player: int)

  /** Bet(count, number, player): only positive count and number are accepted. */
  function NewBet(count: int, number: int, player: int): (r: Result<Bet, Error>)
    ensures r.Success? <==> count > 0 && number > 0
    ensures r.Success? ==> r.value.dicesCount == count && r.value.number == number && r.value.player == player
    ensures r.Failure? ==> r.error == NonPositiveBet
  {
    if count > 0 && number > 0 then Success(Bet(count, number, player)) else Failure(NonPositiveBet)
  }

  /** x is strictly stronger than y: more dice, or as many dice showing a higher face. */
  predicate Exceeds(x: Bet, y: Bet)
  {
    x.dicesCount > y.dicesCount || (x.dicesCount == y.dicesCount && x.number > y.number)
  }

  /** Each bet is strictly stronger than every bet before it. */
  ghost predicate StrictlyAscending(s: seq<Bet>)
  {
    forall i, j :: 0 <= i < j < |s| ==> Exceeds(s[j], s[i])
  }

  /** The bets of one count whose faces run from lo + 1 to hi, as one inner loop appends them. */
  function FaceRun(cnt: Positive, lo: nat, hi: int, player: int): seq<Bet>
    decreases hi - lo
  {
    if hi <= lo then [] else FaceRun(cnt, lo, hi - 1, player) + [Bet(cnt, hi, player)]
  }

  lemma {:induction false} FaceRunShape(cnt: Positive, lo: nat, hi: int, player: int)
    requires lo <= hi
    ensures |FaceRun(cnt, lo, hi, player)| == hi - lo
    ensures forall i :: 0 <= i < hi - lo ==> FaceRun(cnt, lo, hi, player)[i] == Bet(cnt, lo + i + 1, player)
    decreases hi - lo
  {
    if hi > lo {
      FaceRunShape(cnt, lo, hi - 1, player);
    }
  }

  lemma FaceRunMembers(cnt: Positive, lo: nat, hi: int, player: int)
    requires lo <= hi
    ensures forall x :: x in FaceRun(cnt, lo, hi, player) <==>
                        x.dicesCount == cnt && lo < x.number <= hi && x.player == player
    ensures StrictlyAscending(FaceRun(cnt, lo, hi, player))
  {
    FaceRunShape(cnt, lo, hi, player);
    var r := FaceRun(cnt, lo, hi, player);
    forall x: Bet | x.dicesCount == cnt && lo < x.number <= hi && x.player == player
      ensures x in r
    {
      assert r[x.number - lo - 1] == x;
    }
  }

  /** The bet space of a game with faces 1..maxRoll and at most maxDicesCount dice in a bet. */
  datatype BetFabric = BetFabric(maxRoll: Positive, maxDicesCount: Positive) {

    /** The check get_next_possible_bets makes before it enumerates. */
    predicate Admits(bet: Bet)
    {
      bet.number <= maxRoll && bet.dicesCount <= maxDicesCount
    }

    /** Every face of every count lo + 1 .. hi, count-major, as the nested loops append them. */
    function Rows(lo: nat, hi: int, player: int): seq<Bet>
      decreases hi - lo
    {
      if hi <= lo then [] else Rows(lo, hi - 1, player) + FaceRun(hi, 0, maxRoll, player)
    }

    /** What get_all_bets returns. */
    function AllBets(player: int): seq<Bet>
    {
      Rows(0, maxDicesCount, player)
    }

    /**
     * What get_next_possible_bets returns: first the faces above bet.number
     * with count maxDicesCount (not bet.dicesCount), then every bet of a higher
     * count; all with player 0.
     */
    function NextBets(bet: Bet): seq<Bet>
      requires Admits(bet)
    {
      FaceRun(maxDicesCount, bet.number, maxRoll, 0) + Rows(bet.dicesCount, maxDicesCount, 0)
    }

    lemma {:induction false} RowsShape(lo: nat, hi: int, player: int)
      requires lo <= hi
      ensures |Rows(lo, hi, player)| == (hi - lo) * maxRoll
      ensures forall x :: x in Rows(lo, hi, player) <==>
                          x.player == player && lo < x.dicesCount <= hi && x.number <= maxRoll
      ensures StrictlyAscending(Rows(lo, hi, player))
      decreases hi - lo
    {
      if hi > lo {
        RowsShape(lo, hi - 1, player);
        FaceRunShape(hi, 0, maxRoll, player);
        FaceRunMembers(hi, 0, maxRoll, player);
        var a, b := Rows(lo, hi - 1, player), FaceRun(hi, 0, maxRoll, player);
        assert Rows(lo, hi, player) == a + b;
        assert (hi - 1 - lo) * maxRoll + maxRoll == (hi - lo) * maxRoll;
        forall i, j | 0 <= i < j < |a + b| ensures Exceeds((a + b)[j], (a + b)[i]) {
          if j < |a| {
          } else if i < |a| {
            assert (a + b)[i] in a;
            assert (a + b)[j] in b;
          } else {
            assert (a + b)[i] == b[i - |a|] && (a + b)[j] == b[j - |a|];
          }
        }
      }
    }

    /** get_all_bets enumerates the whole bet space, in strength order, once each. */
    lemma AllBetsExact(player: int)
      ensures |AllBets(player)| == maxDicesCount * maxRoll
      ensures forall x :: x in AllBets(player) <==> x.player == player && Admits(x)
      ensures StrictlyAscending(AllBets(player))
      ensures forall i, j :: 0 <= i < j < |AllBets(player)| ==> AllBets(player)[i] != AllBets(player)[j]
    {
      RowsShape(0, maxDicesCount, player);
    }

    /**
     * The successors as the code computes them: their number, the first tier
     * (count maxDicesCount, faces above bet.number) and exactly which bets
     * occur among them.
     */
    lemma NextBetsShape(bet: Bet)
      requires Admits(bet)
      ensures |NextBets(bet)| == (maxRoll - bet.number) + (maxDicesCount - bet.dicesCount) * maxRoll
      ensures forall i :: 0 <= i < maxRoll - bet.number ==>
                NextBets(bet)[i] == Bet(maxDicesCount, bet.number + 1 + i, 0)
      ensures forall x :: x in NextBets(bet) <==>
                && x.player == 0 && Admits(x)
                && (x.dicesCount > bet.dicesCount || (x.dicesCount == maxDicesCount && x.number > bet.number))
      ensures NextBets(bet)[maxRoll - bet.number..] == Rows(bet.dicesCount, maxDicesCount, 0)
      ensures StrictlyAscending(NextBets(bet)[maxRoll - bet.number..])
    {
      FaceRunShape(maxDicesCount, bet.number, maxRoll, 0);
      FaceRunMembers(maxDicesCount, bet.number, maxRoll, 0);
      RowsShape(bet.dicesCount, maxDicesCount, 0);
      assert NextBets(bet)[maxRoll - bet.number..] == Rows(bet.dicesCount, maxDicesCount, 0);
    }

    /** Every successor is within the bounds and strictly stronger than the bet it follows. */
    lemma NextBetsExceed(bet: Bet)
      requires Admits(bet)
      ensures forall x :: x in NextBets(bet) ==> Admits(x) && Exceeds(x, bet)
    {
      NextBetsShape(bet);
    }

    /**
     * Below the largest count no "same count, higher face" raise is offered,
     * and every tier-1 successor is offered again in tier 2.
     */
    lemma NextBetsSkipSameCount(bet: Bet)
      requires Admits(bet) && bet.dicesCount < maxDicesCount
      ensures |NextBets(bet)| > maxRoll - bet.number
      ensures forall x :: x in NextBets(bet) ==> x.dicesCount != bet.dicesCount
      ensures forall i :: 0 <= i < maxRoll - bet.number ==>
                NextBets(bet)[i] in NextBets(bet)[maxRoll - bet.number..]
    {
      NextBetsShape(bet);
      FaceRunShape(maxDicesCount, bet.number, maxRoll, 0);
      RowsShape(bet.dicesCount, maxDicesCount, 0);
      var tier2 := Rows(bet.dicesCount, maxDicesCount, 0);
      assert NextBets(bet)[maxRoll - bet.number..] == tier2;
    }

    /** get_all_bets: the nested loops over count and face. */
    method GetAllBets(player: int) returns (res: seq<Bet>)
      ensures res == AllBets(player)
    {
      res := [];
      var cnt := 1;
      while cnt <= maxDicesCount
        invariant 1 <= cnt <= maxDicesCount + 1
        invariant res == Rows(0, cnt - 1, player)
      {
        var dice := 1;
        while dice <= maxRoll
          invariant 1 <= dice <= maxRoll + 1
          invariant res == Rows(0, cnt - 1, player) + FaceRun(cnt, 0, dice - 1, player)
        {
          res := res + [Bet(cnt, dice, player)];
          dice := dice + 1;
        }
        cnt := cnt + 1;
      }
    }

    /** get_next_possible_bets: the bounds check, then the two tiers of loops. */
    method GetNextPossibleBets(bet: Bet) returns (r: Result<seq<Bet>, Error>)
      ensures r.Failure? <==> bet.number > maxRoll || bet.dicesCount > maxDicesCount
      ensures r.Failure? ==> r.error == InvalidBet
      ensures r.Success? ==> r.value == NextBets(bet)
    {
      if bet.number > maxRoll || bet.dicesCount > maxDicesCount {
        return Failure(InvalidBet);
      }
      var res := [];
      var num := bet.number + 1;
      while num <= maxRoll
        invariant bet.number + 1 <= num <= maxRoll + 1
        invariant res == FaceRun(maxDicesCount, bet.number, num - 1, 0)
      {
        res := res + [Bet(maxDicesCount, num, 0)];
        num := num + 1;
      }
      var tier1 := res;
      var cnt := bet.dicesCount + 1;
      while cnt <= maxDicesCount
        invariant bet.dicesCount + 1 <= cnt <= maxDicesCount + 1
        invariant res == tier1 + Rows(bet.dicesCount, cnt - 1, 0)
      {
        var dice := 1;
        while dice <= maxRoll
          invariant 1 <= dice <= maxRoll + 1
          invariant res == tier1 + Rows(bet.dicesCount, cnt - 1, 0) + FaceRun(cnt, 0, dice - 1, 0)
        {
          res := res + [Bet(cnt, dice, 0)];
          dice := dice + 1;
        }
        cnt := cnt + 1;
      }
      return Success(res);
    }
  }

  /** BetFabric(max_roll, max_dices): only a positive configuration is accepted. */
  function NewBetFabric(maxRoll: int, maxDices: int): (r: Result<BetFabric, Error>)
    ensures r.Success? <==> maxRoll > 0 && maxDices > 0
    ensures r.Success? ==> r.value.maxRoll == maxRoll && r.value.maxDicesCount == maxDices
    ensures r.Failure? ==> r.error == NonPositiveConfig
  {
    if maxRoll > 0 && maxDices > 0 then Success(BetFabric(maxRoll, maxDices)) else Failure(NonPositiveConfig)
  }

  /** One player's own dice. */
  datatype Roll = Roll(dices: seq<int>)

  /** The `reduce` of Roll.__init__: a left fold of "still valid and this die is in 1..maxRoll". */
  function AllFacesFold(acc: bool, dices: seq<int>, maxRoll: int): (r: bool)
    ensures r <==> acc && forall i :: 0 <= i < |dices| ==> 0 < dices[i] <= maxRoll
  {
    if dices == [] then acc else AllFacesFold(acc && 0 < dices[0] <= maxRoll, dices[1..], maxRoll)
  }

  /** Roll(dices_count, max_roll, dices_list) with a supplied list. */
  function NewRoll(dicesCount: int, maxRoll: int, dices: seq<int>): (r: Result<Roll, Error>)
    ensures r.Success? <==> |dices| == dicesCount && forall i :: 0 <= i < |dices| ==> 0 < dices[i] <= maxRoll
    ensures r.Success? ==> r.value.dices == dices
    ensures r.Failure? ==> r.error == WrongDices
  {
    if AllFacesFold(true, dices, maxRoll) && |dices| == dicesCount then Success(Roll(dices)) else Failure(WrongDices)
  }

  /**
   * estimate_confidence_of_bet, for own dice `dices`, `unknownDice` dice of the
   * other players and faces 1..maxRoll: 1 when the own dice already cover the
   * bet, otherwise C(n, delta) * (1/maxRoll)^delta for n = unknownDice and
   * delta missing dice: the binomial point probability without its
   * (1 - 1/maxRoll)^(n - delta) factor, so not a probability (it can exceed 1).
   */
  function Confidence(dices: seq<int>, unknownDice: nat, maxRoll: Positive, bet: Bet): (r: real)
    ensures r >= 0.0
    ensures multiset(dices)[bet.number] >= bet.dicesCount ==> r == 1.0
    ensures bet.dicesCount > multiset(dices)[bet.number] + unknownDice ==> r == 0.0
    ensures bet.dicesCount <= multiset(dices)[bet.number] + unknownDice ==> r > 0.0
  {
    var delta := bet.dicesCount - multiset(dices)[bet.number];
    if delta <= 0 then 1.0
    else
      assert delta > unknownDice ==> Comb(unknownDice, delta) == 0 by {
        if delta > unknownDice { CombAboveIsZero(unknownDice, delta); }
      }
      assert delta <= unknownDice ==> Comb(unknownDice, delta) >= 1 by {
        if delta <= unknownDice { CombWithinIsPositive(unknownDice, delta); }
      }
      (Comb(unknownDice, delta) as real) * Pow(1.0 / (maxRoll as real), delta)
  }

  /**
   * When the own dice fall short by delta <= unknownDice, the confidence
   * times maxRoll^delta is C(unknownDice, delta): with CombFactorial, the
   * confidence is n! / (delta! (n - delta)!) / maxRoll^delta for n = unknownDice.
   */
  lemma ConfidenceTimesPower(dices: seq<int>, unknownDice: nat, maxRoll: Positive, bet: Bet)
    requires multiset(dices)[bet.number] < bet.dicesCount
    ensures var delta := bet.dicesCount - multiset(dices)[bet.number];
            Confidence(dices, unknownDice, maxRoll, bet) * Pow(maxRoll as real, delta)
            == Comb(unknownDice, delta) as real
  {
    var delta := bet.dicesCount - multiset(dices)[bet.number];
    assert Confidence(dices, unknownDice, maxRoll, bet)
        == (Comb(unknownDice, delta) as real) * Pow(1.0 / (maxRoll as real), delta);
    UndoReciprocalPower(Comb(unknownDice, delta) as real, maxRoll as real, delta);
  }

  /**
   * Own roll [1, 4, 5, 5, 5] with six faces: three 5's cover "3 fives"; one 5
   * short with 5 unknown dice gives 5/6; with 10 unknown dice (three players)
   * it gives 10/6, so a confidence can exceed 1.
   */
  lemma ConfidenceExamples()
    ensures Confidence([1, 4, 5, 5, 5], 5, 6, Bet(3, 5, 0)) == 1.0
    ensures Confidence([1, 4, 5, 5, 5], 5, 6, Bet(4, 5, 0)) == 5.0 / 6.0
    ensures Confidence([1, 4, 5, 5, 5], 10, 6, Bet(4, 5, 0)) == 10.0 / 6.0
  {
    var d := [1, 4, 5, 5, 5];
    assert d == [1] + [4] + [5] + [5] + [5];
    assert multiset(d)[5] == 3;
    CombOne(5);
    CombOne(10);
    assert Pow(1.0 / 6.0, 1) == 1.0 / 6.0;
  }

  /** A candidate bet paired with its confidence. */
  type Scored = (Bet, real)

  function ConfKey(p: Scored): real
  {
    p.1
  }

  /**
   * The checks of DeterministicGame.__init__ in their order: positive faces
   * and dice per player, the supplied roll, then a positive total dice count
   * for the fabric (so a positive number of players).
   */
  function CheckGame(dicesCountOnePlayer: int, maxRoll: int, numPlayers: int, dices: seq<int>)
    : (r: Result<(Roll, BetFabric), Error>)
    ensures r.Success? <==>
              && maxRoll > 0 && dicesCountOnePlayer > 0 && numPlayers > 0
              && |dices| == dicesCountOnePlayer
              && forall i :: 0 <= i < |dices| ==> 0 < dices[i] <= maxRoll
    ensures r.Success? ==>
              && r.value.0.dices == dices
              && r.value.1.maxRoll == maxRoll
              && r.value.1.maxDicesCount == dicesCountOnePlayer * numPlayers
    ensures r.Failure? ==>
              r.error == if maxRoll > 0 && dicesCountOnePlayer > 0 && NewRoll(dicesCountOnePlayer, maxRoll, dices).Failure?
                         then WrongDices else NonPositiveConfig
  {
    if !(maxRoll > 0 && dicesCountOnePlayer > 0) then Failure(NonPositiveConfig)
    else
      match NewRoll(dicesCountOnePlayer, maxRoll, dices)
      case Failure(e) => Failure(e)
      case Success(roll) =>
        assert dicesCountOnePlayer * numPlayers > 0 <==> numPlayers > 0 by {
          if numPlayers <= 0 { assert dicesCountOnePlayer * numPlayers <= 0; }
        }
        match NewBetFabric(maxRoll, dicesCountOnePlayer * numPlayers)
        case Failure(e) => Failure(e)
        case Success(fabric) => Success((roll, fabric))
  }

  /** One game seen by one player: the configuration and own roll are fixed, the bet history grows. */
  class DeterministicGame {
    const maxRoll: Positive
    const dicesCountOnePlayer: Positive
    const numPlayers: Positive
    const roll: Roll
    const betFabric: BetFabric
    var betsHistory: seq<Bet>

    ghost predicate Valid()
      reads this
    {
      && betFabric == BetFabric(maxRoll, dicesCountOnePlayer * numPlayers)
      && |roll.dices| == dicesCountOnePlayer
      && (forall i :: 0 <= i < |roll.dices| ==> 0 < roll.dices[i] <= maxRoll)
      && (forall i :: 0 <= i < |betsHistory| ==> betFabric.Admits(betsHistory[i]))
    }

    constructor (dicesCountOnePlayer: int, maxRoll: int, numPlayers: int, dices: seq<int>)
      requires CheckGame(dicesCountOnePlayer, maxRoll, numPlayers, dices).Success?
      ensures Valid()
      ensures this.dicesCountOnePlayer == dicesCountOnePlayer && this.maxRoll == maxRoll
      ensures this.numPlayers == numPlayers && roll.dices == dices
      ensures betsHistory == []
    {
      this.maxRoll := maxRoll;
      this.dicesCountOnePlayer := dicesCountOnePlayer;
      this.numPlayers := numPlayers;
      roll := Roll(dices);
      betFabric := BetFabric(maxRoll, dicesCountOnePlayer * numPlayers);
      betsHistory := [];
    }

    /** estimate_confidence_of_bet for this player's roll and the other players' dice. */
    function EstimateConfidenceOfBet(bet: Bet): real
    {
      assert dicesCountOnePlayer * (numPlayers - 1) >= 0;
      Confidence(roll.dices, dicesCountOnePlayer * (numPlayers - 1), maxRoll, bet)
    }

    /** Each bet paired with its confidence, in the bets' order (the zip of bets and confidences). */
    function WithConfidence(bets: seq<Bet>): seq<Scored>
    {
      seq(|bets|, i requires 0 <= i < |bets| => (bets[i], EstimateConfidenceOfBet(bets[i])))
    }

    /** The candidates: every bet while the history is empty, else the successors of its last bet. */
    function Candidates(): seq<Bet>
      reads this
      requires Valid()
    {
      if |betsHistory| == 0 then betFabric.AllBets(0)
      else betFabric.NextBets(betsHistory[|betsHistory| - 1])
    }

    /** get_new_bets_with_confidence: the candidates with their confidences, highest first. */
    method GetNewBetsWithConfidence() returns (ranked: seq<Scored>)
      requires Valid()
      ensures ranked == SortDesc(WithConfidence(Candidates()), ConfKey)
      ensures SortedDesc(ranked, ConfKey)
      ensures multiset(ranked) == multiset(WithConfidence(Candidates()))
      ensures forall c :: WithKey(ranked, ConfKey, c) == WithKey(WithConfidence(Candidates()), ConfKey, c)
    {
      var bets: seq<Bet>;
      if |betsHistory| == 0 {
        bets := betFabric.GetAllBets(0);
      } else {
        var next := betFabric.GetNextPossibleBets(betsHistory[|betsHistory| - 1]);
        bets := next.value;
      }
      var confidences := seq(|bets|, i requires 0 <= i < |bets| => EstimateConfidenceOfBet(bets[i]));
      var pairs := seq(|bets|, i requires 0 <= i < |bets| => (bets[i], confidences[i]));
      assert pairs == WithConfidence(Candidates());
      ranked := SortDesc(pairs, ConfKey);
      SortDescSorted(pairs, ConfKey);
      forall c ensures WithKey(ranked, ConfKey, c) == WithKey(pairs, ConfKey, c) {
        SortDescStable(pairs, ConfKey, c);
      }
    }

    /** make_bet: reject a bet beyond the dice in play or the faces, otherwise append it. */
    method MakeBet(bet: Bet) returns (r: Result<(), Error>)
      requires Valid()
      modifies this`betsHistory
      ensures Valid()
      ensures bet.dicesCount > dicesCountOnePlayer * numPlayers ==>
                r == Failure(TooManyDices) && betsHistory == old(betsHistory)
      ensures bet.dicesCount <= dicesCountOnePlayer * numPlayers && bet.number > maxRoll ==>
                r == Failure(TooBigRoll) && betsHistory == old(betsHistory)
      ensures r.Success? <==> betFabric.Admits(bet)
      ensures r.Success? ==> betsHistory == old(betsHistory) + [bet]
      ensures r.Success? ==> Candidates() == betFabric.NextBets(bet)
    {
      if bet.dicesCount > dicesCountOnePlayer * numPlayers {
        return Failure(TooManyDices);
      }
      if bet.number > maxRoll {
        return Failure(TooBigRoll);
      }
      betsHistory := betsHistory + [bet];
      return Success(());
    }
  }

  /** DeterministicGame(dices_count_one_player, max_roll, num_players, dices_list) with a supplied roll. */
  method NewGame(dicesCountOnePlayer: int, maxRoll: int, numPlayers: int, dices: seq<int>)
    returns (r: Result<DeterministicGame, Error>)
    ensures r.Failure? <==> CheckGame(dicesCountOnePlayer, maxRoll, numPlayers, dices).Failure?
    ensures r.Failure? ==> r.error == CheckGame(dicesCountOnePlayer, maxRoll, numPlayers, dices).error
    ensures r.Success? ==>
              && fresh(r.value) && r.value.Valid() && r.value.betsHistory == []
              && r.value.dicesCountOnePlayer == dicesCountOnePlayer && r.value.maxRoll == maxRoll
              && r.value.numPlayers == numPlayers && r.value.roll.dices == dices
  {
    var check := CheckGame(dicesCountOnePlayer, maxRoll, numPlayers, dices);
    if check.Failure? {
      return Failure(check.error);
    }
    var game := new DeterministicGame(dicesCountOnePlayer, maxRoll, numPlayers, dices);
    return Success(game);
  }
}
