/**
 * The naive bot (Base/NaiveBot.py): a bluff probability, a threshold below
 * which it challenges the previous bet, and the face it is currently
 * bluffing on. Each `random()` the Python code draws is a parameter here:
 * `draw` decides between bluffing and playing straight, `coin` between the
 * largest and the smallest count.
 */
module Bot {
  import opened Wrappers
  import opened Core
  import opened SimpleHeuristics

  class NaiveBot {
    var blufNumber: Option<int>
    const threshold: real
    const p: real

    constructor (threshold: real, bluffP: real)
      ensures blufNumber == None
      ensures this.threshold == threshold && p == bluffP
    {
      blufNumber := None;
      this.threshold := threshold;
      p := bluffP;
    }

    /** The face ReactToBet bluffs on: the remembered one, else the previous bet's face. */
    function BluffTarget(prevBet: Scored): Option<int>
      reads this
    {
      if blufNumber.None? then Some(prevBet.0.number) else blufNumber
    }

    /**
     * MakeFirstTurn: with draw < p the "+1 bluff", whose face is remembered
     * (it must exist, the Python code reads its face); otherwise coin decides
     * between the largest and the smallest count. `after` is the caller's
     * list after the call: plus_one_bluffer bumps one of its bets in place.
     */
    method MakeFirstTurn(possibleBets: seq<Scored>, draw: real, coin: real)
      returns (bet: Option<Bet>, after: seq<Scored>)
      requires |possibleBets| > 0
      requires draw < p ==> MaxConfidence(possibleBets) != 0.0
      modifies this
      ensures draw < p ==>
                && (bet, after) == PlusOneBluffer(possibleBets)
                && bet.Some? && blufNumber == Some(bet.value.number)
      ensures draw >= p ==>
                && bet == (if coin < 0.5 then MaxProbMaxSize(possibleBets) else MaxProbMinSize(possibleBets))
                && after == possibleBets && blufNumber == old(blufNumber)
    {
      if draw < p {
        var r := PlusOneBluffer(possibleBets);
        bet, after := r.0, r.1;
        blufNumber := Some(bet.value.number);
      } else {
        after := possibleBets;
        if coin < 0.5 {
          bet := MaxProbMaxSize(possibleBets);
        } else {
          bet := MaxProbMinSize(possibleBets);
        }
      }
    }

    /**
     * ReactToBet: challenge (no bet) when the previous bet's confidence is
     * below the threshold; otherwise with draw < p bluff on BluffTarget and
     * remember the face (a bet of that face must exist, the Python code reads
     * its face), else coin decides between the largest and the smallest count.
     */
    method ReactToBet(prevBet: Scored, possibleBets: seq<Scored>, draw: real, coin: real)
      returns (bet: Option<Bet>)
      requires prevBet.1 >= threshold && draw < p ==> Bluffer(possibleBets, BluffTarget(prevBet)).Some?
      requires prevBet.1 >= threshold && draw >= p ==> |possibleBets| > 0
      modifies this
      ensures prevBet.1 < threshold ==> bet.None? && blufNumber == old(blufNumber)
      ensures prevBet.1 >= threshold && draw < p ==>
                && bet == Bluffer(possibleBets, old(BluffTarget(prevBet)))
                && bet.Some? && blufNumber == Some(bet.value.number)
      ensures prevBet.1 >= threshold && draw >= p ==>
                && bet == (if coin < 0.5 then MaxProbMaxSize(possibleBets) else MaxProbMinSize(possibleBets))
                && blufNumber == old(blufNumber)
    {
      if prevBet.1 < threshold {
        return None;
      }
      if draw < p {
        if blufNumber.None? {
          bet := Bluffer(possibleBets, Some(prevBet.0.number));
        } else {
          bet := Bluffer(possibleBets, blufNumber);
        }
        blufNumber := Some(bet.value.number);
      } else {
        if coin < 0.5 {
          bet := MaxProbMaxSize(possibleBets);
        } else {
          bet := MaxProbMinSize(possibleBets);
        }
      }
    }
  }
}
