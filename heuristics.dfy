/**
 * Choosing one bet from a list of (bet, confidence) pairs
 * (Base/SimpleHeuristics.py). Each Python function builds a local list
 * (a guarded comprehension, here Filter), sorts it in place with the stable
 * `list.sort` (here SortDesc; an ascending sort by count is the descending
 * sort by the negated count) and returns its first element. The *Index
 * functions say which entry of the input that first element is.
 */
module SimpleHeuristics {
  import opened Wrappers
  import opened Sorting
  import opened Core

  /** The largest confidence in the list; the list must not be empty. */
  function MaxConfidence(bets: seq<Scored>): (m: real)
    requires |bets| > 0
    ensures exists i :: 0 <= i < |bets| && bets[i].1 == m
    ensures forall i :: 0 <= i < |bets| ==> bets[i].1 <= m
  {
    if |bets| == 1 then bets[0].1
    else
      var rest := MaxConfidence(bets[1..]);
      if bets[0].1 >= rest then bets[0].1 else rest
  }

  function CountKey(p: Scored): real
  {
    p.0.dicesCount as real
  }

  function NegCountKey(p: Scored): real
  {
    (0 - p.0.dicesCount as int) as real
  }

  /** The guard of bluffer's comprehension: the bet claims face `what`. */
  function HasNumber(what: int): Scored -> bool
  {
    (p: Scored) => p.0.number == what
  }

  /** At least one entry has the largest confidence, so `max_bets` is never empty. */
  lemma MaxBetsNonEmpty(bets: seq<Scored>)
    requires |bets| > 0
    ensures Filter(bets, HasKey(ConfKey, MaxConfidence(bets))) != []
  {
    var i :| 0 <= i < |bets| && bets[i].1 == MaxConfidence(bets);
    assert HasKey(ConfKey, MaxConfidence(bets))(bets[i]);
  }

  /**
   * The entry max_prob_max_size picks: largest confidence, then largest
   * count, then earliest in the list.
   */
  function MaxSizeIndex(bets: seq<Scored>): (i: nat)
    requires |bets| > 0
    ensures i < |bets| && bets[i].1 == MaxConfidence(bets)
    ensures forall j :: 0 <= j < |bets| && bets[j].1 == MaxConfidence(bets) ==>
              bets[j].0.dicesCount <= bets[i].0.dicesCount
    ensures forall j :: 0 <= j < i && bets[j].1 == MaxConfidence(bets) ==>
              bets[j].0.dicesCount < bets[i].0.dicesCount
  {
    var m := MaxConfidence(bets);
    MaxBetsNonEmpty(bets);
    var i := FirstMaxIndex(bets, HasKey(ConfKey, m), CountKey);
    assert forall j :: 0 <= j < |bets| ==> (HasKey(ConfKey, m)(bets[j]) <==> bets[j].1 == m);
    i
  }

  /**
   * The entry max_prob_min_size picks: largest confidence, then smallest
   * count, then earliest in the list.
   */
  function MinSizeIndex(bets: seq<Scored>): (i: nat)
    requires |bets| > 0
    ensures i < |bets| && bets[i].1 == MaxConfidence(bets)
    ensures forall j :: 0 <= j < |bets| && bets[j].1 == MaxConfidence(bets) ==>
              bets[j].0.dicesCount >= bets[i].0.dicesCount
    ensures forall j :: 0 <= j < i && bets[j].1 == MaxConfidence(bets) ==>
              bets[j].0.dicesCount > bets[i].0.dicesCount
  {
    var m := MaxConfidence(bets);
    MaxBetsNonEmpty(bets);
    var i := FirstMaxIndex(bets, HasKey(ConfKey, m), NegCountKey);
    assert forall j :: 0 <= j < |bets| ==> (HasKey(ConfKey, m)(bets[j]) <==> bets[j].1 == m);
    i
  }

  /** max_prob_max_size: no bet when the best confidence is 0, else the bet at MaxSizeIndex. */
  function MaxProbMaxSize(bets: seq<Scored>): (r: Option<Bet>)
    requires |bets| > 0
    ensures r.None? <==> MaxConfidence(bets) == 0.0
    ensures r.Some? ==> r.value == bets[MaxSizeIndex(bets)].0
  {
    var maxProb := MaxConfidence(bets);
    if maxProb == 0.0 then None
    else
      var maxBets := Filter(bets, HasKey(ConfKey, maxProb));
      MaxBetsNonEmpty(bets);
      SortedFilterHead(bets, HasKey(ConfKey, maxProb), CountKey);
      Some(SortDesc(maxBets, CountKey)[0].0)
  }

  /** max_prob_min_size: no bet when the best confidence is 0, else the bet at MinSizeIndex. */
  function MaxProbMinSize(bets: seq<Scored>): (r: Option<Bet>)
    requires |bets| > 0
    ensures r.None? <==> MaxConfidence(bets) == 0.0
    ensures r.Some? ==> r.value == bets[MinSizeIndex(bets)].0
  {
    var maxProb := MaxConfidence(bets);
    if maxProb == 0.0 then None
    else
      var maxBets := Filter(bets, HasKey(ConfKey, maxProb));
      MaxBetsNonEmpty(bets);
      SortedFilterHead(bets, HasKey(ConfKey, maxProb), NegCountKey);
      Some(SortDesc(maxBets, NegCountKey)[0].0)
  }

  /**
   * plus_one_bluffer: max_prob_max_size's bet with one more die. The Python
   * code bumps the very Bet object that sits in the caller's list, so the
   * second component is the caller's list after the call: the entry at
   * MaxSizeIndex now holds the bumped bet, still paired with its old
   * confidence.
   */
  function PlusOneBluffer(bets: seq<Scored>): (r: (Option<Bet>, seq<Scored>))
    requires |bets| > 0
    ensures r.0.None? <==> MaxProbMaxSize(bets).None?
    ensures r.0.Some? ==>
              var b := MaxProbMaxSize(bets).value;
              r.0.value == Bet(b.dicesCount + 1, b.number, b.player)
    ensures |r.1| == |bets|
    ensures r.0.None? ==> r.1 == bets
    ensures r.0.Some? ==>
              var i := MaxSizeIndex(bets);
              && r.1[i] == (r.0.value, bets[i].1)
              && forall j :: 0 <= j < |bets| && j != i ==> r.1[j] == bets[j]
  {
    match MaxProbMaxSize(bets)
    case None => (None, bets)
    case Some(tmp) =>
      var i := MaxSizeIndex(bets);
      var bumped := tmp.(dicesCount := tmp.dicesCount + 1);
      (Some(bumped), bets[i := (bumped, bets[i].1)])
  }

  /**
   * The entry bluffer picks for face `what`: that face, the largest
   * confidence among bets of that face, then earliest in the list.
   */
  function BluffIndex(bets: seq<Scored>, what: int): (i: nat)
    requires exists j :: 0 <= j < |bets| && bets[j].0.number == what
    ensures i < |bets| && bets[i].0.number == what
    ensures forall j :: 0 <= j < |bets| && bets[j].0.number == what ==> bets[j].1 <= bets[i].1
    ensures forall j :: 0 <= j < i && bets[j].0.number == what ==> bets[j].1 < bets[i].1
  {
    assert Filter(bets, HasNumber(what)) != [] by {
      var j :| 0 <= j < |bets| && bets[j].0.number == what;
      assert HasNumber(what)(bets[j]);
    }
    FirstMaxIndex(bets, HasNumber(what), ConfKey)
  }

  /** bluffer: no bet without a face to bluff or without a bet of that face, else the bet at BluffIndex. */
  function Bluffer(bets: seq<Scored>, whatToBluff: Option<int>): (r: Option<Bet>)
    ensures r.None? <==>
              whatToBluff.None? || forall j :: 0 <= j < |bets| ==> bets[j].0.number != whatToBluff.value
    ensures r.Some? ==> r.value == bets[BluffIndex(bets, whatToBluff.value)].0
  {
    match whatToBluff
    case None => None
    case Some(what) =>
      var okBets := Filter(bets, HasNumber(what));
      if |okBets| == 0 then
        None
      else
        SortedFilterHead(bets, HasNumber(what), ConfKey);
        Some(SortDesc(okBets, ConfKey)[0].0)
  }

  /**
   * The pick of max_prob_max_size, and of plus_one_bluffer, on a small list:
   * the single most confident bet wins whatever its count.
   */
  lemma ChoiceExample()
    ensures var bets := [(Bet(2, 3, 0), 0.4), (Bet(4, 3, 0), 0.4), (Bet(1, 6, 0), 0.9)];
            && MaxProbMaxSize(bets) == Some(Bet(1, 6, 0))
            && MaxProbMinSize(bets) == Some(Bet(1, 6, 0))
            && PlusOneBluffer(bets).0 == Some(Bet(2, 6, 0))
  {
    var bets := [(Bet(2, 3, 0), 0.4), (Bet(4, 3, 0), 0.4), (Bet(1, 6, 0), 0.9)];
    assert MaxConfidence(bets) == 0.9;
  }
}
