/** The in-memory betting ledger (part2 models/BetManager.java): every bet in a list, and
    the same bets grouped by race id in a map, kept in step as bets are placed, loaded and
    settled. Saving to and loading from the bets and transactions files are not part of
    this model: what a save returned is an input, and the loaded bets are a parameter. */
module BetManagerModel {
  import opened Common
  import opened BetModel
  import HorseModel
  import BettingOdds

  /** The bets placed on one race, in ledger order. */
  function BetsFor(bets: seq<Bet>, raceId: string): seq<Bet> {
    if bets == [] then []
    else
      var last := bets[|bets| - 1];
      BetsFor(bets[..|bets| - 1], raceId) + (if last.raceId == raceId then [last] else [])
  }

  /** A race's bets are exactly the ledger's bets carrying its id, so there are none for a
      race nobody bet on. */
  lemma {:induction false} BetsForMembers(bets: seq<Bet>, raceId: string)
    ensures |BetsFor(bets, raceId)| <= |bets|
    ensures (forall k :: 0 <= k < |bets| ==> bets[k].raceId != raceId) ==> BetsFor(bets, raceId) == []
    ensures forall b :: b in BetsFor(bets, raceId) <==> b in bets && b.raceId == raceId
  {
    if bets != [] {
      var init := bets[..|bets| - 1];
      BetsForMembers(init, raceId);
      assert bets == init + [bets[|bets| - 1]];
    }
  }

  lemma BetsForSnoc(bets: seq<Bet>, b: Bet, raceId: string)
    ensures BetsFor(bets + [b], raceId) == BetsFor(bets, raceId) + (if b.raceId == raceId then [b] else [])
  {
    assert (bets + [b])[..|bets|] == bets;
  }

  /** The race's list in the map, or an empty list for a race the map does not hold. */
  function RaceList(raceBets: map<string, seq<Bet>>, raceId: string): seq<Bet> {
    if raceId in raceBets then raceBets[raceId] else []
  }

  /** The list for a race is that race's bets in ledger order, and the map holds no list
      for a race without bets. */
  ghost predicate Grouped(bets: seq<Bet>, raceBets: map<string, seq<Bet>>) {
    forall raceId ::
      && RaceList(raceBets, raceId) == BetsFor(bets, raceId)
      && (raceId in raceBets ==> RaceList(raceBets, raceId) != [])
  }

  /** In a grouped map the keys are exactly the race ids some bet carries. */
  lemma GroupedKeys(bets: seq<Bet>, raceBets: map<string, seq<Bet>>, raceId: string)
    requires Grouped(bets, raceBets)
    ensures raceId in raceBets <==> exists k :: 0 <= k < |bets| && bets[k].raceId == raceId
  {
    BetsForMembers(bets, raceId);
    if k :| 0 <= k < |bets| && bets[k].raceId == raceId {
      assert bets[k] in BetsFor(bets, raceId);
    }
  }

  /** `computeIfAbsent(raceId, k -> new ArrayList<>()).add(bet)`. */
  function AddToRace(raceBets: map<string, seq<Bet>>, bet: Bet): (m: map<string, seq<Bet>>)
    ensures bet.raceId in m
    ensures m[bet.raceId] == (if bet.raceId in raceBets then raceBets[bet.raceId] else []) + [bet]
    ensures forall id :: id != bet.raceId ==> (id in m <==> id in raceBets)
    ensures forall id :: id != bet.raceId && id in m ==> m[id] == raceBets[id]
  {
    raceBets[bet.raceId := (if bet.raceId in raceBets then raceBets[bet.raceId] else []) + [bet]]
  }

  /** After AddToRace the bet's race list has gained the bet at its end and every other
      race's list is as it was. */
  lemma RaceListAfterAdd(raceBets: map<string, seq<Bet>>, bet: Bet)
    ensures forall id :: RaceList(AddToRace(raceBets, bet), id) ==
                         RaceList(raceBets, id) + (if id == bet.raceId then [bet] else [])
  {
  }

  /** Adding a bet to both the list and its race's list keeps them grouped. */
  lemma {:induction false} AddKeepsGrouped(bets: seq<Bet>, raceBets: map<string, seq<Bet>>, bet: Bet)
    requires Grouped(bets, raceBets)
    ensures Grouped(bets + [bet], AddToRace(raceBets, bet))
  {
    var m := AddToRace(raceBets, bet);
    RaceListAfterAdd(raceBets, bet);
    forall raceId
      ensures RaceList(m, raceId) == BetsFor(bets + [bet], raceId)
      ensures raceId in m ==> RaceList(m, raceId) != []
    {
      BetsForSnoc(bets, bet, raceId);
    }
  }

  /** The total stake in a list of bets (the stream sum of getAmount). */
  function SumAmounts(bets: seq<Bet>): real {
    if bets == [] then 0.0 else SumAmounts(bets[..|bets| - 1]) + bets[|bets| - 1].amount
  }

  lemma SumAmountsSnoc(bets: seq<Bet>, b: Bet)
    ensures SumAmounts(bets + [b]) == SumAmounts(bets) + b.amount
  {
    assert (bets + [b])[..|bets|] == bets;
  }

  /** With no negative stakes, a total is never negative and never below any one stake. */
  lemma {:induction false} SumAmountsBounds(bets: seq<Bet>)
    requires forall k :: 0 <= k < |bets| ==> bets[k].amount >= 0.0
    ensures SumAmounts(bets) >= 0.0
    ensures forall k :: 0 <= k < |bets| ==> SumAmounts(bets) >= bets[k].amount
  {
    if bets != [] {
      var init := bets[..|bets| - 1];
      SumAmountsBounds(init);
      assert forall k :: 0 <= k < |init| ==> init[k] == bets[k];
    }
  }

  /** The bet was on this horse: same name and same symbol. */
  predicate OnHorse(b: Bet, name: string, symbol: char) {
    b.horseName == name && b.horseSymbol == symbol
  }

  /** The winning bets are exactly the bets of the list on the winner's name and symbol. */
  lemma {:induction false} WinningBetsMembers(bets: seq<Bet>, name: string, symbol: char)
    ensures |WinningBets(bets, name, symbol)| <= |bets|
    ensures forall b :: b in WinningBets(bets, name, symbol) <==> b in bets && OnHorse(b, name, symbol)
  {
    if bets != [] {
      var init := bets[..|bets| - 1];
      WinningBetsMembers(init, name, symbol);
      assert bets == init + [bets[|bets| - 1]];
    }
  }

  lemma WinningBetsSnoc(bets: seq<Bet>, b: Bet, name: string, symbol: char)
    ensures WinningBets(bets + [b], name, symbol)
         == WinningBets(bets, name, symbol) + (if OnHorse(b, name, symbol) then [b] else [])
  {
    assert (bets + [b])[..|bets|] == bets;
  }

  /** The settlement loop of processRaceResults over one race's bets: each bet on the
      named horse becomes won with winnings of stake times odds, and its winnings are paid
      out (one WIN transaction each, in list order); no other bet changes. */
  method SettleBets(list: seq<Bet>, name: string, symbol: char, odds: real) returns (payouts: seq<real>)
    modifies set b | b in list
    ensures forall k :: 0 <= k < |list| && OnHorse(list[k], name, symbol) ==>
      list[k].won && list[k].winnings == list[k].CalculatePotentialWinnings(odds)
    ensures forall k :: 0 <= k < |list| && !OnHorse(list[k], name, symbol) ==>
      list[k].won == old(list[k].won) && list[k].winnings == old(list[k].winnings)
    ensures |payouts| == |WinningBets(list, name, symbol)|
    ensures forall k :: 0 <= k < |payouts| ==> payouts[k] == WinningBets(list, name, symbol)[k].CalculatePotentialWinnings(odds)
  {
    payouts := [];
    var i := 0;
    while i < |list|
      invariant 0 <= i <= |list|
      invariant forall k :: 0 <= k < i && OnHorse(list[k], name, symbol) ==>
        list[k].won && list[k].winnings == list[k].CalculatePotentialWinnings(odds)
      invariant forall k :: 0 <= k < |list| && !OnHorse(list[k], name, symbol) ==>
        list[k].won == old(list[k].won) && list[k].winnings == old(list[k].winnings)
      invariant |payouts| == |WinningBets(list[..i], name, symbol)|
      invariant forall k :: 0 <= k < |payouts| ==> payouts[k] == WinningBets(list[..i], name, symbol)[k].CalculatePotentialWinnings(odds)
    {
      var bet := list[i];
      assert list[..i + 1] == list[..i] + [bet];
      WinningBetsSnoc(list[..i], bet, name, symbol);
      if bet.horseName == name && bet.horseSymbol == symbol {
        var winnings := bet.CalculatePotentialWinnings(odds);
        bet.SetWon(true);
        bet.SetWinnings(winnings);
        payouts := payouts + [winnings];
      }
      i := i + 1;
    }
    assert list[..i] == list;
  }

  /** The bets of a list that were on the given horse, in order. */
  function WinningBets(bets: seq<Bet>, name: string, symbol: char): seq<Bet> {
    if bets == [] then []
    else
      var last := bets[|bets| - 1];
      WinningBets(bets[..|bets| - 1], name, symbol) + (if OnHorse(last, name, symbol) then [last] else [])
  }

  class BetManager {
    var bets: seq<Bet>
    var raceBets: map<string, seq<Bet>>

    ghost predicate Valid()
      reads this
    {
      Grouped(bets, raceBets)
    }

    /** A manager over the bets loaded from the bets file. */
    constructor (loaded: seq<Bet>)
      ensures bets == loaded && Valid()
    {
      bets := [];
      raceBets := map[];
      new;
      LoadBets(loaded);
    }

    /** loadBets: take the loaded bets and rebuild the race map from scratch, one bet at a
        time, so each bet lands in its own race's list, in load order. */
    method LoadBets(loaded: seq<Bet>)
      modifies this
      ensures bets == loaded && Valid()
    {
      var grouped: map<string, seq<Bet>> := map[];
      for i := 0 to |loaded|
        invariant Grouped(loaded[..i], grouped)
      {
        AddKeepsGrouped(loaded[..i], grouped, loaded[i]);
        SliceSnoc(loaded, 0, i);
        grouped := AddToRace(grouped, loaded[i]);
      }
      assert loaded[..|loaded|] == loaded;
      bets, raceBets := loaded, grouped;
    }

    /** getRaceBets: the race's list, or an empty list for a race nobody bet on. */
    function GetRaceBets(raceId: string): (r: seq<Bet>)
      reads this
      ensures Valid() ==> r == BetsFor(bets, raceId)
      ensures raceId !in raceBets ==> r == []
    {
      RaceList(raceBets, raceId)
    }

    /** getTotalRaceBets: the sum of the stakes on the race, 0 for a race nobody bet on. */
    function GetTotalRaceBets(raceId: string): (total: real)
      reads this
      ensures Valid() ==> total == SumAmounts(BetsFor(bets, raceId))
      ensures raceId !in raceBets ==> total == 0.0
    {
      SumAmounts(GetRaceBets(raceId))
    }

    /** Each bet of the ledger is in its own race's list and in no other. */
    lemma EachBetInItsRaceList()
      requires Valid()
      ensures forall b, raceId :: b in bets ==> (b in GetRaceBets(raceId) <==> b.raceId == raceId)
    {
      forall raceId ensures forall b :: b in bets ==> (b in GetRaceBets(raceId) <==> b.raceId == raceId) {
        BetsForMembers(bets, raceId);
      }
    }

    /** placeBet. The bet is recorded in memory whatever the saves return; the result only
        says whether saving the bets and then the transaction both succeeded. The race's
        list gains the bet at its end and the race's total grows by the stake. */
    method PlaceBet(raceId: string, horse: HorseModel.Horse, amount: real,
                    betsSaved: bool, transactionSaved: bool) returns (ok: bool, bet: Bet)
      requires Valid()
      modifies this
      ensures fresh(bet) && bet.raceId == raceId && bet.amount == amount
      ensures bet.horseName == horse.name && bet.horseSymbol == horse.symbol
      ensures !bet.won && bet.winnings == 0.0
      ensures bets == old(bets) + [bet] && Valid()
      ensures GetRaceBets(raceId) == old(GetRaceBets(raceId)) + [bet]
      ensures forall id :: id != raceId ==> GetRaceBets(id) == old(GetRaceBets(id))
      ensures GetTotalRaceBets(raceId) == old(GetTotalRaceBets(raceId)) + amount
      ensures ok == (betsSaved && transactionSaved)
    {
      bet := new Bet(raceId, horse, amount);
      ghost var before := RaceList(raceBets, raceId);
      AddKeepsGrouped(bets, raceBets, bet);
      RaceListAfterAdd(raceBets, bet);
      SumAmountsSnoc(before, bet);
      bets, raceBets := bets + [bet], AddToRace(raceBets, bet);
      ok := betsSaved && transactionSaved;
    }

    /** processRaceResults. A race without bets is left alone. Otherwise the winner is the
        first horse of the finish order, the odds are the number of lanes, and exactly the
        race's bets on a horse with the winner's name and symbol become won, with winnings
        of stake times odds; every other bet is untouched. The result lists the winnings
        paid, one per winning bet in list order (the WIN transactions). */
    method ProcessRaceResults(raceId: string, finishOrder: seq<HorseModel.Horse>, laneCount: int)
      returns (payouts: seq<real>)
      requires Valid()
      requires GetRaceBets(raceId) != [] ==> finishOrder != []
      modifies set b | b in GetRaceBets(raceId)
      ensures GetRaceBets(raceId) == [] ==> payouts == []
      ensures GetRaceBets(raceId) != [] ==>
        var odds := laneCount as real;
        var name, symbol := finishOrder[0].name, finishOrder[0].symbol;
        var list := GetRaceBets(raceId);
        && (forall k :: 0 <= k < |list| && OnHorse(list[k], name, symbol) ==>
              list[k].won && list[k].winnings == list[k].CalculatePotentialWinnings(odds))
        && (forall k :: 0 <= k < |list| && !OnHorse(list[k], name, symbol) ==>
              list[k].won == old(list[k].won) && list[k].winnings == old(list[k].winnings))
        && |payouts| == |WinningBets(GetRaceBets(raceId), name, symbol)|
        && (forall k :: 0 <= k < |payouts| ==>
              payouts[k] == WinningBets(GetRaceBets(raceId), name, symbol)[k].CalculatePotentialWinnings(odds))
    {
      var list := GetRaceBets(raceId);
      payouts := [];
      if list == [] {
        return;
      }
      var winner := finishOrder[0];
      payouts := SettleBets(list, winner.name, winner.symbol, laneCount as real);
    }
  }
}
