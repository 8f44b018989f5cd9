/** A wager on one horse in one race (part2 models/Bet.java). The race, the horse and the
    stake are fixed when the bet is made; the outcome is written later. The bet's date
    and time come from the clock and are not part of this model. */
module BetModel {
  import HorseModel
  import BettingOdds

  class Bet {
    const raceId: string
    const horseName: string
    const horseSymbol: char
    const amount: real
    var won: bool
    var winnings: real

    /** A new bet records the horse's name and its symbol at the time of betting, and is
        not yet won, with no winnings. */
    constructor (raceId: string, horse: HorseModel.Horse, amount: real)
      ensures this.raceId == raceId && this.amount == amount
      ensures horseName == horse.name && horseSymbol == horse.symbol
      ensures !won && winnings == 0.0
    {
      this.raceId := raceId;
      this.horseName := horse.name;
      this.horseSymbol := horse.symbol;
      this.amount := amount;
      this.won := false;
      this.winnings := 0.0;
    }

    method SetWon(won: bool)
      modifies this
      ensures this.won == won && winnings == old(winnings)
    {
      this.won := won;
    }

    method SetWinnings(winnings: real)
      modifies this
      ensures this.winnings == winnings && won == old(won)
    {
      this.winnings := winnings;
    }

    /** calculatePotentialWinnings: the stake times the odds, the same amount the odds
        helper computes for this stake; odds of at least 1 pay back at least a
        non-negative stake, and odds above 1 more than a positive one. */
    function CalculatePotentialWinnings(odds: real): (w: real)
      ensures w == BettingOdds.CalculatePotentialWinnings(amount, odds)
      ensures amount >= 0.0 && odds >= 1.0 ==> w >= amount
      ensures amount > 0.0 && odds > 1.0 ==> w > amount
    {
      assert amount * odds - amount == amount * (odds - 1.0);
      amount * odds
    }
  }
}
