/** The two races side by side: the same lane under the draws of either race's tick. */
module RaceComparison {
  import opened RaceTicks
  import Part1Race
  import RaceModel

  /** On the same draws a lane moves the same in both races, and a lane that falls in the
      graphical race falls in the terminal race too: the graphical race's fall threshold,
      0.01 times the confidence squared, is never above the terminal race's 0.1 times it. */
  lemma FallsLessOftenThanTerminalRace(r: Runner, length: int, draw: nat -> real, next: nat)
    ensures var here, there := LaneAfter(r, length, RaceModel.FallProbability, draw, next),
                               LaneAfter(r, length, Part1Race.FallProbability, draw, next);
      here.distance == there.distance && (here.fallen ==> there.fallen)
  {
    var c2 := r.confidence * r.confidence;
    assert c2 >= 0.0;
    assert RaceModel.FallProbability * r.confidence * r.confidence == RaceModel.FallProbability * c2;
    assert Part1Race.FallProbability * r.confidence * r.confidence == Part1Race.FallProbability * c2;
  }
}
