/** The horse of the terminal race (part1/Horse.java): a name, a symbol, the distance
    travelled, a confidence value and a fallen flag. */
module Part1Horse {

  class Horse {
    const name: string
    var symbol: char
    var distance: nat
    var confidence: real
    var fallen: bool

    /** A new horse is at the start and standing; its confidence is the argument if that
        lies in [0, 1], otherwise the field default 0.0 (so 1.5 and -0.5 both give 0.0). */
    constructor (symbol: char, name: string, confidence: real)
      ensures this.symbol == symbol && this.name == name
      ensures distance == 0 && !fallen
      ensures this.confidence == if 0.0 <= confidence <= 1.0 then confidence else 0.0
    {
      this.name := name;
      this.symbol := symbol;
      this.distance := 0;
      this.fallen := false;
      // the field initialiser, then setConfidence
      this.confidence := 0.0;
      if 0.0 <= confidence <= 1.0 {
        this.confidence := confidence;
      }
    }

    /** Accepts only a value in [0, 1]; anything else leaves the old value. */
    method SetConfidence(newConfidence: real)
      modifies this
      ensures confidence == if 0.0 <= newConfidence <= 1.0 then newConfidence else old(confidence)
      ensures symbol == old(symbol) && distance == old(distance) && fallen == old(fallen)
    {
      if 0.0 <= newConfidence && newConfidence <= 1.0 {
        confidence := newConfidence;
      }
    }

    /** Changes the symbol only; the name is final. */
    method SetSymbol(newSymbol: char)
      modifies this
      ensures symbol == newSymbol
      ensures confidence == old(confidence) && distance == old(distance) && fallen == old(fallen)
    {
      symbol := newSymbol;
    }

    /** One step forward, unless the horse has fallen. */
    method MoveForward()
      modifies this
      ensures distance == if old(fallen) then old(distance) else old(distance) + 1
      ensures symbol == old(symbol) && confidence == old(confidence) && fallen == old(fallen)
    {
      if !fallen {
        distance := distance + 1;
      }
    }

    /** Latches the fall; nothing in the class resets it. */
    method Fall()
      modifies this
      ensures fallen
      ensures symbol == old(symbol) && confidence == old(confidence) && distance == old(distance)
    {
      fallen := true;
    }

    /** Back to distance 0; nothing else changes. */
    method GoBackToStart()
      modifies this
      ensures distance == 0
      ensures symbol == old(symbol) && confidence == old(confidence) && fallen == old(fallen)
    {
      distance := 0;
    }
  }
}
