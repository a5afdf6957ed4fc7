/** The pad colour palette. Channels are on the portal's own 0..100
    intensity scale, not the usual 0..255. */
module Colors {

  datatype Color = Color(r: int, g: int, b: int)

  /** Every channel lies on the device's 0..100 scale. */
  predicate OnDeviceScale(c: Color) {
    0 <= c.r <= 100 && 0 <= c.g <= 100 && 0 <= c.b <= 100
  }

  const OFF: Color := Color(0, 0, 0)
  const RED: Color := Color(100, 0, 0)
  const GREEN: Color := Color(0, 100, 0)
  const BLUE: Color := Color(0, 0, 100)
  const PINK: Color := Color(100, 75, 79)
  const ORANGE: Color := Color(100, 64, 0)
  const YELLOW: Color := Color(100, 100, 0)
  const PURPLE: Color := Color(100, 0, 100)
  const LBLUE: Color := Color(100, 100, 100)
  const OLIVE: Color := Color(50, 50, 0)
  const DIM: Color := Color(20, 20, 20)

  /** The colours a random pick is drawn from; OFF and DIM are not among them. */
  const PALETTE: seq<Color> := [RED, GREEN, BLUE, PINK, ORANGE, PURPLE, LBLUE, OLIVE, YELLOW]

  /** Every named constant, for stating facts about all of them at once. */
  const ALL_CONSTANTS: seq<Color> := [OFF, RED, GREEN, BLUE, PINK, ORANGE, YELLOW, PURPLE, LBLUE, OLIVE, DIM]

  /** `random.choice(COLORS)`; the random index is a parameter. */
  function RandomColor(pick: nat): (c: Color)
    requires pick < |PALETTE|
    ensures c in PALETTE
    ensures OnDeviceScale(c)
  {
    PALETTE[pick]
  }

  lemma ConstantsOnDeviceScale()
    ensures forall c :: c in ALL_CONSTANTS ==> OnDeviceScale(c)
    ensures DIM == Color(20, 20, 20) && OFF == Color(0, 0, 0) && RED == Color(100, 0, 0)
  {
  }

  lemma PaletteShape()
    ensures |PALETTE| == 9
    ensures OFF !in PALETTE && DIM !in PALETTE
    ensures forall c :: c in PALETTE ==> c in ALL_CONSTANTS
  {
  }
}
