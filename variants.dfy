/** The horizontal offsets of the testimonial slide animation. Only the
    integer x-offset is modelled; opacity, z-order and timing are left to the
    animation engine. */
module Variants {

  /** How far off-centre a card starts or ends, in pixels. */
  const SlideDistance: int := 1000

  /** The x-offset of a card once it has settled. */
  const CenterOffset: int := 0

  /** Where an entering card starts: on the right for a positive direction,
      on the left otherwise (zero included). */
  function EnterOffset(direction: int): (x: int)
    ensures x == SlideDistance || x == -SlideDistance
    ensures x > CenterOffset <==> direction > 0
  {
    if direction > 0 then SlideDistance else -SlideDistance
  }

  /** Where a leaving card ends: on the right for a negative direction,
      on the left otherwise (zero included). */
  function ExitOffset(direction: int): (x: int)
    ensures x == SlideDistance || x == -SlideDistance
    ensures x > CenterOffset <==> direction < 0
  {
    if direction < 0 then SlideDistance else -SlideDistance
  }

  /** For every real move the leaving card goes out on the side opposite to
      the one the entering card comes in from, so both travel the same way. */
  lemma ExitMirrorsEnter(direction: int)
    requires direction != 0
    ensures ExitOffset(direction) == -EnterOffset(direction)
  {
  }

  /** With direction 0 (the state before any click) both offsets are on the
      left: the two cards would not mirror each other. */
  lemma ZeroDirectionOffsets()
    ensures EnterOffset(0) == -SlideDistance
    ensures ExitOffset(0) == -SlideDistance
    ensures ExitOffset(0) != -EnterOffset(0)
  {
  }

  /** The offsets depend on the direction's sign only. */
  lemma OffsetsDependOnSignOnly(d1: int, d2: int)
    requires (d1 > 0 && d2 > 0) || (d1 < 0 && d2 < 0) || (d1 == 0 && d2 == 0)
    ensures EnterOffset(d1) == EnterOffset(d2)
    ensures ExitOffset(d1) == ExitOffset(d2)
  {
  }
}
