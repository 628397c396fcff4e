/** The testimonial carousel's state and its transitions, as values. The page
    keeps the pair `[testimonialIndex, testimonialDirection]`; the class in
    module Home holds it in fields and its methods are specified by the
    functions here. */
module Carousel {
  import opened Wrap

  /** `raw` is the unbounded net number of steps (it may be negative or
      exceed the number of testimonials); `direction` is the step of the
      last move and only steers the slide animation. */
  datatype TestimonialPage = TestimonialPage(raw: int, direction: int)

  /** The state a page view starts in. */
  const InitialPage: TestimonialPage := TestimonialPage(0, 0)

  /** The previous/next arrows: move the counter by `step` and remember the
      step as the direction. No bounds are checked; wrapping happens when the
      index is read. */
  function Paginated(p: TestimonialPage, step: int): (q: TestimonialPage)
    ensures q.raw - p.raw == step
    ensures q.direction == step
  {
    TestimonialPage(p.raw + step, step)
  }

  /** The direction a dot click records: forwards only when the target lies
      after the active index. Clicking the active dot itself records -1. */
  function JumpDirection(target: int, active: int): (d: int)
    ensures d == 1 || d == -1
    ensures d == 1 <==> target > active
  {
    if target > active then 1 else -1
  }

  /** A dot click: the counter becomes the target itself, dropping any laps
      accumulated by the arrows. */
  function Jumped(p: TestimonialPage, target: int, n: int): (q: TestimonialPage)
    requires n >= 1
    ensures q.raw == target
    ensures q.direction != 0
  {
    TestimonialPage(target, JumpDirection(target, DisplayIndex(p.raw, n)))
  }

  /** `k` presses of the same arrow. */
  function PaginateTimes(p: TestimonialPage, step: int, k: nat): (q: TestimonialPage)
    decreases k
  {
    if k == 0 then p else Paginated(PaginateTimes(p, step, k - 1), step)
  }

  /** After `k` presses the counter has moved by `k` steps, and every press
      from the first on leaves the direction at `step`. */
  lemma {:induction false} PaginateTimesMoves(p: TestimonialPage, step: int, k: nat)
    ensures PaginateTimes(p, step, k).raw == p.raw + k * step
    ensures forall j :: 1 <= j <= k ==> PaginateTimes(p, step, j).direction == step
    ensures PaginateTimes(p, step, k).direction == if k == 0 then p.direction else step
  {
    if k > 0 {
      PaginateTimesMoves(p, step, k - 1);
    }
  }

  /** Pressing "next" n times, or "previous" n times, comes back round to
      the testimonial that was showing, with the arrow's direction. */
  lemma FullCycleReturns(p: TestimonialPage, step: int, n: int)
    requires n >= 1
    requires step == 1 || step == -1
    ensures DisplayIndex(PaginateTimes(p, step, n).raw, n) == DisplayIndex(p.raw, n)
    ensures PaginateTimes(p, step, n).direction == step
  {
    PaginateTimesMoves(p, step, n);
    DisplayIndexPeriodic(p.raw, n, step);
  }

  /** A step followed by the opposite step restores the counter, and hence
      the testimonial shown. */
  lemma StepThenBackRestores(p: TestimonialPage, step: int, n: int)
    requires n >= 1
    ensures Paginated(Paginated(p, step), -step).raw == p.raw
    ensures Paginated(Paginated(p, step), -step).direction == -step
    ensures DisplayIndex(Paginated(Paginated(p, step), -step).raw, n) == DisplayIndex(p.raw, n)
  {
  }

  /** Each arrow press moves the testimonial shown by one place, wrapping
      from the last to the first and from the first to the last. */
  lemma ArrowMovesOnePlace(p: TestimonialPage, n: int)
    requires n >= 1
    ensures DisplayIndex(Paginated(p, 1).raw, n)
         == if DisplayIndex(p.raw, n) == n - 1 then 0 else DisplayIndex(p.raw, n) + 1
    ensures DisplayIndex(Paginated(p, -1).raw, n)
         == if DisplayIndex(p.raw, n) == 0 then n - 1 else DisplayIndex(p.raw, n) - 1
  {
    var laps, r := p.raw / n, DisplayIndex(p.raw, n);
    assert p.raw == laps * n + r;
    if r == n - 1 {
      assert p.raw + 1 == (laps + 1) * n + 0;
      DisplayIndexUnique(p.raw + 1, n, laps + 1, 0);
    } else {
      DisplayIndexUnique(p.raw + 1, n, laps, r + 1);
    }
    if r == 0 {
      assert p.raw - 1 == (laps - 1) * n + (n - 1);
      DisplayIndexUnique(p.raw - 1, n, laps - 1, n - 1);
    } else {
      DisplayIndexUnique(p.raw - 1, n, laps, r - 1);
    }
  }

  /** A click on dot `target` shows exactly that testimonial, and records a
      forward move exactly when the target lies after the one showing. */
  lemma JumpShowsTarget(p: TestimonialPage, target: int, n: int)
    requires n >= 1 && 0 <= target < n
    ensures DisplayIndex(Jumped(p, target, n).raw, n) == target
    ensures Jumped(p, target, n).direction == 1 <==> target > DisplayIndex(p.raw, n)
    ensures Jumped(p, target, n).direction == -1 <==> target <= DisplayIndex(p.raw, n)
  {
    DisplayIndexInRange(target, n);
  }

  /** Clicking the dot that is already active keeps the same testimonial but
      records direction -1 and drops the laps the counter had drifted by. */
  lemma JumpToActiveDot(p: TestimonialPage, n: int)
    requires n >= 1
    ensures Jumped(p, DisplayIndex(p.raw, n), n).direction == -1
    ensures DisplayIndex(Jumped(p, DisplayIndex(p.raw, n), n).raw, n) == DisplayIndex(p.raw, n)
    ensures Jumped(p, DisplayIndex(p.raw, n), n).raw == p.raw <==> 0 <= p.raw < n
  {
    DisplayIndexInRange(DisplayIndex(p.raw, n), n);
  }

  /** The indicator dots, one per testimonial: dot `i` is highlighted when
      its index equals the active index. */
  function Dots(n: nat, active: int): (dots: seq<bool>)
    ensures |dots| == n
  {
    seq(n, i => i == active)
  }

  /** How many dots are highlighted. */
  function CountActive(dots: seq<bool>): (count: nat)
  {
    if dots == [] then 0
    else CountActive(dots[..|dots| - 1]) + (if dots[|dots| - 1] then 1 else 0)
  }

  /** No dot is highlighted for an index outside the row. */
  lemma {:induction false} NoDotActiveOutside(n: nat, active: int)
    requires !(0 <= active < n)
    ensures CountActive(Dots(n, active)) == 0
  {
    if n > 0 {
      assert Dots(n, active)[..n - 1] == Dots(n - 1, active);
      NoDotActiveOutside(n - 1, active);
    }
  }

  /** Exactly one dot is highlighted, and it is the one at the active index. */
  lemma {:induction false} ExactlyOneDotActive(n: nat, active: int)
    requires 0 <= active < n
    ensures CountActive(Dots(n, active)) == 1
    ensures forall i :: 0 <= i < n ==> (Dots(n, active)[i] <==> i == active)
  {
    assert Dots(n, active)[..n - 1] == Dots(n - 1, active);
    if active == n - 1 {
      NoDotActiveOutside(n - 1, active);
    } else {
      ExactlyOneDotActive(n - 1, active);
    }
  }
}
