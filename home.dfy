/** The state the landing page's `Home` component keeps between renders and
    the click handlers that replace it. */
module Home {
  import opened Wrap
  import opened Testimonials
  import opened Variants
  import opened Carousel

  class HomeState {
    /** The carousel's unbounded step counter. */
    var rawIndex: int
    /** The step of the last carousel move; 0 before the first one. */
    var direction: int
    /** Whether the mobile navigation panel is open. */
    var menuOpen: bool

    /** A fresh page view: first testimonial, no direction, menu closed. */
    constructor ()
      ensures Page() == InitialPage
      ensures !menuOpen
    {
      rawIndex, direction, menuOpen := 0, 0, false;
    }

    /** The carousel part of the state as a value. */
    function Page(): (p: TestimonialPage)
      reads this
    {
      TestimonialPage(rawIndex, direction)
    }

    /** The index of the testimonial on screen; it is always a valid index
        into the testimonial sequence, however far the counter has drifted. */
    function ActiveIndex(): (i: nat)
      reads this
      ensures i < |TestimonialsData|
    {
      DisplayIndex(rawIndex, |TestimonialsData|)
    }

    /** The record on screen. */
    function ActiveTestimonial(): (t: Testimonial)
      reads this
      ensures t in TestimonialsData
    {
      TestimonialsData[ActiveIndex()]
    }

    /** The indicator row; exactly one dot is highlighted, the active one. */
    function ActiveDots(): (dots: seq<bool>)
      reads this
      ensures |dots| == |TestimonialsData|
      ensures CountActive(dots) == 1
      ensures forall i :: 0 <= i < |dots| ==> (dots[i] <==> i == ActiveIndex())
    {
      ExactlyOneDotActive(|TestimonialsData|, ActiveIndex());
      Dots(|TestimonialsData|, ActiveIndex())
    }

    /** The x-offset the enter variant gives for the recorded direction:
        where the next card to mount starts. Whether a card actually mounts
        (and so slides) is up to the animation layer. */
    function EnteringOffset(): (x: int)
      reads this
      ensures x > CenterOffset <==> direction > 0
    {
      EnterOffset(direction)
    }

    /** An arrow click: the counter moves by `step`, the direction becomes
        `step`, and the menu is untouched. */
    method Paginate(step: int)
      modifies this
      ensures Page() == Paginated(old(Page()), step)
      ensures menuOpen == old(menuOpen)
    {
      rawIndex, direction := rawIndex + step, step;
    }

    /** A dot click on `target`: the counter becomes `target`, so that
        testimonial is shown, and the direction says whether it lies after
        the one that was showing. The menu is untouched. */
    method JumpTo(target: int)
      requires 0 <= target < |TestimonialsData|
      modifies this
      ensures Page() == Jumped(old(Page()), target, |TestimonialsData|)
      ensures ActiveIndex() == target
      ensures direction == JumpDirection(target, old(ActiveIndex()))
      ensures menuOpen == old(menuOpen)
    {
      JumpShowsTarget(Page(), target, |TestimonialsData|);
      rawIndex, direction := target, JumpDirection(target, ActiveIndex());
    }

    /** The menu button (and every link in the mobile panel): flip the menu,
        leave the carousel alone. */
    method ToggleMenu()
      modifies this
      ensures menuOpen == !old(menuOpen)
      ensures Page() == old(Page())
    {
      menuOpen := !menuOpen;
    }
  }

  /** Three "next" clicks and then one "previous" from a fresh page: the
      index shown and the direction recorded before the first click and
      after each one. Index 0 is the record with id "t1". */
  method NextThreeThenPrevious() returns (shown: seq<nat>, directions: seq<int>)
    ensures shown == [0, 1, 2, 0, 2]
    ensures directions == [0, 1, 1, 1, -1]
  {
    TestimonialCount();
    var home := new HomeState();
    shown, directions := [home.ActiveIndex()], [home.direction];
    home.Paginate(1);
    assert home.rawIndex == 1;
    shown, directions := shown + [home.ActiveIndex()], directions + [home.direction];
    home.Paginate(1);
    assert home.rawIndex == 2;
    shown, directions := shown + [home.ActiveIndex()], directions + [home.direction];
    home.Paginate(1);
    assert home.rawIndex == 3;
    shown, directions := shown + [home.ActiveIndex()], directions + [home.direction];
    home.Paginate(-1);
    assert home.rawIndex == 2;
    shown, directions := shown + [home.ActiveIndex()], directions + [home.direction];
  }

  /** A fresh page shows the record with id "t1". */
  lemma InitialShowsFirst()
    ensures DisplayIndex(InitialPage.raw, |TestimonialsData|) == 0
    ensures TestimonialsData[DisplayIndex(InitialPage.raw, |TestimonialsData|)].id == "t1"
  {
    TestimonialsShape();
  }

  /** "Previous" on a fresh page wraps to the last testimonial with a
      negative counter. */
  method PreviousFromStart() returns (raw: int, active: nat, dir: int)
    ensures raw == -1 && active == 2 && dir == -1
  {
    TestimonialsShape();
    var home := new HomeState();
    home.Paginate(-1);
    raw, active, dir := home.rawIndex, home.ActiveIndex(), home.direction;
  }

  /** Dot clicks on a fresh page: the third dot moves forwards to t3 with the
      counter exactly 2; then the first dot moves back to t1. */
  method DotsFromStart() returns (raws: seq<int>, directions: seq<int>, shown: seq<string>)
    ensures raws == [2, 0] && directions == [1, -1] && shown == ["t3", "t1"]
  {
    TestimonialsShape();
    var home := new HomeState();
    home.JumpTo(2);
    raws, directions, shown := [home.rawIndex], [home.direction], [home.ActiveTestimonial().id];
    home.JumpTo(0);
    raws, directions, shown := raws + [home.rawIndex], directions + [home.direction],
                               shown + [home.ActiveTestimonial().id];
  }

  /** After three "next" clicks the counter is 3 and t1 is showing; clicking
      its own dot keeps t1 but resets the counter to 0 with direction -1. */
  method ActiveDotAfterLap() returns (rawBefore: int, rawAfter: int, dir: int, shown: string)
    ensures rawBefore == 3 && rawAfter == 0 && dir == -1 && shown == "t1"
  {
    TestimonialsShape();
    var home := new HomeState();
    home.Paginate(1);
    home.Paginate(1);
    home.Paginate(1);
    rawBefore := home.rawIndex;
    home.JumpTo(home.ActiveIndex());
    rawAfter, dir, shown := home.rawIndex, home.direction, home.ActiveTestimonial().id;
  }

  /** Toggling the menu twice on a fresh page opens then closes it and never
      moves the carousel. */
  method MenuTwice() returns (states: seq<bool>, page: TestimonialPage)
    ensures states == [false, true, false]
    ensures page == InitialPage
  {
    var home := new HomeState();
    states := [home.menuOpen];
    home.ToggleMenu();
    states := states + [home.menuOpen];
    home.ToggleMenu();
    states := states + [home.menuOpen];
    page := home.Page();
  }

  /** After any arrow or dot click the recorded direction is non-zero, so
      the exit variant's offset mirrors the enter variant's; direction 0 is
      only recorded before the first click. */
  lemma MovesMirrorOffsets(p: TestimonialPage, step: int, target: int)
    requires step == 1 || step == -1
    requires 0 <= target < |TestimonialsData|
    ensures ExitOffset(Paginated(p, step).direction) == -EnterOffset(Paginated(p, step).direction)
    ensures ExitOffset(Jumped(p, target, |TestimonialsData|).direction)
         == -EnterOffset(Jumped(p, target, |TestimonialsData|).direction)
    ensures EnterOffset(Paginated(p, step).direction) == step * SlideDistance
  {
    ExitMirrorsEnter(step);
    ExitMirrorsEnter(Jumped(p, target, |TestimonialsData|).direction);
  }
}
