# Testimonial carousel of the gloria_web landing page

The landing page (`src/app/page.tsx`) is static markup and animation
configuration, except for one small state machine: the testimonial carousel
inside the `Home` component, plus the mobile-menu flag it keeps beside it.
This project models that state and its click handlers in Dafny and proves
what they guarantee.

- `Wrap` (wrap.dfy): the display index `raw % n` that turns the unbounded
  step counter into a testimonial position. It is proved to lie in range,
  to be periodic with period `n` in both directions, and to be the unique
  remainder. It also agrees with the animation library's documented wrap
  formula, `min + (((v - min) % range) + range) % range` with JavaScript's
  truncating `%`, for every counter value, negative ones included.
- `Testimonials` (testimonials.dfy): the three static records `t1`, `t2`, `t3`.
- `Variants` (variants.dfy): the x-offsets of the enter and exit slides,
  ±1000 chosen by the sign of the direction.
- `Carousel` (carousel.dfy): the state `[testimonialIndex,
  testimonialDirection]` as a value `TestimonialPage(raw, direction)`. Its
  two transitions are the arrow step (`Paginated`) and the dot jump
  (`Jumped`). It also holds the indicator dots and lemmas about repeated
  steps, full cycles, wrapping by one place and dot selection.
- `Home` (home.dfy): the class `HomeState`, with the fields the component
  updates (`rawIndex`, `direction`, `menuOpen`) and the methods `Paginate`,
  `JumpTo` and `ToggleMenu`. Each method is specified by the `Carousel`
  functions. Client methods replay the click sequences the page allows
  and state what is shown after each click.

The model follows the handlers as written:
- A dot click (`page.tsx:402`) records direction `index > active ? 1 : -1`.
  Clicking the dot that is already active therefore records −1, never 0.
  Jumping from index 0 to index 2 records +1: there is no
  "shorter way round" logic.
- An arrow click (`page.tsx:144`) stores the step itself as the direction,
  not its sign. The page only ever passes −1 and +1.
- A dot click needs no range check: the dots are generated from the
  testimonial list itself, so `JumpTo` requires `0 <= target < 3`. That is
  what every caller in the page satisfies.

The counter is a JavaScript number. It is modelled as an unbounded `int`,
because clicks cannot drive it anywhere near 2^53.

## Model

| member | source | states |
|---|---|---|
| `Wrap.DisplayIndex` | src/app/page.tsx:141 | the displayed index is in [0, n) for every integer counter and n ≥ 1, so indexing the testimonials is always in bounds |
| `Wrap.DisplayIndexInRange` | src/app/page.tsx:141 | a counter already in [0, n) is shown as itself |
| `Wrap.DisplayIndexShift` | src/app/page.tsx:141 | raw + n and raw − n show the same testimonial as raw |
| `Wrap.DisplayIndexPeriodic` | src/app/page.tsx:141 | any whole number of laps, positive or negative, shows the same testimonial |
| `Wrap.DisplayIndexUnique` | src/app/page.tsx:141 | if raw = laps·n + r with 0 ≤ r < n then r is what is shown |
| `Wrap.TruncatingRemainder` | src/app/page.tsx:141 | JavaScript's `%`: it lies strictly between −b and b, has the dividend's sign, and differs from the dividend by a multiple of b, which together fix it uniquely |
| `Wrap.LibraryWrap` | src/app/page.tsx:141 | the library wrap formula always lands in [min, max) |
| `Wrap.LibraryWrapIsDisplayIndex` | src/app/page.tsx:141 | `wrap(0, n, v)` equals the Euclidean `v % n` for every integer v |
| `Testimonials.TestimonialCount` | src/app/page.tsx:54-76 | there are exactly three testimonials |
| `Testimonials.TestimonialsShape` | src/app/page.tsx:54-76 | the records are t1, t2, t3 in that order, with distinct ids |
| `Variants.EnterOffset` | src/app/page.tsx:109-112 | the entering card starts 1000 px off-centre, on the right exactly when the direction is positive |
| `Variants.ExitOffset` | src/app/page.tsx:118-122 | the leaving card ends 1000 px off-centre, on the right exactly when the direction is negative |
| `Variants.ExitMirrorsEnter` | src/app/page.tsx:108-123 | for any non-zero direction the exit offset is the negation of the enter offset |
| `Variants.ZeroDirectionOffsets` | src/app/page.tsx:108-123 | for direction 0 both offsets are −1000, so they do not mirror |
| `Variants.OffsetsDependOnSignOnly` | src/app/page.tsx:108-123 | directions of the same sign give the same offsets |
| `Carousel.Paginated` | src/app/page.tsx:143-145 | an arrow step moves the counter by exactly the step and records the step as direction |
| `Carousel.JumpDirection` | src/app/page.tsx:402 | a dot click records +1 or −1, and +1 exactly when the target lies after the active index |
| `Carousel.Jumped` | src/app/page.tsx:402 | a dot click sets the counter to the target and never records direction 0 |
| `Carousel.PaginateTimesMoves` | src/app/page.tsx:143-145 | k presses of one arrow move the counter by k·step and leave the direction at step after every press |
| `Carousel.FullCycleReturns` | src/app/page.tsx:141-145 | n presses of "next", or n of "previous", return to the testimonial shown before, with that arrow's direction |
| `Carousel.StepThenBackRestores` | src/app/page.tsx:143-145 | a step followed by the opposite step restores the counter and the testimonial shown |
| `Carousel.ArrowMovesOnePlace` | src/app/page.tsx:141-145 | "next" shows the following testimonial, wrapping last to first; "previous" the preceding one, wrapping first to last |
| `Carousel.JumpShowsTarget` | src/app/page.tsx:402 | clicking dot i shows exactly i; the direction is +1 iff i is after the old active index, −1 iff it is not |
| `Carousel.JumpToActiveDot` | src/app/page.tsx:402 | clicking the active dot keeps the testimonial, records −1, and changes the counter exactly when it had drifted out of [0, n) |
| `Carousel.Dots` | src/app/page.tsx:399-406 | one dot per testimonial |
| `Carousel.NoDotActiveOutside` | src/app/page.tsx:403 | no dot is highlighted for an index outside the row |
| `Carousel.ExactlyOneDotActive` | src/app/page.tsx:399-406 | exactly one dot is highlighted, the one whose index equals the active index |
| `Home.HomeState.constructor` | src/app/page.tsx:138-139 | a page view starts at counter 0, direction 0, menu closed |
| `Home.HomeState.ActiveIndex` | src/app/page.tsx:141 | the active index is always a valid index into the testimonials |
| `Home.HomeState.ActiveTestimonial` | src/app/page.tsx:364-372 | the record rendered is one of the testimonials |
| `Home.HomeState.ActiveDots` | src/app/page.tsx:399-406 | the rendered dot row has one dot per testimonial and exactly one highlighted, the active one |
| `Home.HomeState.EnteringOffset` | src/app/page.tsx:349-354 | the enter variant's x-offset for the recorded direction, i.e. where the next card to mount starts, is on the right exactly when that direction is positive |
| `Home.HomeState.Paginate` | src/app/page.tsx:143-145 | new state is `Paginated` of the old one; the menu flag is unchanged |
| `Home.HomeState.JumpTo` | src/app/page.tsx:402 | new state is `Jumped` of the old one; the target is shown; direction is +1 iff the target is after the old active index; the menu flag is unchanged |
| `Home.HomeState.ToggleMenu` | src/app/page.tsx:147-149 | the menu flag is negated and the carousel state is unchanged |
| `Home.NextThreeThenPrevious` | src/app/page.tsx:378-389 | from a fresh page, three "next" clicks show 1, 2, 0 with direction +1, then "previous" shows 2 with −1 |
| `Home.InitialShowsFirst` | src/app/page.tsx:139-141 | a fresh page shows index 0, the record with id "t1" |
| `Home.PreviousFromStart` | src/app/page.tsx:378 | "previous" on a fresh page leaves counter −1, shows index 2 and records −1 |
| `Home.DotsFromStart` | src/app/page.tsx:402 | from a fresh page, dot 2 shows t3 with counter exactly 2 and direction +1; then dot 0 shows t1 with −1 |
| `Home.ActiveDotAfterLap` | src/app/page.tsx:402 | after three "next" clicks (counter 3, t1 shown) clicking t1's dot keeps t1, resets the counter to 0 and records −1 |
| `Home.MenuTwice` | src/app/page.tsx:147-149 | toggling twice opens then closes the menu and leaves the carousel at its initial state |
| `Home.MovesMirrorOffsets` | src/app/page.tsx:108-123 | after any arrow or dot click the recorded direction makes the exit variant's offset mirror the enter variant's; after an arrow step the enter offset is step·1000 |

## Left out

- JSX markup, CSS classes, icons, the hero video, `Image`/`Link` and the `mailto:` link: presentation only.
- The animation engine: springs, durations, easing, opacity, scale, z-order, stagger delays and viewport triggers. These are floating-point timing inside a library. Only the integer x-offset choice is modelled.
- The dot scale animation (1.25 for the active dot, 1 otherwise) uses the same comparison as the highlight. It is covered by `ActiveDots`, not modelled separately.
- `AnimatePresence` keying on `testimonialIndex` and React re-rendering: framework behaviour. `JumpToActiveDot` and `ActiveDotAfterLap` state the counter change that such keying would react to, not the animation itself.
- Whether a card actually slides in is decided by the animation layer, not
  by the recorded direction. On a fresh page `initial={false}` means the
  first card does not slide, although `EnteringOffset` gives −1000 for
  direction 0. A dot click on the active dot while the counter is already in
  [0, 3) leaves the card's key unchanged, so nothing mounts or slides, yet
  the recorded direction becomes −1. `EnteringOffset` and
  `MovesMirrorOffsets` speak of the variants' offsets for the recorded
  direction only.
- `getGravatarUrl` returns a fixed URL that ignores the email. Its only logic is number-to-string formatting of the size, so it is not modelled.
- `new Date().getFullYear()`: reads the clock.
- The static `navLinks`, `servicesData` and `motionProps` configuration, and `src/app/layout.tsx`: no behaviour.
- Everything else in `Home` that calls `toggleMobileMenu` (the menu button and every link in the mobile panel) goes through `ToggleMenu`. Which element the click came from is not modelled.
