# Portfolio page: counter, contact form and navigation bar

This project models the three pieces of sequential logic in a single-page
animated portfolio site, and proves properties of them in Dafny. Everything
else on the page is markup and animation.

- **The statistics counter** (`AnimatedCounter` in the statistics section).
  With exact arithmetic, once the section is visible an interval fires 60
  times over 2000 ms.
  Each firing adds `value / 60` to an accumulator. While the accumulator is
  below the value, the display shows its floor. The firing that reaches the
  value shows exactly the value and clears the interval. The model is the
  class `StatisticsSection.AnimatedCounter`: each firing is an explicit
  `OnInterval` event, and the prop change that makes the section visible is
  a `SetVisible` event. The class is proved against the pure functions
  `Tick`, `Ticks` and `Launch`. The lemmas about those functions give the
  properties, with exact arithmetic: exactly 60 firings for a positive value and one for zero or a
  negative value, exact landing on the value, floor display below the value
  before that, bounds, monotonicity, and no change after the interval is
  cleared. The effect does not reset the displayed count when it restarts.
  The model keeps that: `Launch` leaves `count` alone.
- **The skill graph** in the same section. It has eight nodes and twelve
  connections, given as index pairs. A connection line is highlighted when
  the hovered node is one of its ends.
- **The contact form** (class `FooterSection.Footer`). It holds three text
  fields and two independent flags, `isSubmitting` and `isSubmitted`. They
  are not one phase value, so both can be true at once, and the model keeps
  them apart. The awaited 1500 ms delay and the 5000 ms reset timeout are
  explicit events. They can fire only while one is pending, so the state
  counts pending delays and pending resets. The browser dispatches a submit
  only while the button is enabled and every `required` field is non-empty.
  That gate is `SubmitAllowed`, and runs that respect it are `Gated`.
- **The navigation bar** (class `NavigationSection.Navigation`). It has a
  flag for "scrolled past 100 px" and a mobile-menu flag. The document is a
  set of element ids. `querySelector("#id")` looks the id up in that set. A
  smooth scroll to a section is an entry appended to the `scrolledTo` log.

Each class method says in its `ensures` that the new state is the pure
`Apply`/`Tick` function of the old state, with two exceptions.
`AnimatedCounter.SetVisible` states its new state through `Launch` and one
`ensures` per case. `AnimatedCounter.Unmount` states only that the interval
is cleared, and its frame keeps every other field. The trace lemmas about those
functions carry the properties.

## Model

| member | source | states |
|---|---|---|
| `StatisticsSection.AccumulatedClosedForm` | app/src/sections/Statistics.tsx:128-132 | after k firings the accumulator holds exactly `k * value / 60` |
| `StatisticsSection.AccumulatedMonotone` | app/src/sections/Statistics.tsx:128-132 | for a non-negative value the accumulator starts at 0 and never decreases |
| `StatisticsSection.AccumulatedAdditive` | app/src/sections/Statistics.tsx:128-132 | adding the increment a times and then b times gives the same accumulator as adding it a + b times |
| `StatisticsSection.AccumulatedReachesValueAtLastStep` | app/src/sections/Statistics.tsx:126-133 | for a positive value the accumulator equals the value at firing 60 and is below it at every firing from 1 to 59 |
| `StatisticsSection.FinalTick` | app/src/sections/Statistics.tsx:131-135 | the interval is cleared on the first firing whose accumulator reaches the value; that is firing 60 for a positive value and firing 1 for zero or a negative value |
| `StatisticsSection.TicksAfterLaunch` | app/src/sections/Statistics.tsx:129-138 | before the final firing the interval is armed, and from the first firing until the final one the display is `floor(current)` (before any firing it is the kept display); from the final firing on it is cleared and the display is exactly `value` |
| `StatisticsSection.ClearedIntervalIsInert` | app/src/sections/Statistics.tsx:133-135 | once the interval is cleared, no later firing changes the counter |
| `StatisticsSection.LandsExactlyOnValue` | app/src/sections/Statistics.tsx:133-135 | the interval is armed after k firings exactly when k is before the final firing; from then on the display equals the value and never changes again |
| `StatisticsSection.NonFinalTickShowsFloor` | app/src/sections/Statistics.tsx:136-137 | every non-final firing displays `floor(current)`, which is at most `current` and below the value; for a whole-number value it is at most the value minus 1 |
| `StatisticsSection.DisplayWithinBounds` | app/src/sections/Statistics.tsx:128-137 | for a non-negative value every display from the first firing on lies between 0 and the value |
| `StatisticsSection.DisplayNonDecreasing` | app/src/sections/Statistics.tsx:128-137 | for a non-negative value the displayed counts never decrease, starting from the initial 0 on mount |
| `StatisticsSection.AnimatedCounter.constructor` | app/src/sections/Statistics.tsx:121-124 | on mount the count is 0, and the interval is armed only if the section is already visible |
| `StatisticsSection.AnimatedCounter.SetVisible` | app/src/sections/Statistics.tsx:123-142 | a changed `isVisible` re-runs the effect: the cleanup clears the old interval, and a visible section gets a fresh accumulator and a new interval; the display is kept |
| `StatisticsSection.AnimatedCounter.OnInterval` | app/src/sections/Statistics.tsx:131-139 | one firing adds `value / 60` to `current`, then shows `value` and clears the interval, or shows `floor(current)`; a cleared interval does nothing; for a non-negative value the display never goes down and never passes the value, except on the first firing after a relaunch from a non-zero display, where it can drop because the relaunch keeps the old display but restarts the accumulator at 0 |
| `StatisticsSection.AnimatedCounter.Unmount` | app/src/sections/Statistics.tsx:141 | the effect cleanup clears the interval |
| `StatisticsSection.StatCountersLandOnTheirValues` | app/src/sections/Statistics.tsx:9-38 | with exact arithmetic, each of the four stat cards counts for exactly 60 firings, shows its value at the last one and is below it at the one before |
| `StatisticsSection.ConnectionEndpointsInRange` | app/src/sections/Statistics.tsx:41-55 | both ends of every connection are valid indices into the eight skill nodes |
| `StatisticsSection.ConnectionLines` | app/src/sections/Statistics.tsx:352-375 | one line is drawn per connection |
| `StatisticsSection.NoHoverNoHighlight` | app/src/sections/Statistics.tsx:355 | with no hovered node (`null`) no line is highlighted |
| `StatisticsSection.HoverHighlightsIncidentLines` | app/src/sections/Statistics.tsx:352-366 | hovering node n highlights a line exactly when n is one of its two ends; each line joins the coordinates of the nodes it names; every node highlights at least two lines |
| `FooterSection.ButtonLabel` | app/src/sections/Footer.tsx:202-217 | "Sending..." exactly while submitting; otherwise "Message Sent!" exactly while submitted; otherwise "Send Message" |
| `FooterSection.ChangeOverwritesOneField` | app/src/sections/Footer.tsx:109-116 | an edit sets the named field to the new value and leaves the other two fields, both flags and the timers unchanged |
| `FooterSection.InvHoldsOnGatedRuns` | app/src/sections/Footer.tsx:94-107 | while every submit goes through the enabled button, at most one submission is in flight, `isSubmitting` holds exactly while it is, and `isSubmitted` implies a pending reset |
| `FooterSection.GatedRunsFromMountKeepInv` | app/src/sections/Footer.tsx:28-34 | from the initial empty form with both flags off, the invariant above holds in every state that button-gated events reach |
| `FooterSection.FieldsChangeOnlyByEditOrDelay` | app/src/sections/Footer.tsx:99-106 | submits and reset timeouts never change the fields; only edits and the end of the delay do |
| `FooterSection.SubmitCycle` | app/src/sections/Footer.tsx:94-106 | from the idle form, submit sets submitting with the fields kept, the delay gives submitted with all fields empty, and the reset returns exactly to the initial state |
| `FooterSection.GatedConcat` | app/src/sections/Footer.tsx:94-116 | the form's reaction to events composes: a gated sequence followed by another gated sequence is gated, and the state it leaves is the second run from the first run's state |
| `FooterSection.FillAndSubmitStartsSubmission` | app/src/sections/Footer.tsx:94-116 | from any state where the button is enabled, filling in any non-empty name and message and an email address the browser accepts (the model's gate does not check its syntax) and pressing the button is let through and starts one more submission with the typed values kept |
| `FooterSection.BothFlagsReachable` | app/src/sections/Footer.tsx:94-107 | `handleSubmit` has no guard of its own, so a second submit through the re-enabled button reaches a state with both flags set, one delay and one reset pending; the label is then "Sending..." |
| `FooterSection.EarlierResetHidesLaterSuccess` | app/src/sections/Footer.tsx:106 | the reset timeout of an earlier submission clears `isSubmitted` set by a later one while that one's timeout is still pending |
| `FooterSection.DoubleSubmitWithoutButtonGuard` | app/src/sections/Footer.tsx:94-96 | if the handler ran twice without the button's guard, two submissions would be in flight and the first to finish would clear `isSubmitting` while the second is pending |
| `FooterSection.Footer.constructor` | app/src/sections/Footer.tsx:28-34 | all three fields start empty and neither flag is set |
| `FooterSection.Footer.HandleChange` | app/src/sections/Footer.tsx:109-116 | the named field becomes the value; the other fields and both flags are unchanged |
| `FooterSection.Footer.HandleSubmit` | app/src/sections/Footer.tsx:94-96 | prevents the browser's own form submission, sets `isSubmitting` and starts the delay; the fields and `isSubmitted` are unchanged |
| `FooterSection.Footer.SubmissionDelayElapsed` | app/src/sections/Footer.tsx:99-106 | `isSubmitting` off, `isSubmitted` on, all fields empty, and the reset timeout started |
| `FooterSection.Footer.ResetTimeoutElapsed` | app/src/sections/Footer.tsx:106 | `isSubmitted` off and nothing else changes |
| `FooterSection.Footer.PressSubmitButton` | app/src/sections/Footer.tsx:197-199 | the handler runs exactly when the button is enabled and the required fields are filled in; while submitting the button is disabled and nothing happens |
| `NavigationSection.QuerySelector` | app/src/sections/Navigation.tsx:41-42 | a `#id` selector finds an element exactly when the document has that id, and the element found carries that id |
| `NavigationSection.ScrolledTracksLastScroll` | app/src/sections/Navigation.tsx:17-23 | `isScrolled` is false until the first scroll event and afterwards equals `scrollY > 100` for the latest one |
| `NavigationSection.MenuOpenIffOddToggles` | app/src/sections/Navigation.tsx:18-46 | the menu starts closed, the button flips it and every link click closes it, so it is open exactly when an odd number of button clicks followed the latest link click |
| `NavigationSection.ScrollsOnlyToFoundTargets` | app/src/sections/Navigation.tsx:41-44 | the sections scrolled to are exactly the clicked links whose selector matches an element, in click order |
| `NavigationSection.LinkClickClosesMenu` | app/src/sections/Navigation.tsx:39-46 | a link click closes the menu and keeps `isScrolled`, and a click whose target is missing scrolls nowhere |
| `NavigationSection.NavLinksEndWithContact` | app/src/sections/Navigation.tsx:6-14 | the link list has seven entries, ending with Contact → `#footer` |
| `NavigationSection.NavLinksAreSectionAnchors` | app/src/sections/Navigation.tsx:6-14 | every link is a `#` anchor naming a section of the page |
| `NavigationSection.NavLinksFollowPageOrder` | app/src/App.tsx:60-69 | the links name page sections in the order the app renders them: their positions on the page strictly increase |
| `NavigationSection.EveryNavLinkScrolls` | app/src/sections/Navigation.tsx:39-46 | on the rendered page every link finds its section, so a click on it scrolls there |
| `NavigationSection.Navigation.constructor` | app/src/sections/Navigation.tsx:17-18 | not scrolled, menu closed, nothing scrolled to |
| `NavigationSection.Navigation.HandleScroll` | app/src/sections/Navigation.tsx:21-23 | `isScrolled` becomes `scrollY > 100`; nothing else changes |
| `NavigationSection.Navigation.ToggleMobileMenu` | app/src/sections/Navigation.tsx:109 | the menu flag flips; nothing else changes |
| `NavigationSection.Navigation.HandleNavClick` | app/src/sections/Navigation.tsx:39-46 | default navigation is always prevented, the matching section (if any) is scrolled to, and the menu is closed |

## Left out

- Scroll-triggered GSAP tweens in every section: third-party timeline and easing engine. This includes the trigger whose `onEnter` sets `isVisible`. Here a visibility change is an input (`SetVisible`).
- The stagger animation of the mobile menu links when it opens: GSAP.
- Smooth scrolling and its frame loop (app/src/App.tsx:25-54): a foreign library driven by animation frames. `scrollIntoView` is recorded as a request, not performed.
- The WebGL star field, the 3D scene, the hero's mouse tilt and the random particle positions: floating point, randomness and rendering.
- Hover-driven classes, opacities and stroke widths in the statistics section and the other sections: presentation only. The skill graph models only which lines are highlighted.
- The theme toggle: it calls a theme context that is not part of this model.
- Wall-clock time. Interval firings, the 1500 ms delay and the 5000 ms reset are events. The model does not order pending timers by their durations, so it allows every order of pending timers, a superset of what real time allows.
- IEEE double arithmetic in the counter: the model uses exact reals. With doubles, repeated addition of `value / 60` can fall just short of the value at the 60th firing and need a 61st. The exact landing on the value and the bounds do not depend on this.
- `StatisticsSection.StatCountersLandOnTheirValues`: holds with exact arithmetic only. With doubles, 60 additions of `12 / 60` give 11.99999999999999 and 60 additions of `10 / 60` give 9.999999999999998, so the "12+" and "10M+" cards show 11 and 9 at firing 60 and reach their values only at firing 61. The 310 and 100 cards reach theirs at firing 60.
- The counter's `value` is fixed per `AnimatedCounter` (a `const`). The effect also re-runs when `value` changes. The page passes constant values, so nothing observable is lost.
- How the count is printed with its suffix: number-to-string formatting.
- The browser's `type="email"` syntax check: the submit gate models only the `required` (non-empty) checks and the disabled button.
- `FooterSection.FillAndSubmitStartsSubmission`: holds for any non-empty email text, a wider set than the page lets through, because the gate skips the `type="email"` check. Its callers `BothFlagsReachable` and `EarlierResetHidesLaterSuccess` type the valid address `b@c`, so their runs are ones the page can produce.
- `FooterSection.FormData.Set`: `handleChange` writes whatever key the input's `name` attribute gives. The only inputs are `name`, `email` and `message`, so the field is one of those three.
- `QuerySelector`: models only `#id` selectors, which are all the page uses. Any other selector is treated as finding nothing, although the real `querySelector` would match, for example, `footer` against the `<footer>` element. The exception an invalid selector raises is not modelled.
- Adding and removing the scroll listener on mount and unmount: the model receives every scroll event while mounted.
- `StatisticsSection.ConnectionLines`: its own contract states only the number of lines. What each line holds is stated by `HoverHighlightsIncidentLines` and `NoHoverNoHighlight`.
