# Section navigation of the portfolio presentation script

`script.js` drives a one-page portfolio with three mutually exclusive views:
the menu, the CV and the cover letter. A global `state` object records the
current section, whether a transition is running, and whether the mouse
parallax tilt is on. A click calls `navigateTo`. That function fades the
current section out, and hideSection queues its own 300 ms timer that takes
the section out of the layout. navigateTo then queues a second 300 ms timer
that shows the target section. The two timers are due together and fire in
the order they were queued, so the old section leaves the layout before the
new one enters it. The target fades in 50 ms after that, and the CV and the letter then release their content elements one by
one with staggered CSS delays. Window resize and scroll are debounced with a
closure-based `debounce`. A resize recomputes the parallax flag and the menu
card heights, a scroll records the offset, and the first touch turns the
parallax flag off.

The model has three layers.

- **Values** (`sections.dfy`, `timers.dfy`, `navigation.dfy`).
  - `Navigation.Page` holds the whole state: the `state` fields, the two window
    readings the handlers consult, the inline styles the script writes, a
    virtual clock, the queue of pending `setTimeout` callbacks, the next
    sequence number, and the `timeout` variable of each debounced handler.
  - Every function of the script is a function from one `Page` to the next.
  - Time passes only through `Run` and `Step`. `Step` fires the pending timer
    that is due first; among timers due at the same time, the one scheduled
    first fires first, as the browser does.
  - A section with no element in the document is a key missing from the
    section map.
  - Pixels and milliseconds are integers.
- **Invariant and properties** (`invariant.dfy`, `properties.dfy`).
  - `NavigationInvariant.Valid` holds in every state the script can reach, and
    every operation and every firing step keeps it.
  - Most properties are stated over the passing of time: a navigation completes
    300 ms later, never two sections are displayed at once, and the debounced
    handler runs on the last call's argument once the quiet window has passed.
- **The object** (`presenter.dfy`).
  - Class `Presenter.Presenter` has one field per part of the page.
  - It has one method per function of the script, with loops where the script
    iterates (`forEach`, the timer search, the clock).
  - Every method ends in the state the matching `Navigation` function gives, so
    the properties proved of the functions hold of the object.

The model follows the code where a reader might expect otherwise:

- `currentSection` takes the new name immediately, when the transition starts
  (script.js:82), not when the new section has appeared.
- `isAnimating` drops in the 300 ms callback (script.js:90), 50 ms before the
  new section starts fading in. A second navigation is therefore accepted while
  the first one's fade-in is still pending.
- A touch does not disable the parallax for good: the next resize recomputes
  the flag from the width (script.js:200). `NavigationProperties.TouchThenResize`
  proves that the flag comes back on above the breakpoint.

## Model

| member | source | states |
|---|---|---|
| `Sections.Lookup` | script.js:95-101 | the section map: exactly the names "menu", "cv" and "letter" have a section, and it is the section of that name |
| `Sections.LookupName` | script.js:95-99 | every section is found under its own name |
| `Sections.EntranceDelayOrder` | script.js:170-175 | the first element's delay is 0, and each later element starts at least one stagger step (100 ms CV, 150 ms letter) after every earlier one |
| `Sections.CvOrder` | script.js:163-168 | the CV elements are the cards, then the timeline items, then the rotary cards, then the gallery items: each kind occupies exactly its index range and kinds never go backwards |
| `Timers.Earliest` | script.js:85-91 | the timer that fires next is due no later than any other, and no timer precedes it in (due time, scheduling order) |
| `Timers.EarliestUnique` | script.js:85-91 | with timers in scheduling order, only one timer can be first in line |
| `Timers.Remove` | script.js:88-91 | removing the fired timer shortens the queue by one |
| `Timers.RemoveMembers` | script.js:88-91 | removing the fired timer keeps every other timer, in scheduling order |
| `Timers.Cancel` | script.js:274-277 | `clearTimeout(id)` keeps exactly the timers with another sequence number |
| `Timers.CancelOrdered` | script.js:274-277 | `clearTimeout` keeps the queue in scheduling order |
| `Timers.CancelAppend` | script.js:277 | cancelling entry by entry, front to back, builds the same queue as `clearTimeout` |
| `Navigation.Navigate` | script.js:77-92 | while animating, or for the current section, navigateTo changes nothing; otherwise the flag goes up and the target becomes current at once |
| `Navigation.FireSchedulesLater` | script.js:88-132 | a callback leaves the clock alone and schedules nothing that is already due |
| `Navigation.StepProgress` | script.js:88-91 | firing the first due timer moves the clock forward but not past the target, or leaves fewer timers due |
| `NavigationInvariant.StepValid` | script.js:85-132 | firing the first timer keeps the invariant: one settle step exactly while animating, targeting the current section, preceded by the only hide step; displayed sections are the current one or the one being hidden; one pending `later` per debounced channel |
| `NavigationInvariant.RunValid` | script.js:85-132 | advancing the clock keeps the invariant |
| `NavigationInvariant.NavigateValid` | script.js:77-92 | navigateTo keeps the invariant |
| `NavigationInvariant.DebounceValid` | script.js:272-279 | a debounced call keeps the invariant |
| `NavigationInvariant.TouchStartValid` | script.js:71-73 | the touch listener keeps the invariant |
| `NavigationInvariant.ShowValid` | script.js:111-123 | in a settled state with every section out of the layout, showSection of the current section keeps the invariant |
| `NavigationInvariant.AnimateValid` | script.js:162-196 | an entrance animation keeps the invariant |
| `NavigationInvariant.HandleValid` | script.js:199-217 | handleResize and handleScroll keep the invariant |
| `NavigationInvariant.FireEndHideValid` | script.js:105-107 | the hide step keeps the invariant |
| `NavigationInvariant.FireSettleValid` | script.js:88-91 | the 300 ms navigation callback keeps the invariant |
| `NavigationInvariant.FireRevealValid` | script.js:121-132 | the 50 ms fade-in callback keeps the invariant |
| `NavigationInvariant.FireRevealItemValid` | script.js:174-178 | the release of a content element keeps the invariant |
| `NavigationInvariant.FireLaterValid` | script.js:273-276 | a debounced `later` keeps the invariant |
| `NavigationInvariant.NavigateNavigation` | script.js:78-91 | a navigation that goes ahead queues its settle step, targeting the new section, behind the hide step of the previous one |
| `NavigationProperties.AtMostOneDisplayed` | script.js:103-120 | in every reachable state at most one section is in the layout |
| `NavigationProperties.HideBeforeSettle` | script.js:85-107 | when the settle step is first in line, the hide step has fired and every section is out of the layout, so showSection displays the target alone |
| `NavigationProperties.HideSchedules` | script.js:102-108 | hideSection fades the section to opacity 0 and moves it down 20 px at once, and its step 300 ms later sets `display: none` |
| `NavigationProperties.ShowSchedules` | script.js:119-123 | showSection sets `display: block` at once, and its step 50 ms later sets opacity 1 and offset 0 |
| `NavigationProperties.HideShowUnknown` | script.js:95-119 | for a name outside the map, or a section without an element, hideSection and showSection change nothing |
| `NavigationProperties.NavigateStarts` | script.js:80-91 | a navigation that goes ahead changes only the flag, the current section, the styles of the previous section and the queue; it queues the hide step, then the settle step of equal delay, and the hide step fires first |
| `NavigationProperties.StepSettled` | script.js:88-91 | once the flag is down, a firing step keeps the current section displayed |
| `NavigationProperties.RunSettled` | script.js:88-91 | once the flag is down, advancing the clock keeps the current section displayed |
| `NavigationProperties.RunFinishes` | script.js:88-91 | when every pending settle step is due by the target time, at that time the flag is down and the current section is exactly the displayed one |
| `NavigationProperties.NavigationCompletes` | script.js:77-92 | 300 ms after a navigation starts in a settled state, the target is current, the flag is down, and the target is the only displayed section |
| `NavigationProperties.AnimateReleases` | script.js:162-196 | an entrance animation conceals every element at once (opacity 0, offset 30 px CV / 20 px letter) and queues one release per element, in element order, 50 ms later |
| `NavigationProperties.ReleaseItem` | script.js:174-194 | the release of element i makes it opaque and at rest with delay i·100 ms (CV) or i·150 ms (letter) and duration 600 / 500 ms, and changes no other element |
| `NavigationProperties.RevealMenu` | script.js:121-132 | the menu's fade-in changes only the menu's style: no content element, no timer |
| `NavigationProperties.HandleResizeRule` | script.js:199-212 | after handleResize the flag is on exactly above 768 px, and every menu card is 320 px tall up to 768 px and 380 px above; nothing else changes |
| `NavigationProperties.FireFrame` | script.js:88-132 | a callback keeps the current section, the window readings and the `timeout` variables, never raises the flag, schedules only fade-ins and releases, and cancels only its own debounced timer |
| `NavigationProperties.StepKeeps` | script.js:273-276 | in a reachable state a firing step keeps every timer except the one that fires |
| `NavigationProperties.StepFrame` | script.js:85-91 | firing the first timer keeps the current section, the window readings and the `timeout` variables, never raises the flag, and runs the handler of a fired `later` |
| `NavigationProperties.RunFrame` | script.js:88-91 | advancing the clock to a target leaves no timer due by then, does not change the current section or the window readings, and never raises the flag |
| `NavigationProperties.RunKeepsLater` | script.js:278 | a timer not due by the target is still pending at the target |
| `NavigationProperties.RunApplies` | script.js:273-276 | a pending `later` due by the target has run its handler by then |
| `NavigationProperties.DebounceSingle` | script.js:272-279 | a debounced call cancels the pending call of its channel and schedules exactly one new one, `wait` ms ahead and holding its argument; `timeout` names it and no other timer is touched |
| `NavigationProperties.DebounceWaits` | script.js:277-278 | until `wait` ms have passed since the last call, the handler has not run and the call is still pending |
| `NavigationProperties.DebounceSettles` | script.js:270-280 | `wait` ms after the last call the handler has run on that call's reading |
| `NavigationProperties.ResizeSettles` | script.js:199-212 | 250 ms after a resize to width w, the flag is on exactly when w > 768 and every menu card has the height for w |
| `NavigationProperties.TouchDisables` | script.js:71-73 | a touch turns the flag off and nothing else, so handleParallax stops at its guard |
| `NavigationProperties.TouchThenResize` | script.js:199-200 | after a touch, a resize above 768 px turns the tilt back on 250 ms later |
| `Presenter.Presenter.constructor` | script.js:22-27 | the initial state: the menu is current and the only displayed section, no transition, the flag follows the width, and no timer is pending; the invariant holds |
| `Presenter.Presenter.SetTimeout` | script.js:278 | appends the callback due `delay` ms from now under the next sequence number and returns that number |
| `Presenter.Presenter.ClearTimeout` | script.js:274-277 | rebuilds the queue without the timer of the given number |
| `Presenter.Presenter.HideSection` | script.js:94-109 | ends in the state of hideSection |
| `Presenter.Presenter.ShowSection` | script.js:111-134 | ends in the state of showSection |
| `Presenter.Presenter.NavigateTo` | script.js:77-92 | ends in the state of navigateTo and keeps the invariant |
| `Presenter.Presenter.SetItem` | script.js:171-177 | writes the style of one content element |
| `Presenter.Presenter.AnimateElements` | script.js:162-196 | the forEach loop conceals each element and schedules its release, ending in the state of the entrance animation |
| `Presenter.Presenter.HandleResize` | script.js:199-212 | sets the flag and, in a loop over the menu cards, the height for the width |
| `Presenter.Presenter.HandleScroll` | script.js:216-217 | records the scroll offset |
| `Presenter.Presenter.TouchStart` | script.js:71-73 | clears the flag and keeps the invariant |
| `Presenter.Presenter.HandleParallax` | script.js:137-141 | tilts only when the flag is on and there are menu cards |
| `Presenter.Presenter.Debounce` | script.js:272-279 | clears the channel's pending timeout, schedules the new `later` and records its number |
| `Presenter.Presenter.Resize` | script.js:65 | a resize event: the width changes and the debounced resize handler is called; keeps the invariant |
| `Presenter.Presenter.Scroll` | script.js:68 | a scroll event: the offset changes and the debounced scroll handler is called; keeps the invariant |
| `Presenter.Presenter.Fire` | script.js:88-132 | runs a timer's callback |
| `Presenter.Presenter.NextTimer` | script.js:85-91 | the loop finds the timer first in line: no timer precedes it, it is due no later than any other, and with timers in scheduling order it is the one `Earliest` names |
| `Presenter.Presenter.Step` | script.js:85-91 | fires the timer first in line and keeps the invariant |
| `Presenter.Presenter.StepToward` | script.js:85-91 | one firing on the way to the target time: the same end state, and progress by the clock or by the due count |
| `Presenter.Presenter.Idle` | script.js:85-91 | with nothing due, moves the clock to the target |
| `Presenter.Presenter.RunUntil` | script.js:85-91 | fires every timer due by the target, in order, then moves the clock to the target |
| `Presenter.Presenter.Tick` | script.js:85-91 | advancing the clock by dt ms ends in the state `Run` gives and keeps the invariant |

## Left out

- The tilt of the menu cards (script.js:143-158): floating-point rotations written into CSS strings and batched by `requestAnimationFrame`. Only the guards of handleParallax (script.js:138, 141) are modelled.
- The background overlay offset `scrollY * 0.3` of handleScroll (script.js:219-224): a floating-point value written into a CSS string.
- The CSS `transition` strings (script.js:124, 175, 191). The model keeps their delays and durations on the content elements as whole milliseconds. The script computes the delay in seconds as `index * 0.1` or `index * 0.15` in binary floating point (3 · 0.1 is 0.30000000000000004). The model replaces it by the exact `index · 100` ms or `index · 150` ms on purpose: the rounding error is far below a millisecond. The section fade speed of 0.4 s (script.js:3, 124) is not modelled.
- initAnimations (script.js:228-247): the effect depends on IntersectionObserver callbacks and viewport geometry.
- optimizePerformance (script.js:250-267): image preloading and touch-capability detection query the environment.
- Listener registration and init (script.js:30-74, 283): the events are the model's operations. The model also leaves out the condition at script.js:60, which registers the mousemove listener only when parallax is on at start-up.
- The console messages (script.js:31, 42) and the `beforeunload` cleanup (script.js:286-288).
- The DOM lookups by id and class (script.js:9-19, 140, 163-168, 184, 203). The section elements are a map whose missing keys are sections without an element, and the content elements and menu cards are sequences of styles. Which CV element has which kind is not tracked per element: `Sections.CvOrder` states the order the lookup produces.
- The arguments the debounced handlers receive: handleResize and handleScroll read the window rather than their event. The model stores the window reading of each call in its `later` instead of the event object.
- The browser clock. Time is the virtual clock of the model. It advances only when timers are fired: `Navigation.Step` and `Navigation.Run` on values, and `Presenter.Presenter.Step`, `StepToward`, `Idle`, `RunUntil` and `Tick` on the object. A timer never fires before its due time, and timers due together fire in scheduling order.
- NavigationProperties.HideShowUnknown: an unknown name is a no-op, as for `undefined` at script.js:101 and 118. The model does not cover names that `sectionMap` inherits from `Object.prototype` ("toString", "constructor", "valueOf", "__proto__"). For those names the lookup gives a truthy value without `style`, so line 103 or line 120 throws a TypeError. The click handlers at script.js:48-57 pass only "cv", "letter" and "menu", so no such name reaches navigateTo.
- NavigationProperties.NavigationCompletes: the same gap. In the script, `navigateTo("toString")` would throw inside the 300 ms callback before line 90, leaving `isAnimating` true for good. The model instead completes the navigation with nothing displayed.
- Presenter.Presenter.constructor: the starting display of the sections comes from the page's stylesheet, which script.js does not set. The constructor assumes the menu alone is visible and every other section hidden; that is where the display parts of `NavigationProperties.AtMostOneDisplayed`, `RunFinishes` and `NavigationCompletes` start from. The inline `display` of the section elements starts unset (`''`), and the model has no value for that: it records the effective display instead.
