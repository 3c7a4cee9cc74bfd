/** What the presentation script promises, stated over single operations and
    over the passing of time: navigation requests and their completion, the
    exclusive display of sections, the entrance animations, the resize rule,
    and the debounced handlers. */
module NavigationProperties {
  import opened Sections
  import opened Timers
  import opened Navigation
  import opened NavigationInvariant

  /** The handler of `ch` is up to date with the window: the parallax flag and
      the card heights for resize, the recorded offset for scroll. */
  predicate Applied(p: Page, ch: Channel) {
    match ch
    case ResizeChannel =>
      && p.parallax == ParallaxAllowed(p.width)
      && forall i :: 0 <= i < |p.cardHeights| ==> p.cardHeights[i] == CardHeight(p.width)
    case ScrollChannel => p.scrollY == p.windowScroll
  }

  /** The navigation flag is down and the current section is displayed. */
  ghost predicate Settled(p: Page) {
    !p.animating ==>
      forall s :: s in p.sections && Name(s) == p.current ==> p.sections[s].display == DisplayBlock
  }

  /** A callback leaves the current section, the window readings, the clock
      and the `timeout` variables alone, and never raises the navigation flag. */
  lemma FireFields(p: Page, a: Action)
    ensures Fire(p, a).current == p.current && Fire(p, a).now == p.now
    ensures Fire(p, a).width == p.width && Fire(p, a).windowScroll == p.windowScroll
    ensures Fire(p, a).pending == p.pending && |Fire(p, a).cardHeights| == |p.cardHeights|
    ensures Fire(p, a).animating ==> p.animating
  {
    match a
    case EndHide(s) =>
    case Settle(name) =>
      match Lookup(name) {
        case Some(s) =>
        case None =>
      }
    case Reveal(s) =>
      var shown :=
        if s in p.sections then p.(sections := p.sections[s := p.sections[s].(opacity := 1, offsetY := 0)])
        else p;
      AnimateFields(shown, CvContent);
      AnimateFields(shown, LetterContent);
    case RevealItem(c, i) =>
    case Later(ch, _) =>
  }

  lemma AnimateFields(p: Page, c: Content)
    ensures Animate(p, c) == p.(cvItems := Animate(p, c).cvItems, letterItems := Animate(p, c).letterItems,
                                timers := Animate(p, c).timers, nextId := Animate(p, c).nextId)
  {
  }

  /** A callback other than a navigation step leaves the flag and which
      sections are displayed alone. */
  lemma FireDisplay(p: Page, a: Action)
    requires !a.Settle? && !a.EndHide?
    ensures Fire(p, a).animating == p.animating
    ensures Fire(p, a).sections.Keys == p.sections.Keys
    ensures forall s :: s in p.sections ==> Fire(p, a).sections[s].display == p.sections[s].display
  {
    match a
    case Reveal(s) =>
      var shown :=
        if s in p.sections then p.(sections := p.sections[s := p.sections[s].(opacity := 1, offsetY := 0)])
        else p;
      AnimateFields(shown, CvContent);
      AnimateFields(shown, LetterContent);
    case RevealItem(c, i) =>
    case Later(ch, _) =>
  }

  /** A callback schedules only fade-ins and element releases, and cancels
      only when it is a `later`, and then only the timer its `timeout` names. */
  lemma FireTimers(p: Page, a: Action)
    ensures var r := Fire(p, a);
      && (forall t :: t in r.timers ==> t in p.timers || t.action.Reveal? || t.action.RevealItem?)
      && (!a.Later? ==> forall t :: t in p.timers ==> t in r.timers)
      && (a.Later? ==> forall t :: t in p.timers && !(a.channel in p.pending && t.id == p.pending[a.channel]) ==> t in r.timers)
  {
    match a
    case EndHide(s) =>
    case Settle(name) =>
      match Lookup(name) {
        case Some(s) =>
        case None =>
      }
    case Reveal(s) =>
      if s == Cv {
        EntranceTimersOrdered(p.now + RevealMs, p.nextId, CvContent, |p.cvItems|);
      } else if s == Letter {
        EntranceTimersOrdered(p.now + RevealMs, p.nextId, LetterContent, |p.letterItems|);
      }
    case RevealItem(c, i) =>
    case Later(ch, _) =>
  }

  /** A `later` brings its own handler up to date; no callback puts a handler
      that is up to date out of date. */
  lemma FireApplied(p: Page, a: Action)
    ensures forall ch :: Applied(p, ch) ==> Applied(Fire(p, a), ch)
    ensures a.Later? ==> Applied(Fire(p, a), a.channel)
  {
    FireFields(p, a);
    match a
    case EndHide(s) =>
    case Settle(name) =>
      match Lookup(name) {
        case Some(s) =>
        case None =>
      }
    case Reveal(s) =>
    case RevealItem(c, i) =>
    case Later(ch, _) =>
  }

  /** Everything a callback keeps and changes, in one statement. */
  lemma FireFrame(p: Page, a: Action)
    ensures var r := Fire(p, a);
      && r.current == p.current && r.width == p.width && r.windowScroll == p.windowScroll
      && r.now == p.now && r.pending == p.pending && |r.cardHeights| == |p.cardHeights|
      && (r.animating ==> p.animating)
      && (forall t :: t in r.timers ==> t in p.timers || t.action.Reveal? || t.action.RevealItem?)
      && (!a.Later? ==> forall t :: t in p.timers ==> t in r.timers)
      && (a.Later? ==> forall t :: t in p.timers && !(a.channel in p.pending && t.id == p.pending[a.channel]) ==> t in r.timers)
      && (forall ch :: Applied(p, ch) ==> Applied(r, ch))
      && (a.Later? ==> Applied(r, a.channel))
  {
    FireFields(p, a);
    FireTimers(p, a);
    FireApplied(p, a);
  }

  /** In a well-formed state every timer but the one that fires survives the
      step: the only timer a callback cancels is its own. */
  lemma StepKeeps(p: Page, u: Timer<Action>)
    requires Valid(p) && p.timers != [] && u in p.timers && u != p.timers[Earliest(p.timers)]
    ensures u in Step(p).timers
  {
    var p1, t := StepPopped(p);
    EarliestIs(p, t);
    assert u in p1.timers;
    FireFrame(p1, t.action);
    if t.action.Later? && t.action.channel in p1.pending {
      OtherIds(p.timers, Earliest(p.timers), u);
    }
  }

  /** The timer StepPopped takes out is the one Step fires. */
  lemma EarliestIs(p: Page, t: Timer<Action>)
    requires Valid(p) && t in p.timers && forall u :: u in p.timers ==> !Precedes(u, t)
    ensures p.timers != [] && t == p.timers[Earliest(p.timers)]
  {
    var k :| 0 <= k < |p.timers| && p.timers[k] == t;
    EarliestUnique(p.timers, k);
  }

  /** Firing the first timer: what a callback keeps, plus the clock moving to
      the timer's due time. */
  lemma StepFrame(p: Page)
    requires Valid(p) && p.timers != []
    ensures var r := Step(p);
      && r.current == p.current && r.width == p.width && r.windowScroll == p.windowScroll
      && r.pending == p.pending && |r.cardHeights| == |p.cardHeights|
      && (r.animating ==> p.animating)
      && (forall t :: t in r.timers ==> t in p.timers || t.action.Reveal? || t.action.RevealItem?)
      && (forall ch :: Applied(p, ch) ==> Applied(r, ch))
      && (p.timers[Earliest(p.timers)].action.Later? ==> Applied(r, p.timers[Earliest(p.timers)].action.channel))
  {
    var p1, t := StepPopped(p);
    EarliestIs(p, t);
    FireFrame(p1, t.action);
    forall ch | Applied(p, ch) ensures Applied(p1, ch) {
      match ch
      case ResizeChannel =>
      case ScrollChannel =>
    }
  }

  /** Advancing the clock to `target`: the clock ends at `target`, nothing due
      by then is left, the current section and the window readings do not
      change, the flag is never raised, the only new timers are fade-ins and
      element releases, and a handler up to date stays so. */
  lemma {:induction false} RunFrame(p: Page, target: int)
    requires Valid(p) && p.now <= target
    ensures var r := Run(p, target);
      && r.now == target
      && (forall t :: t in r.timers ==> t.due > target)
      && r.current == p.current && r.width == p.width && r.windowScroll == p.windowScroll
      && |r.cardHeights| == |p.cardHeights|
      && (r.animating ==> p.animating)
      && (forall t :: t in r.timers ==> t in p.timers || t.action.Reveal? || t.action.RevealItem?)
      && (forall ch :: Applied(p, ch) ==> Applied(r, ch))
    decreases target - p.now, CountDue(p.timers, p.now)
  {
    if AnyDue(p.timers, target) {
      StepProgress(p, target);
      StepFrame(p);
      StepValid(p);
      RunFrame(Step(p), target);
    } else {
      forall t | t in p.timers ensures t.due > target {
        var i :| 0 <= i < |p.timers| && p.timers[i] == t;
      }
    }
  }

  /** A timer not due by `target` is still pending at `target`. */
  lemma {:induction false} RunKeepsLater(p: Page, target: int, u: Timer<Action>)
    requires Valid(p) && p.now <= target && u in p.timers && u.due > target
    ensures u in Run(p, target).timers
    decreases target - p.now, CountDue(p.timers, p.now)
  {
    if AnyDue(p.timers, target) {
      StepProgress(p, target);
      var i :| 0 <= i < |p.timers| && p.timers[i].due <= target;
      StepKeeps(p, u);
      StepValid(p);
      RunKeepsLater(Step(p), target, u);
    }
  }

  /** A debounced `later` due by `target` has run by then, so its handler is
      up to date at `target`. */
  lemma {:induction false} RunApplies(p: Page, target: int, u: Timer<Action>)
    requires Valid(p) && p.now <= target && u in p.timers && u.due <= target && u.action.Later?
    ensures Applied(Run(p, target), u.action.channel)
    decreases target - p.now, CountDue(p.timers, p.now)
  {
    assert AnyDue(p.timers, target) by {
      var i :| 0 <= i < |p.timers| && p.timers[i] == u;
    }
    StepProgress(p, target);
    StepFrame(p);
    StepValid(p);
    if u == p.timers[Earliest(p.timers)] {
      RunFrame(Step(p), target);
    } else {
      StepKeeps(p, u);
      RunApplies(Step(p), target, u);
    }
  }

  // Sections

  /** Only the current section is ever displayed, or during a navigation only
      the section being hidden: never two at once. */
  lemma AtMostOneDisplayed(p: Page, s: Section, s': Section)
    requires Valid(p)
    requires s in p.sections && p.sections[s].display == DisplayBlock
    requires s' in p.sections && p.sections[s'].display == DisplayBlock
    ensures s == s'
  {
    if p.animating {
      var t :| t in p.timers && t.action == EndHide(s);
      var t' :| t' in p.timers && t'.action == EndHide(s');
    } else {
      LookupName(s);
      LookupName(s');
    }
  }

  /** When the settle step of a navigation is first in line, the hide step has
      run and every section is out of the layout, so showSection displays the
      new section alone. */
  lemma HideBeforeSettle(p: Page)
    requires Valid(p) && p.timers != [] && p.timers[Earliest(p.timers)].action.Settle?
    ensures forall t :: t in p.timers ==> !t.action.EndHide?
    ensures forall s :: s in p.sections ==> p.sections[s].display == DisplayNone
  {
    var settle := p.timers[Earliest(p.timers)];
    assert settle in p.timers;
    assert p.animating;
  }

  /** hideSection on a known section removes it from view now, schedules its
      `display: none` 300 ms later, and that step takes it out of the layout. */
  lemma HideSchedules(p: Page, s: Section)
    requires s in p.sections
    ensures var h := Hide(p, Name(s));
      && h.sections == p.sections[s := SectionStyle(p.sections[s].display, 0, HideOffset)]
      && h.timers == p.timers + [Timer(p.now + SettleMs, p.nextId, EndHide(s))]
      && Fire(h, EndHide(s)).sections[s] == SectionStyle(DisplayNone, 0, HideOffset)
  {
    LookupName(s);
  }

  /** showSection on a known section puts it in the layout now, schedules its
      fade-in 50 ms later, and that step makes it opaque and at rest. */
  lemma ShowSchedules(p: Page, s: Section)
    requires s in p.sections
    ensures var h := Show(p, Name(s));
      && h.sections == p.sections[s := p.sections[s].(display := DisplayBlock)]
      && h.timers == p.timers + [Timer(p.now + RevealMs, p.nextId, Reveal(s))]
      && Fire(h, Reveal(s)).sections[s] == SectionStyle(DisplayBlock, 1, 0)
  {
    LookupName(s);
  }

  /** hideSection and showSection do nothing for a name outside the section
      map or a section with no element. */
  lemma HideShowUnknown(p: Page, name: string)
    requires Lookup(name).None? || Lookup(name).value !in p.sections
    ensures Hide(p, name) == p && Show(p, name) == p
  {
  }

  // Navigation

  /** navigateTo, when it goes ahead, raises the flag and records the new
      section at once, fades the section it leaves out at once, and queues that
      section's `display: none` before the settle step of the same delay;
      nothing else changes. */
  lemma NavigateStarts(p: Page, name: string)
    requires !p.animating && p.current != name
    ensures Navigate(p, name).(sections := p.sections, timers := p.timers, nextId := p.nextId)
         == p.(animating := true, current := name)
    ensures var prev := Lookup(p.current);
      prev.Some? && prev.value in p.sections ==>
        && Navigate(p, name).sections
           == p.sections[prev.value := p.sections[prev.value].(opacity := 0, offsetY := HideOffset)]
        && Navigate(p, name).timers
           == p.timers + [Timer(p.now + SettleMs, p.nextId, EndHide(prev.value)),
                          Timer(p.now + SettleMs, p.nextId + 1, Settle(name))]
        && Precedes(Navigate(p, name).timers[|p.timers|], Navigate(p, name).timers[|p.timers| + 1])
    ensures var prev := Lookup(p.current);
      !(prev.Some? && prev.value in p.sections) ==>
        && Navigate(p, name).sections == p.sections
        && Navigate(p, name).timers == p.timers + [Timer(p.now + SettleMs, p.nextId, Settle(name))]
  {
  }

  /** A step keeps the current section displayed once the flag is down. */
  lemma StepSettled(p: Page)
    requires Valid(p) && Settled(p) && p.timers != []
    ensures Settled(Step(p))
  {
    var p1, t := StepPopped(p);
    var r := Fire(p1, t.action);
    FireFields(p1, t.action);
    match t.action
    case EndHide(_) =>
      assert p.animating && r.animating;
    case Settle(name) =>
      assert name == p.current;
      forall s | s in r.sections && Name(s) == r.current
        ensures r.sections[s].display == DisplayBlock
      {
        LookupName(s);
      }
    case Reveal(_) =>
      FireDisplay(p1, t.action);
    case RevealItem(_, _) =>
      FireDisplay(p1, t.action);
    case Later(_, _) =>
      FireDisplay(p1, t.action);
  }

  lemma {:induction false} RunSettled(p: Page, target: int)
    requires Valid(p) && Settled(p) && p.now <= target
    ensures Settled(Run(p, target))
    decreases target - p.now, CountDue(p.timers, p.now)
  {
    if AnyDue(p.timers, target) {
      StepProgress(p, target);
      StepSettled(p);
      StepValid(p);
      RunSettled(Step(p), target);
    }
  }

  /** Once every pending settle step is due by `target`, the navigation is
      over at `target`: the flag is down and the current section is exactly
      the displayed one. */
  lemma RunFinishes(q: Page, target: int)
    requires Valid(q) && Settled(q) && q.now <= target
    requires forall t :: t in q.timers && t.action.Settle? ==> t.due <= target
    ensures var r := Run(q, target);
      && r.now == target
      && r.current == q.current && !r.animating
      && forall s :: s in r.sections ==> (r.sections[s].display == DisplayBlock <==> Name(s) == q.current)
  {
    RunFrame(q, target);
    RunValid(q, target);
    RunSettled(q, target);
  }

  /** A navigation started in a settled state is complete 300 ms later: the
      flag is down, the new section is current, and it is exactly the
      displayed one. */
  lemma NavigationCompletes(p: Page, name: string)
    requires Valid(p) && !p.animating && p.current != name
    ensures var r := Run(Navigate(p, name), p.now + SettleMs);
      && r.now == p.now + SettleMs
      && r.current == name && !r.animating
      && forall s :: s in r.sections ==> (r.sections[s].display == DisplayBlock <==> Name(s) == name)
  {
    NavigateValid(p, name);
    NavigateStarts(p, name);
    RunFinishes(Navigate(p, name), p.now + SettleMs);
  }

  // Entrance animations

  /** An entrance animation conceals every element at once and queues one
      release per element, in element order, all 50 ms later. */
  lemma AnimateReleases(p: Page, c: Content)
    ensures var r := Animate(p, c); var n := |Items(p, c)|;
      && |Items(r, c)| == n
      && (forall i :: 0 <= i < n ==>
            Items(r, c)[i] == Items(p, c)[i].(opacity := 0, offsetY := RiseOffset(c)))
      && |r.timers| == |p.timers| + n && r.timers[..|p.timers|] == p.timers && r.nextId == p.nextId + n
      && (forall i :: 0 <= i < n ==>
            r.timers[|p.timers| + i] == Timer(p.now + RevealMs, p.nextId + i, RevealItem(c, i)))
  {
    var n := |Items(p, c)|;
    var r := Animate(p, c);
    assert r.timers == p.timers + EntranceTimers(p.now + RevealMs, p.nextId, c, n);
  }

  /** The release of element `i` makes it visible and at rest, with the
      staggered delay and the duration of its animation; no other element
      changes, and an index past the end changes nothing. */
  lemma ReleaseItem(p: Page, c: Content, i: nat)
    ensures var r := Fire(p, RevealItem(c, i));
      && |Items(r, c)| == |Items(p, c)|
      && (i < |Items(p, c)| ==> Items(r, c)[i] == ItemStyle(1, 0, i * StaggerMs(c), DurationMs(c)))
      && (forall j :: 0 <= j < |Items(p, c)| && j != i ==> Items(r, c)[j] == Items(p, c)[j])
      && r.timers == p.timers && r.sections == p.sections
  {
  }

  /** Only the CV and the letter have an entrance animation: the menu's
      fade-in touches no content element and schedules nothing. */
  lemma RevealMenu(p: Page)
    ensures Fire(p, Reveal(Menu)).(sections := p.sections) == p
  {
  }

  // Resize, touch and the debounced handlers

  /** handleResize: parallax on exactly above the breakpoint, and every menu
      card 320 px tall up to it and 380 px above it. */
  lemma HandleResizeRule(p: Page)
    ensures var r := HandleResize(p);
      && (r.parallax <==> p.width > 768)
      && |r.cardHeights| == |p.cardHeights|
      && (forall i :: 0 <= i < |r.cardHeights| ==> r.cardHeights[i] == (if p.width <= 768 then 320 else 380))
      && r.(parallax := p.parallax, cardHeights := p.cardHeights) == p
  {
  }

  /** A debounced call cancels the pending `later` of its channel and
      schedules exactly one new one, holding its argument, `wait` ms from now;
      the channel's `timeout` names it and no other timer is touched. */
  lemma DebounceSingle(p: Page, ch: Channel, arg: int)
    requires Valid(p)
    ensures var r := Debounce(WithReading(p, ch, arg), ch, arg);
      var later := Timer(p.now + Wait(ch), p.nextId, Later(ch, arg));
      && r.pending == p.pending[ch := p.nextId]
      && (forall t :: t in r.timers <==> t == later || (t in p.timers && !(t.action.Later? && t.action.channel == ch)))
      && (forall t :: t in r.timers && t.action.Later? && t.action.channel == ch ==> t == later)
  {
    var later := Timer(p.now + Wait(ch), p.nextId, Later(ch, arg));
    assert later !in p.timers;
    if ch in p.pending {
      forall t | t in p.timers ensures t.id == p.pending[ch] <==> t.action.Later? && t.action.channel == ch {
      }
    }
  }

  /** Until `wait` ms have passed, the handler of a debounced call has not run:
      its `later` is still pending. */
  lemma DebounceWaits(p: Page, ch: Channel, arg: int, target: int)
    requires Valid(p) && p.now <= target < p.now + Wait(ch)
    ensures Timer(p.now + Wait(ch), p.nextId, Later(ch, arg)) in Run(Debounce(WithReading(p, ch, arg), ch, arg), target).timers
  {
    DebounceValid(p, ch, arg);
    DebounceSingle(p, ch, arg);
    RunKeepsLater(Debounce(WithReading(p, ch, arg), ch, arg), target, Timer(p.now + Wait(ch), p.nextId, Later(ch, arg)));
  }

  /** `wait` ms after a debounced call its handler has run on the call's
      argument, whatever else fired in between. */
  lemma DebounceSettles(p: Page, ch: Channel, arg: int)
    requires Valid(p)
    ensures var r := Run(Debounce(WithReading(p, ch, arg), ch, arg), p.now + Wait(ch));
      Reading(r, ch) == arg && Applied(r, ch)
  {
    var q := Debounce(WithReading(p, ch, arg), ch, arg);
    var target := p.now + Wait(ch);
    DebounceValid(p, ch, arg);
    DebounceSingle(p, ch, arg);
    RunApplies(q, target, Timer(target, p.nextId, Later(ch, arg)));
    RunFrame(q, target);
  }

  /** 250 ms after a resize to width `w` the resize rule holds for `w`. */
  lemma ResizeSettles(p: Page, w: int, target: int)
    requires Valid(p) && target == p.now + Wait(ResizeChannel)
    ensures var r := Run(Resize(p, w), target);
      && r.width == w
      && (r.parallax <==> w > Breakpoint)
      && |r.cardHeights| == |p.cardHeights|
      && forall i :: 0 <= i < |r.cardHeights| ==> r.cardHeights[i] == CardHeight(w)
  {
    DebounceSettles(p, ResizeChannel, w);
    DebounceValid(p, ResizeChannel, w);
    RunFrame(Resize(p, w), target);
  }

  /** A touch switches the tilt off. */
  lemma TouchDisables(p: Page)
    ensures !TouchStart(p).parallax && !ParallaxRuns(TouchStart(p))
    ensures TouchStart(p).(parallax := p.parallax) == p
  {
  }

  /** A resize above the breakpoint after a touch switches the tilt back on. */
  lemma TouchThenResize(p: Page, w: int)
    requires Valid(p)
    ensures Run(Resize(TouchStart(p), w), p.now + Wait(ResizeChannel)).parallax <==> w > Breakpoint
  {
    TouchStartValid(p);
    ResizeSettles(TouchStart(p), w, p.now + Wait(ResizeChannel));
  }
}
