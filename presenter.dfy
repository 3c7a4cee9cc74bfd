/** The presentation script as an object: the fields of its `state` object,
    the inline styles it writes, the window readings it consults, and the
    timer machinery, updated in place by one method per function of the
    script. Each method ends in the state the matching function of
    `Navigation` gives, so everything proved about those functions holds of
    the object. */
module Presenter {
  import opened Sections
  import opened Timers
  import opened Navigation
  import NavigationInvariant

  class Presenter {
    var currentSection: string
    var isAnimating: bool
    var parallaxEnabled: bool
    var scrollY: int
    var innerWidth: int
    var windowScrollY: int
    var sectionStyles: map<Section, SectionStyle>
    var cvElements: seq<ItemStyle>
    var letterBlocks: seq<ItemStyle>
    var menuCardHeights: seq<int>
    var clock: int
    var timers: seq<Timer<Action>>
    var nextTimerId: nat
    var timeouts: map<Channel, nat>

    /** The whole state as a value. */
    function Model(): Page
      reads this
    {
      Page(currentSection, isAnimating, parallaxEnabled, scrollY, innerWidth, windowScrollY,
           sectionStyles, cvElements, letterBlocks, menuCardHeights, clock, timers, nextTimerId, timeouts)
    }

    ghost predicate Valid()
      reads this
    {
      NavigationInvariant.Valid(Model())
    }

    /** The state when the script starts: the menu is current and is the only
        section in the layout, nothing is animating, the parallax flag follows
        the window width, and no timer is pending. */
    constructor (sections: map<Section, SectionStyle>, cv: seq<ItemStyle>, letter: seq<ItemStyle>,
                 cards: seq<int>, width: int, windowScroll: int, now: int)
      requires forall s :: s in sections ==> (sections[s].display == DisplayBlock <==> s == Menu)
      ensures Model() == Page("menu", false, ParallaxAllowed(width), 0, width, windowScroll,
                              sections, cv, letter, cards, now, [], 0, map[])
      ensures Valid()
    {
      currentSection := "menu";
      isAnimating := false;
      parallaxEnabled := width > Breakpoint;
      scrollY := 0;
      innerWidth := width;
      windowScrollY := windowScroll;
      sectionStyles := sections;
      cvElements := cv;
      letterBlocks := letter;
      menuCardHeights := cards;
      clock := now;
      timers := [];
      nextTimerId := 0;
      timeouts := map[];
    }

    /** `setTimeout(a, delay)`, returning the timer's sequence number. */
    method SetTimeout(delay: nat, a: Action) returns (id: nat)
      modifies this
      ensures Model() == Navigation.SetTimeout(old(Model()), delay, a)
      ensures id == old(nextTimerId)
    {
      id := nextTimerId;
      timers := timers + [Timer(clock + delay, id, a)];
      nextTimerId := nextTimerId + 1;
    }

    /** `clearTimeout(id)`: the queue is rebuilt without the timer `id`. */
    method ClearTimeout(id: nat)
      modifies this
      ensures Model() == Navigation.ClearTimeout(old(Model()), id)
    {
      var queue := timers;
      var kept: seq<Timer<Action>> := [];
      var i := 0;
      while i < |queue|
        invariant 0 <= i <= |queue|
        invariant kept == Cancel(queue[..i], id)
        invariant Model() == old(Model())
      {
        CancelAppend(queue[..i], queue[i], id);
        assert queue[..i + 1] == queue[..i] + [queue[i]];
        if queue[i].id != id {
          kept := kept + [queue[i]];
        }
        i := i + 1;
      }
      assert queue[..i] == queue;
      timers := kept;
    }

    /** hideSection. */
    method HideSection(name: string)
      modifies this
      ensures Model() == Hide(old(Model()), name)
    {
      match Lookup(name) {
        case Some(s) =>
          if s in sectionStyles {
            sectionStyles := sectionStyles[s := sectionStyles[s].(opacity := 0, offsetY := HideOffset)];
            var _ := SetTimeout(SettleMs, EndHide(s));
          }
        case None =>
      }
    }

    /** showSection. */
    method ShowSection(name: string)
      modifies this
      ensures Model() == Show(old(Model()), name)
    {
      match Lookup(name) {
        case Some(s) =>
          if s in sectionStyles {
            sectionStyles := sectionStyles[s := sectionStyles[s].(display := DisplayBlock)];
            var _ := SetTimeout(RevealMs, Reveal(s));
          }
        case None =>
      }
    }

    /** navigateTo. */
    method NavigateTo(name: string)
      requires Valid()
      modifies this
      ensures Model() == Navigate(old(Model()), name)
      ensures Valid()
    {
      NavigationInvariant.NavigateValid(Model(), name);
      if isAnimating || currentSection == name {
        return;
      }
      isAnimating := true;
      var previous := currentSection;
      currentSection := name;
      HideSection(previous);
      var _ := SetTimeout(SettleMs, Settle(name));
    }

    /** The content elements of an entrance animation. */
    function ItemsOf(c: Content): seq<ItemStyle>
      reads this
    {
      match c
      case CvContent => cvElements
      case LetterContent => letterBlocks
    }

    /** Writes the inline style of one content element. */
    method SetItem(c: Content, i: nat, style: ItemStyle)
      requires i < |ItemsOf(c)|
      modifies this
      ensures Model() == WithItems(old(Model()), c, Items(old(Model()), c)[i := style])
    {
      match c {
        case CvContent => cvElements := cvElements[i := style];
        case LetterContent => letterBlocks := letterBlocks[i := style];
      }
    }

    /** animateCVElements and animateLetterElements: each element in turn is
        concealed and its release is scheduled 50 ms later. */
    method AnimateElements(c: Content)
      modifies this
      ensures Model() == Animate(old(Model()), c)
    {
      var items := ItemsOf(c);
      var n := |items|;
      var releases: seq<Timer<Action>> := [];
      var i := 0;
      while i < n
        invariant 0 <= i <= n && |items| == n
        invariant forall j :: 0 <= j < i ==> items[j] == ItemsOf(c)[j].(opacity := 0, offsetY := RiseOffset(c))
        invariant forall j :: i <= j < n ==> items[j] == ItemsOf(c)[j]
        invariant releases == EntranceTimers(clock + RevealMs, nextTimerId, c, i)
      {
        items := items[i := items[i].(opacity := 0, offsetY := RiseOffset(c))];
        releases := releases + [Timer(clock + RevealMs, nextTimerId + i, RevealItem(c, i))];
        i := i + 1;
      }
      assert items == Conceal(ItemsOf(c), RiseOffset(c));
      match c {
        case CvContent => cvElements := items;
        case LetterContent => letterBlocks := items;
      }
      timers := timers + releases;
      nextTimerId := nextTimerId + n;
    }

    /** handleResize: the parallax flag follows the width, and each menu card
        in turn takes the height for the width. */
    method HandleResize()
      modifies this
      ensures Model() == Navigation.HandleResize(old(Model()))
    {
      parallaxEnabled := innerWidth > Breakpoint;
      var height := if innerWidth <= Breakpoint then 320 else 380;
      var heights := menuCardHeights;
      var i := 0;
      while i < |heights|
        invariant 0 <= i <= |heights| && |heights| == |menuCardHeights|
        invariant forall j :: 0 <= j < i ==> heights[j] == CardHeight(innerWidth)
      {
        heights := heights[i := height];
        i := i + 1;
      }
      menuCardHeights := heights;
    }

    /** handleScroll, without the overlay offset. */
    method HandleScroll()
      modifies this
      ensures Model() == Navigation.HandleScroll(old(Model()))
    {
      scrollY := windowScrollY;
    }

    /** The `touchstart` listener. */
    method TouchStart()
      requires Valid()
      modifies this
      ensures Model() == Navigation.TouchStart(old(Model()))
      ensures Valid()
    {
      NavigationInvariant.TouchStartValid(Model());
      parallaxEnabled := false;
    }

    /** The guard of handleParallax: whether it goes on to tilt the menu
        cards. */
    method HandleParallax() returns (tilts: bool)
      ensures tilts ==> parallaxEnabled && |menuCardHeights| > 0
      ensures !parallaxEnabled ==> !tilts
      ensures tilts == ParallaxRuns(Model())
    {
      if !parallaxEnabled {
        return false;
      }
      if |menuCardHeights| == 0 {
        return false;
      }
      tilts := true;
    }

    /** debounce's `executedFunction` on channel `ch`, called with `arg`. */
    method Debounce(ch: Channel, arg: int)
      modifies this
      ensures Model() == Navigation.Debounce(old(Model()), ch, arg)
    {
      if ch in timeouts {
        ClearTimeout(timeouts[ch]);
      }
      var id := SetTimeout(Wait(ch), Later(ch, arg));
      timeouts := timeouts[ch := id];
    }

    /** A window `resize` event to width `w`. */
    method Resize(w: int)
      requires Valid()
      modifies this
      ensures Model() == Navigation.Resize(old(Model()), w)
      ensures Valid()
    {
      NavigationInvariant.DebounceValid(Model(), ResizeChannel, w);
      innerWidth := w;
      Debounce(ResizeChannel, w);
    }

    /** A window `scroll` event to offset `y`. */
    method Scroll(y: int)
      requires Valid()
      modifies this
      ensures Model() == Navigation.Scroll(old(Model()), y)
      ensures Valid()
    {
      NavigationInvariant.DebounceValid(Model(), ScrollChannel, y);
      windowScrollY := y;
      Debounce(ScrollChannel, y);
    }

    /** Runs the callback of a timer. */
    method Fire(a: Action)
      modifies this
      ensures Model() == Navigation.Fire(old(Model()), a)
    {
      match a {
        case EndHide(s) =>
          if s in sectionStyles {
            sectionStyles := sectionStyles[s := sectionStyles[s].(display := DisplayNone)];
          }
        case Settle(name) =>
          ShowSection(name);
          isAnimating := false;
        case Reveal(s) =>
          if s in sectionStyles {
            sectionStyles := sectionStyles[s := sectionStyles[s].(opacity := 1, offsetY := 0)];
          }
          if s == Cv {
            AnimateElements(CvContent);
          } else if s == Letter {
            AnimateElements(LetterContent);
          }
        case RevealItem(c, i) =>
          if i < |ItemsOf(c)| {
            SetItem(c, i, ItemStyle(1, 0, EntranceDelay(c, i), DurationMs(c)));
          }
        case Later(ch, _) =>
          if ch in timeouts {
            ClearTimeout(timeouts[ch]);
          }
          match ch {
            case ResizeChannel => HandleResize();
            case ScrollChannel => HandleScroll();
          }
      }
    }

    /** Index of the timer that fires next: the earliest due, and among those
        the first scheduled. */
    method NextTimer() returns (k: nat)
      requires timers != []
      ensures IsEarliest(timers, k)
      ensures forall j :: 0 <= j < |timers| ==> timers[k].due <= timers[j].due
      ensures IdsIncreasing(timers) ==> k == Earliest(timers)
    {
      k := 0;
      var i := 1;
      while i < |timers|
        invariant 0 <= k < i <= |timers|
        invariant forall j :: 0 <= j < i ==> !Precedes(timers[j], timers[k])
      {
        if Precedes(timers[i], timers[k]) {
          k := i;
        }
        i := i + 1;
      }
      if IdsIncreasing(timers) {
        EarliestUnique(timers, k);
      }
    }

    /** Fires the timer that is first in line, moving the clock to its due
        time. */
    method Step()
      requires Valid() && timers != []
      modifies this
      ensures Model() == Navigation.Step(old(Model()))
      ensures Valid()
    {
      NavigationInvariant.StepValid(Model());
      var k := NextTimer();
      var t := timers[k];
      if t.due > clock {
        clock := t.due;
      }
      timers := timers[..k] + timers[k + 1..];
      Fire(t.action);
    }

    /** One firing on the way to `target`: the state is still on its way to
        the same end, and either the clock has moved or fewer timers are due. */
    method StepToward(target: int)
      requires Valid() && clock <= target && AnyDue(timers, target)
      modifies this
      ensures Valid() && clock <= target
      ensures Run(Model(), target) == Run(old(Model()), target)
      ensures old(clock) <= clock
      ensures clock == old(clock) ==> CountDue(timers, clock) < old(CountDue(timers, clock))
    {
      ghost var before := Model();
      RunSteps(before, target);
      StepProgress(before, target);
      Step();
    }

    /** With nothing due by `target`, the clock moves to `target`. */
    method Idle(target: int)
      requires Valid() && clock <= target && !AnyDue(timers, target)
      modifies this
      ensures Model() == Run(old(Model()), target)
      ensures Valid()
    {
      RunIdles(Model(), target);
      clock := target;
    }

    /** Fires timers until none is due by `target`, then moves the clock to
        `target`: the state `goal` names. */
    method RunUntil(target: int, ghost goal: Page)
      requires Valid() && clock <= target && Run(Model(), target) == goal
      modifies this
      ensures Model() == goal && Valid()
    {
      while AnyDue(timers, target)
        invariant Valid() && clock <= target
        invariant Run(Model(), target) == goal
        decreases target - clock, CountDue(timers, clock)
      {
        StepToward(target);
      }
      Idle(target);
    }

    /** Advances the clock by `dt` milliseconds, firing every timer due by
        then in order, including those fired timers schedule. */
    method Tick(dt: nat)
      requires Valid()
      modifies this
      ensures Model() == Run(old(Model()), old(clock) + dt)
      ensures Valid()
    {
      RunUntil(clock + dt, Run(Model(), clock + dt));
    }
  }
}
