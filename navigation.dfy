/** The state of the presentation script as one value, and each of its
    operations as a function from the state before to the state after.

    A `Page` holds the script's `state` object (current section, the
    animating flag, the parallax flag, the recorded scroll offset), the two
    window readings the handlers consult, the inline styles of the three
    section elements, of the CV and letter content elements and of the menu
    cards, and the timer machinery: a virtual clock, the queue of pending
    `setTimeout` callbacks, the next sequence number, and the `timeout`
    variable of each debounced handler. A section element missing from the
    document is a section missing from `sections`. */
module Navigation {
  import opened Sections
  import opened Timers

  /** The two debounced handlers: window resize and window scroll. */
  datatype Channel = ResizeChannel | ScrollChannel

  /** Quiet window of each debounced handler, in milliseconds. */
  function Wait(ch: Channel): nat {
    match ch
    case ResizeChannel => 250
    case ScrollChannel => 16
  }

  /** The callbacks the script hands to `setTimeout`. */
  datatype Action =
    | /** hideSection's delayed `display: none` */
      EndHide(section: Section)
    | /** navigateTo's delayed step: show the target, clear the flag */
      Settle(target: string)
    | /** showSection's delayed fade-in and entrance animation */
      Reveal(section: Section)
    | /** the delayed release of one content element of an entrance animation */
      RevealItem(content: Content, index: nat)
    | /** debounce's `later`, holding the arguments of the call that scheduled it */
      Later(channel: Channel, arg: int)

  datatype Page = Page(
    current: string,
    animating: bool,
    parallax: bool,
    scrollY: int,
    width: int,
    windowScroll: int,
    sections: map<Section, SectionStyle>,
    // in the order `CvOrder` gives: cards, timeline, rotary cards, gallery
    cvItems: seq<ItemStyle>,
    letterItems: seq<ItemStyle>,
    cardHeights: seq<int>,
    now: int,
    timers: seq<Timer<Action>>,
    nextId: nat,
    pending: map<Channel, nat>)

  /** `setTimeout(a, delay)`. */
  function SetTimeout(p: Page, delay: nat, a: Action): Page {
    p.(timers := p.timers + [Timer(p.now + delay, p.nextId, a)], nextId := p.nextId + 1)
  }

  /** `clearTimeout(id)`. */
  function ClearTimeout(p: Page, id: nat): Page {
    p.(timers := Cancel(p.timers, id))
  }

  /** hideSection: fade the element out and move it down at once, and take it
      out of the layout 300 ms later. */
  function Hide(p: Page, name: string): Page {
    match Lookup(name)
    case Some(s) =>
      if s in p.sections then
        var hidden := p.sections[s].(opacity := 0, offsetY := HideOffset);
        SetTimeout(p.(sections := p.sections[s := hidden]), SettleMs, EndHide(s))
      else p
    case None => p
  }

  /** showSection: put the element back in the layout at once, and fade it in
      50 ms later. */
  function Show(p: Page, name: string): Page {
    match Lookup(name)
    case Some(s) =>
      if s in p.sections then
        var shown := p.sections[s].(display := DisplayBlock);
        SetTimeout(p.(sections := p.sections[s := shown]), RevealMs, Reveal(s))
      else p
    case None => p
  }

  /** navigateTo. */
  function Navigate(p: Page, name: string): (r: Page)
    ensures p.animating || p.current == name ==> r == p
    ensures !p.animating && p.current != name ==> r.animating && r.current == name
  {
    if p.animating || p.current == name then p
    else SetTimeout(Hide(p.(animating := true, current := name), p.current), SettleMs, Settle(name))
  }

  /** The content elements of an entrance animation. */
  function Items(p: Page, c: Content): seq<ItemStyle> {
    match c
    case CvContent => p.cvItems
    case LetterContent => p.letterItems
  }

  function WithItems(p: Page, c: Content, items: seq<ItemStyle>): Page {
    match c
    case CvContent => p.(cvItems := items)
    case LetterContent => p.(letterItems := items)
  }

  /** Every element made transparent and moved down by `offset`. */
  function Conceal(items: seq<ItemStyle>, offset: int): seq<ItemStyle> {
    seq(|items|, i requires 0 <= i < |items| => items[i].(opacity := 0, offsetY := offset))
  }

  /** One release timer per element, all due at `due`, scheduled in element order. */
  function EntranceTimers(due: int, firstId: nat, c: Content, n: nat): seq<Timer<Action>> {
    seq(n, i requires 0 <= i < n => Timer(due, firstId + i, RevealItem(c, i)))
  }

  /** animateCVElements and animateLetterElements: conceal every element now
      and release each one 50 ms later. */
  function Animate(p: Page, c: Content): Page {
    var n := |Items(p, c)|;
    WithItems(p, c, Conceal(Items(p, c), RiseOffset(c))).(
      timers := p.timers + EntranceTimers(p.now + RevealMs, p.nextId, c, n),
      nextId := p.nextId + n)
  }

  /** handleResize. */
  function HandleResize(p: Page): Page {
    p.(parallax := ParallaxAllowed(p.width),
       cardHeights := seq(|p.cardHeights|, _ => CardHeight(p.width)))
  }

  /** handleScroll, without the overlay offset. */
  function HandleScroll(p: Page): Page {
    p.(scrollY := p.windowScroll)
  }

  /** The function each debounced channel wraps. Both read the window rather
      than their arguments. */
  function Handle(p: Page, ch: Channel): Page {
    match ch
    case ResizeChannel => HandleResize(p)
    case ScrollChannel => HandleScroll(p)
  }

  /** What a timer's callback does when it runs at `p.now`. */
  function Fire(p: Page, a: Action): Page {
    match a
    case EndHide(s) =>
      if s in p.sections then p.(sections := p.sections[s := p.sections[s].(display := DisplayNone)])
      else p
    case Settle(name) =>
      Show(p, name).(animating := false)
    case Reveal(s) =>
      var shown :=
        if s in p.sections then p.(sections := p.sections[s := p.sections[s].(opacity := 1, offsetY := 0)])
        else p;
      if s == Cv then Animate(shown, CvContent)
      else if s == Letter then Animate(shown, LetterContent)
      else shown
    case RevealItem(c, i) =>
      var items := Items(p, c);
      if i < |items| then
        WithItems(p, c, items[i := ItemStyle(1, 0, EntranceDelay(c, i), DurationMs(c))])
      else p
    case Later(ch, _) =>
      var cleared := if ch in p.pending then ClearTimeout(p, p.pending[ch]) else p;
      Handle(cleared, ch)
  }

  /** The debounced wrapper `executedFunction` of channel `ch`, called with `arg`. */
  function Debounce(p: Page, ch: Channel, arg: int): Page {
    var cleared := if ch in p.pending then ClearTimeout(p, p.pending[ch]) else p;
    SetTimeout(cleared, Wait(ch), Later(ch, arg)).(pending := cleared.pending[ch := cleared.nextId])
  }

  /** The window reading the handler of `ch` consults. */
  function Reading(p: Page, ch: Channel): int {
    match ch
    case ResizeChannel => p.width
    case ScrollChannel => p.windowScroll
  }

  function WithReading(p: Page, ch: Channel, v: int): Page {
    match ch
    case ResizeChannel => p.(width := v)
    case ScrollChannel => p.(windowScroll := v)
  }

  /** A window `resize` event: the window takes width `w` and the debounced
      resize handler is called. */
  function Resize(p: Page, w: int): Page {
    Debounce(WithReading(p, ResizeChannel, w), ResizeChannel, w)
  }

  /** A window `scroll` event to offset `y`. */
  function Scroll(p: Page, y: int): Page {
    Debounce(WithReading(p, ScrollChannel, y), ScrollChannel, y)
  }

  /** The `touchstart` listener. */
  function TouchStart(p: Page): Page {
    p.(parallax := false)
  }

  /** handleParallax goes on to tilt the menu cards. */
  function ParallaxRuns(p: Page): bool {
    p.parallax && |p.cardHeights| > 0
  }

  /** Fire the timer that is first in line; the clock moves to its due time. */
  function Step(p: Page): Page
    requires p.timers != []
  {
    var k := Earliest(p.timers);
    var t := p.timers[k];
    var at := if t.due > p.now then t.due else p.now;
    Fire(p.(now := at, timers := Remove(p.timers, k)), t.action)
  }

  /** Advance the clock to `target`, firing every timer due by then in order,
      including those that fired timers schedule. */
  function Run(p: Page, target: int): Page
    requires p.now <= target
    decreases target - p.now, CountDue(p.timers, p.now)
  {
    if !AnyDue(p.timers, target) then p.(now := target)
    else
      StepProgress(p, target);
      Run(Step(p), target)
  }

  /** With a timer due by `target`, advancing the clock starts by firing the
      first one. */
  lemma RunSteps(p: Page, target: int)
    requires p.now <= target && AnyDue(p.timers, target)
    ensures p.timers != [] && Step(p).now <= target
    ensures Run(p, target) == Run(Step(p), target)
  {
    StepProgress(p, target);
  }

  /** With nothing due by `target`, advancing the clock only moves it. */
  lemma RunIdles(p: Page, target: int)
    requires p.now <= target && !AnyDue(p.timers, target)
    ensures Run(p, target) == p.(now := target)
  {
  }

  /** A callback keeps the clock and schedules nothing that is already due. */
  lemma FireSchedulesLater(p: Page, a: Action)
    ensures Fire(p, a).now == p.now
    ensures CountDue(Fire(p, a).timers, p.now) <= CountDue(p.timers, p.now)
  {
    match a
    case EndHide(s) =>
    case Settle(name) =>
      ShowSchedulesLater(p, name);
    case Reveal(s) =>
      var shown :=
        if s in p.sections then p.(sections := p.sections[s := p.sections[s].(opacity := 1, offsetY := 0)])
        else p;
      if s == Cv {
        AnimateSchedulesLater(shown, CvContent);
      } else if s == Letter {
        AnimateSchedulesLater(shown, LetterContent);
      }
    case RevealItem(c, i) =>
    case Later(ch, _) =>
      if ch in p.pending {
        CountDueCancel(p.timers, p.pending[ch], p.now);
      }
  }

  lemma ShowSchedulesLater(p: Page, name: string)
    ensures Show(p, name).now == p.now
    ensures CountDue(Show(p, name).timers, p.now) == CountDue(p.timers, p.now)
  {
    match Lookup(name)
    case Some(s) =>
      if s in p.sections {
        CountDueAppendLater(p.timers, [Timer(p.now + RevealMs, p.nextId, Reveal(s))], p.now);
      }
    case None =>
  }

  lemma AnimateSchedulesLater(p: Page, c: Content)
    ensures Animate(p, c).now == p.now
    ensures CountDue(Animate(p, c).timers, p.now) == CountDue(p.timers, p.now)
  {
    CountDueAppendLater(p.timers, EntranceTimers(p.now + RevealMs, p.nextId, c, |Items(p, c)|), p.now);
  }

  /** Firing the first timer either moves the clock forward or, at the same
      time, leaves fewer timers due: the measure that makes Run terminate. */
  lemma StepProgress(p: Page, target: int)
    requires p.now <= target && AnyDue(p.timers, target)
    ensures p.timers != []
    ensures p.now <= Step(p).now <= target
    ensures Step(p).now == p.now ==> CountDue(Step(p).timers, p.now) < CountDue(p.timers, p.now)
  {
    var i :| 0 <= i < |p.timers| && p.timers[i].due <= target;
    var k := Earliest(p.timers);
    var t := p.timers[k];
    var at := if t.due > p.now then t.due else p.now;
    var p1 := p.(now := at, timers := Remove(p.timers, k));
    FireSchedulesLater(p1, t.action);
    CountDueRemove(p.timers, k, p.now);
  }
}
