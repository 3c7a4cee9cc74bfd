/** The invariant every reachable page state keeps, and its preservation by
    every operation and by the passing of time. */
module NavigationInvariant {
  import opened Sections
  import opened Timers
  import opened Navigation

  /** The queue is in scheduling order, every sequence number has been handed
      out, and nothing pending is overdue. */
  ghost predicate QueueWellFormed(p: Page) {
    && IdsIncreasing(p.timers)
    && (forall t :: t in p.timers ==> t.id < p.nextId && t.due >= p.now)
  }

  /** Each debounced channel has at most one pending `later`: the one its
      `timeout` variable names, holding the window reading of the last call. */
  ghost predicate DebounceWellFormed(p: Page) {
    && (forall ch :: ch in p.pending ==> p.pending[ch] < p.nextId)
    && (forall t, ch :: t in p.timers && ch in p.pending && t.id == p.pending[ch] ==>
          t.action.Later? && t.action.channel == ch)
    && (forall t :: t in p.timers && t.action.Later? ==>
          && t.action.channel in p.pending
          && p.pending[t.action.channel] == t.id
          && t.action.arg == Reading(p, t.action.channel))
  }

  /** The animating flag is up exactly while one settle step is pending; that
      step targets the current section, and the hide step of the same
      navigation, if any, is the only one pending and fires before it. */
  ghost predicate NavigationWellFormed(p: Page) {
    && (p.animating <==> exists t :: t in p.timers && t.action.Settle?)
    && (forall t, u :: t in p.timers && u in p.timers && t.action.Settle? && u.action.Settle? ==> t == u)
    && (forall t :: t in p.timers && t.action.Settle? ==> t.action.target == p.current)
    && (forall t :: t in p.timers && t.action.EndHide? ==> p.animating)
    && (forall t, u :: t in p.timers && u in p.timers && t.action.EndHide? && u.action.EndHide? ==> t == u)
    && (forall t, u :: t in p.timers && u in p.timers && t.action.EndHide? && u.action.Settle? ==> Precedes(t, u))
  }

  /** A displayed section is the current one, or, during a navigation, the one
      whose hide step is still pending. */
  ghost predicate DisplayWellFormed(p: Page) {
    forall s :: s in p.sections && p.sections[s].display == DisplayBlock ==>
      if p.animating then exists t :: t in p.timers && t.action == EndHide(s)
      else Name(s) == p.current
  }

  ghost predicate Valid(p: Page) {
    && QueueWellFormed(p)
    && DebounceWellFormed(p)
    && NavigationWellFormed(p)
    && DisplayWellFormed(p)
  }

  /** `q` agrees with `p` on everything navigation depends on: the flag, the
      current section, which sections are displayed, and the pending hide and
      settle steps. */
  ghost predicate SameNavigation(p: Page, q: Page) {
    && q.current == p.current
    && q.animating == p.animating
    && q.sections.Keys == p.sections.Keys
    && (forall s :: s in p.sections ==> q.sections[s].display == p.sections[s].display)
    && (forall t :: t in q.timers && (t.action.Settle? || t.action.EndHide?) ==> t in p.timers)
    && (forall t :: t in p.timers && (t.action.Settle? || t.action.EndHide?) ==> t in q.timers)
  }

  lemma SameNavigationKeeps(p: Page, q: Page)
    requires NavigationWellFormed(p) && DisplayWellFormed(p) && SameNavigation(p, q)
    ensures NavigationWellFormed(q) && DisplayWellFormed(q)
  {
    if p.animating {
      var t :| t in p.timers && t.action.Settle?;
      assert t in q.timers;
    }
    forall s | s in q.sections && q.sections[s].display == DisplayBlock
      ensures if q.animating then exists t :: t in q.timers && t.action == EndHide(s)
              else Name(s) == q.current
    {
      if q.animating {
        var t :| t in p.timers && t.action == EndHide(s);
        assert t in q.timers;
      }
    }
  }

  /** The release timers of an entrance animation are in scheduling order. */
  lemma EntranceTimersOrdered(due: int, firstId: nat, c: Content, n: nat)
    ensures IdsIncreasing(EntranceTimers(due, firstId, c, n))
    ensures forall t :: t in EntranceTimers(due, firstId, c, n) ==>
      firstId <= t.id < firstId + n && t.due == due && t.action.RevealItem?
  {
  }

  lemma SetTimeoutWellFormed(p: Page, delay: nat, a: Action)
    requires QueueWellFormed(p)
    ensures QueueWellFormed(SetTimeout(p, delay, a))
    ensures forall t :: t in SetTimeout(p, delay, a).timers <==>
      t in p.timers || t == Timer(p.now + delay, p.nextId, a)
  {
    AppendOrdered(p.timers, [Timer(p.now + delay, p.nextId, a)], p.nextId);
  }

  /** Scheduling a callback that is not a debounced `later` keeps the
      debounce bookkeeping. */
  lemma SetTimeoutDebounce(p: Page, delay: nat, a: Action)
    requires QueueWellFormed(p) && DebounceWellFormed(p) && !a.Later?
    ensures DebounceWellFormed(SetTimeout(p, delay, a))
  {
    SetTimeoutWellFormed(p, delay, a);
  }

  /** `q` differs from `p` only in its timers, its clock and its next sequence
      number, in things navigation does not depend on, and in timers that are
      neither navigation steps nor debounced calls, and that are new. */
  ghost predicate Frames(p: Page, q: Page) {
    && QueueWellFormed(q)
    && q.nextId >= p.nextId && q.pending == p.pending
    && q.width == p.width && q.windowScroll == p.windowScroll
    && SameNavigation(p, q)
    && (forall t :: t in q.timers && t.action.Later? ==> t in p.timers)
    && (forall t :: t in q.timers && t !in p.timers ==> t.id >= p.nextId)
  }

  lemma FramesValid(p: Page, q: Page)
    requires Valid(p) && Frames(p, q)
    ensures Valid(q)
  {
    SameNavigationKeeps(p, q);
  }

  /** `p1` is `p` just before the callback of its first timer `t` runs: the
      clock at the timer's due time and the timer out of the queue. */
  ghost predicate Popped(p: Page, p1: Page, t: Timer<Action>) {
    && Valid(p)
    && t in p.timers
    && (forall u :: u in p.timers ==> !Precedes(u, t))
    && p1 == p.(now := t.due, timers := p1.timers)
    && IdsIncreasing(p1.timers)
    && (forall u :: u in p1.timers <==> u in p.timers && u != t)
    && (forall u :: u in p1.timers ==> u.due >= t.due)
  }

  lemma StepPopped(p: Page) returns (p1: Page, t: Timer<Action>)
    requires Valid(p) && p.timers != []
    ensures Popped(p, p1, t) && Step(p) == Fire(p1, t.action)
  {
    var k := Earliest(p.timers);
    t := p.timers[k];
    p1 := p.(now := t.due, timers := Remove(p.timers, k));
    RemoveMembers(p.timers, k);
    forall u | u in p.timers && u != t ensures u.id != t.id {
      OtherIds(p.timers, k, u);
    }
    forall u | u in p.timers ensures !Precedes(u, t) {
      var j :| 0 <= j < |p.timers| && p.timers[j] == u;
    }
  }

  lemma PoppedFrames(p: Page, p1: Page, t: Timer<Action>)
    requires Popped(p, p1, t) && !t.action.Settle? && !t.action.EndHide?
    ensures Valid(p1)
  {
    assert Frames(p, p1);
    FramesValid(p, p1);
  }

  /** The queue and debounce parts of the invariant survive popping the
      first timer. */
  lemma PoppedQueue(p: Page, p1: Page, t: Timer<Action>)
    requires Popped(p, p1, t)
    ensures QueueWellFormed(p1) && DebounceWellFormed(p1)
  {
  }

  /** A change to the section styles alone keeps the queue and debounce parts
      of the invariant. */
  lemma RestyledQueue(p: Page, q: Page)
    requires QueueWellFormed(p) && DebounceWellFormed(p)
    requires q == p.(sections := q.sections)
    ensures QueueWellFormed(q) && DebounceWellFormed(q)
  {
  }

  function Undisplay(p: Page, s: Section): Page {
    if s in p.sections then p.(sections := p.sections[s := p.sections[s].(display := DisplayNone)]) else p
  }

  lemma EndHideNavigation(p: Page, p1: Page, t: Timer<Action>)
    requires NavigationWellFormed(p) && DisplayWellFormed(p)
    requires t in p.timers && t.action.EndHide?
    requires p1 == p.(now := t.due, timers := p1.timers)
    requires forall u :: u in p1.timers <==> u in p.timers && u != t
    ensures NavigationWellFormed(Undisplay(p1, t.action.section))
    ensures DisplayWellFormed(Undisplay(p1, t.action.section))
  {
    var r := Undisplay(p1, t.action.section);
    var u :| u in p.timers && u.action.Settle?;
    assert u in r.timers;
    forall s' | s' in r.sections && r.sections[s'].display == DisplayBlock
      ensures false
    {
      var v :| v in p.timers && v.action == EndHide(s');
    }
  }

  lemma FireEndHideValid(p: Page, p1: Page, t: Timer<Action>)
    requires Popped(p, p1, t) && t.action.EndHide?
    ensures Valid(Fire(p1, t.action))
  {
    var r := Undisplay(p1, t.action.section);
    assert Fire(p1, t.action) == r;
    PoppedQueue(p, p1, t);
    RestyledQueue(p1, r);
    EndHideNavigation(p, p1, t);
  }

  lemma FireSettleValid(p: Page, p1: Page, t: Timer<Action>)
    requires Popped(p, p1, t) && t.action.Settle?
    ensures Valid(Fire(p1, t.action))
  {
    var name := t.action.target;
    assert p.animating;
    assert forall u :: u in p.timers ==> !u.action.EndHide?;
    assert forall u :: u in p1.timers ==> !u.action.Settle? && !u.action.EndHide?;
    assert forall s :: s in p.sections ==> p.sections[s].display == DisplayNone;
    var cleared := p1.(animating := false);
    assert Valid(cleared);
    ShowValid(cleared, name);
    assert Fire(p1, t.action) == Show(cleared, name);
  }

  /** showSection, in a settled state whose sections are all out of the
      layout, displays the current section and keeps the invariant. */
  lemma ShowValid(p: Page, name: string)
    requires Valid(p) && !p.animating && name == p.current
    requires forall s :: s in p.sections ==> p.sections[s].display == DisplayNone
    ensures Valid(Show(p, name))
  {
    match Lookup(name)
    case Some(s) =>
      if s in p.sections {
        var shown := p.sections[s].(display := DisplayBlock);
        var p2 := p.(sections := p.sections[s := shown]);
        SetTimeoutWellFormed(p2, RevealMs, Reveal(s));
        var r := Show(p, name);
        assert r == SetTimeout(p2, RevealMs, Reveal(s));
        assert forall u :: u in r.timers ==> !u.action.Settle? && !u.action.EndHide?;
        assert DebounceWellFormed(r);
      }
    case None =>
  }

  lemma AnimateValid(p: Page, c: Content)
    requires Valid(p)
    ensures Valid(Animate(p, c))
  {
    var n := |Items(p, c)|;
    var b := EntranceTimers(p.now + RevealMs, p.nextId, c, n);
    var r := Animate(p, c);
    EntranceTimersOrdered(p.now + RevealMs, p.nextId, c, n);
    AppendOrdered(p.timers, b, p.nextId);
    assert r.timers == p.timers + b;
    assert Frames(p, r);
    FramesValid(p, r);
  }

  lemma FireRevealValid(p: Page, p1: Page, t: Timer<Action>)
    requires Popped(p, p1, t) && t.action.Reveal?
    ensures Valid(Fire(p1, t.action))
  {
    PoppedFrames(p, p1, t);
    var s := t.action.section;
    var shown :=
      if s in p1.sections then p1.(sections := p1.sections[s := p1.sections[s].(opacity := 1, offsetY := 0)])
      else p1;
    assert Frames(p1, shown);
    FramesValid(p1, shown);
    if s == Cv {
      AnimateValid(shown, CvContent);
    } else if s == Letter {
      AnimateValid(shown, LetterContent);
    }
  }

  lemma FireRevealItemValid(p: Page, p1: Page, t: Timer<Action>)
    requires Popped(p, p1, t) && t.action.RevealItem?
    ensures Valid(Fire(p1, t.action))
  {
    PoppedFrames(p, p1, t);
    var r := Fire(p1, t.action);
    assert Frames(p1, r);
    FramesValid(p1, r);
  }

  /** Cancelling the timer a channel's `timeout` names removes nothing but a
      `later` of that channel. */
  lemma CancelPendingValid(p: Page, ch: Channel)
    requires Valid(p) && ch in p.pending
    ensures Valid(ClearTimeout(p, p.pending[ch]))
    ensures forall t :: t in ClearTimeout(p, p.pending[ch]).timers ==> t in p.timers
    ensures forall t :: t in ClearTimeout(p, p.pending[ch]).timers ==> !(t.action.Later? && t.action.channel == ch)
  {
    var r := ClearTimeout(p, p.pending[ch]);
    CancelOrdered(p.timers, p.pending[ch]);
    assert Frames(p, r);
    FramesValid(p, r);
  }

  lemma HandleValid(p: Page, ch: Channel)
    requires Valid(p)
    ensures Valid(Handle(p, ch))
  {
    assert Frames(p, Handle(p, ch));
    FramesValid(p, Handle(p, ch));
  }

  lemma FireLaterValid(p: Page, p1: Page, t: Timer<Action>)
    requires Popped(p, p1, t) && t.action.Later?
    ensures Valid(Fire(p1, t.action))
  {
    PoppedFrames(p, p1, t);
    var ch := t.action.channel;
    assert ch in p1.pending;
    var cleared := ClearTimeout(p1, p1.pending[ch]);
    assert Fire(p1, t.action) == Handle(cleared, ch);
    CancelPendingValid(p1, ch);
    HandleValid(cleared, ch);
  }

  /** Firing the first timer keeps the invariant. */
  lemma StepValid(p: Page)
    requires Valid(p) && p.timers != []
    ensures Valid(Step(p))
  {
    var p1, t := StepPopped(p);
    match t.action
    case EndHide(_) => FireEndHideValid(p, p1, t);
    case Settle(_) => FireSettleValid(p, p1, t);
    case Reveal(_) => FireRevealValid(p, p1, t);
    case RevealItem(_, _) => FireRevealItemValid(p, p1, t);
    case Later(_, _) => FireLaterValid(p, p1, t);
  }

  /** Advancing the clock keeps the invariant. */
  lemma {:induction false} RunValid(p: Page, target: int)
    requires Valid(p) && p.now <= target
    ensures Valid(Run(p, target))
    decreases target - p.now, CountDue(p.timers, p.now)
  {
    if AnyDue(p.timers, target) {
      StepProgress(p, target);
      StepValid(p);
      RunValid(Step(p), target);
    } else {
      assert forall t :: t in p.timers ==> t.due > target;
    }
  }

  /** hideSection adds at most its own `display: none` step to the queue. */
  lemma HideQueue(p: Page, name: string)
    requires QueueWellFormed(p) && DebounceWellFormed(p)
    ensures QueueWellFormed(Hide(p, name)) && DebounceWellFormed(Hide(p, name))
    ensures Hide(p, name).now == p.now && Hide(p, name).current == p.current
    ensures Hide(p, name).animating == p.animating
    ensures Hide(p, name).sections.Keys == p.sections.Keys
    ensures forall s :: s in p.sections ==> Hide(p, name).sections[s].display == p.sections[s].display
    ensures forall t :: t in Hide(p, name).timers ==>
      t in p.timers || (Lookup(name).Some? && t == Timer(p.now + SettleMs, p.nextId, EndHide(Lookup(name).value)))
    ensures Lookup(name).Some? && Lookup(name).value in p.sections ==>
      Timer(p.now + SettleMs, p.nextId, EndHide(Lookup(name).value)) in Hide(p, name).timers
    ensures Lookup(name).Some? && Lookup(name).value in p.sections ==> Hide(p, name).nextId == p.nextId + 1
    ensures !(Lookup(name).Some? && Lookup(name).value in p.sections) ==> Hide(p, name) == p
  {
    match Lookup(name)
    case Some(s) =>
      if s in p.sections {
        var st := p.sections[s].(opacity := 0, offsetY := HideOffset);
        var p2 := p.(sections := p.sections[s := st]);
        SetTimeoutWellFormed(p2, SettleMs, EndHide(s));
        SetTimeoutDebounce(p2, SettleMs, EndHide(s));
      }
    case None =>
  }

  /** A settled state that gains a settle step and possibly one hide step
      before it, where the hide step is for every displayed section, starts a
      well-formed transition. */
  lemma StartTransition(p: Page, r: Page, hideStep: Timer<Action>, settle: Timer<Action>)
    requires NavigationWellFormed(p) && DisplayWellFormed(p) && !p.animating
    requires r.animating && settle == Timer(settle.due, settle.id, Settle(r.current)) && settle in r.timers
    requires hideStep.action.EndHide? && (hideStep in r.timers ==> Precedes(hideStep, settle))
    requires forall u :: u in r.timers ==> u in p.timers || u == settle || u == hideStep
    requires r.sections.Keys == p.sections.Keys
    requires forall s :: s in p.sections ==> r.sections[s].display == p.sections[s].display
    requires forall s :: s in p.sections && p.sections[s].display == DisplayBlock ==>
      hideStep in r.timers && hideStep.action == EndHide(s)
    ensures NavigationWellFormed(r) && DisplayWellFormed(r)
  {
    assert forall u :: u in p.timers ==> !u.action.Settle? && !u.action.EndHide?;
  }

  /** The settle step scheduled after the hide step, or after nothing when
      the section left has no element. */
  lemma SettleSteps(p: Page, hidden: Page, name: string, section: Section, hideAdded: bool)
    returns (hideStep: Timer<Action>, settle: Timer<Action>)
    requires QueueWellFormed(p)
    requires hidden.animating && hidden.current == name && hidden.now == p.now
    requires hidden.sections.Keys == p.sections.Keys
    requires forall s :: s in p.sections ==> hidden.sections[s].display == p.sections[s].display
    requires forall t :: t in hidden.timers ==>
      t in p.timers || (hideAdded && t == Timer(p.now + SettleMs, p.nextId, EndHide(section)))
    requires hideAdded ==> Timer(p.now + SettleMs, p.nextId, EndHide(section)) in hidden.timers
    requires hideAdded ==> hidden.nextId == p.nextId + 1
    requires !hideAdded ==> hidden.timers == p.timers && hidden.nextId == p.nextId
    requires forall s :: s in p.sections && p.sections[s].display == DisplayBlock ==> hideAdded && s == section
    ensures var r := SetTimeout(hidden, SettleMs, Settle(name));
      && r.animating && settle in r.timers
      && settle == Timer(settle.due, settle.id, Settle(r.current))
      && hideStep.action.EndHide? && (hideStep in r.timers ==> Precedes(hideStep, settle))
      && (forall u :: u in r.timers ==> u in p.timers || u == settle || u == hideStep)
      && r.sections.Keys == p.sections.Keys
      && (forall s :: s in p.sections ==> r.sections[s].display == p.sections[s].display)
      && (forall s :: s in p.sections && p.sections[s].display == DisplayBlock ==>
            hideStep in r.timers && hideStep.action == EndHide(s))
  {
    settle := Timer(p.now + SettleMs, hidden.nextId, Settle(name));
    hideStep := Timer(p.now + SettleMs, p.nextId, EndHide(section));
    if !hideAdded {
      assert hideStep !in p.timers;
    }
  }

  /** The two steps navigateTo schedules: the hide step of the section it
      leaves, which covers every displayed section, and the settle step after it. */
  lemma NavigateSteps(p: Page, name: string) returns (hideStep: Timer<Action>, settle: Timer<Action>)
    requires QueueWellFormed(p) && DebounceWellFormed(p)
    requires !p.animating && p.current != name
    requires forall s :: s in p.sections && p.sections[s].display == DisplayBlock ==> Name(s) == p.current
    ensures Navigate(p, name).animating && settle in Navigate(p, name).timers
    ensures settle == Timer(settle.due, settle.id, Settle(Navigate(p, name).current))
    ensures hideStep.action.EndHide? && (hideStep in Navigate(p, name).timers ==> Precedes(hideStep, settle))
    ensures forall u :: u in Navigate(p, name).timers ==> u in p.timers || u == settle || u == hideStep
    ensures Navigate(p, name).sections.Keys == p.sections.Keys
    ensures forall s :: s in p.sections ==> Navigate(p, name).sections[s].display == p.sections[s].display
    ensures forall s :: s in p.sections && p.sections[s].display == DisplayBlock ==>
      hideStep in Navigate(p, name).timers && hideStep.action == EndHide(s)
  {
    var prev := p.current;
    var p0 := p.(animating := true, current := name);
    HideQueue(p0, prev);
    var hideAdded := Lookup(prev).Some? && Lookup(prev).value in p.sections;
    var section := if Lookup(prev).Some? then Lookup(prev).value else Menu;
    forall s | s in p.sections && p.sections[s].display == DisplayBlock
      ensures hideAdded && s == section
    {
      LookupName(s);
    }
    hideStep, settle := SettleSteps(p, Hide(p0, prev), name, section, hideAdded);
  }

  /** The navigation and display parts of the invariant after navigateTo
      starts a transition. */
  lemma NavigateNavigation(p: Page, name: string)
    requires NavigationWellFormed(p) && DisplayWellFormed(p) && QueueWellFormed(p) && DebounceWellFormed(p)
    requires !p.animating && p.current != name
    ensures NavigationWellFormed(Navigate(p, name)) && DisplayWellFormed(Navigate(p, name))
  {
    var hideStep, settle := NavigateSteps(p, name);
    StartTransition(p, Navigate(p, name), hideStep, settle);
  }

  /** navigateTo keeps the invariant. */
  lemma NavigateValid(p: Page, name: string)
    requires Valid(p)
    ensures Valid(Navigate(p, name))
  {
    if !p.animating && p.current != name {
      var p0 := p.(animating := true, current := name);
      var hidden := Hide(p0, p.current);
      HideQueue(p0, p.current);
      SetTimeoutWellFormed(hidden, SettleMs, Settle(name));
      SetTimeoutDebounce(hidden, SettleMs, Settle(name));
      NavigateNavigation(p, name);
    }
  }

  /** With no `later` of a channel pending, its window reading may change. */
  lemma ReadingValid(p: Page, ch: Channel, v: int)
    requires Valid(p)
    requires forall t :: t in p.timers ==> !(t.action.Later? && t.action.channel == ch)
    ensures Valid(WithReading(p, ch, v))
  {
    var q := WithReading(p, ch, v);
    assert SameNavigation(p, q);
    SameNavigationKeeps(p, q);
  }

  /** Scheduling the one `later` of a channel, holding its current reading,
      and recording it in the channel's `timeout` keeps the invariant. */
  lemma ScheduleLaterValid(p: Page, ch: Channel, arg: int)
    requires Valid(p) && arg == Reading(p, ch)
    requires forall t :: t in p.timers ==> !(t.action.Later? && t.action.channel == ch)
    ensures Valid(SetTimeout(p, Wait(ch), Later(ch, arg)).(pending := p.pending[ch := p.nextId]))
  {
    var r := SetTimeout(p, Wait(ch), Later(ch, arg)).(pending := p.pending[ch := p.nextId]);
    SetTimeoutWellFormed(p, Wait(ch), Later(ch, arg));
    assert SameNavigation(p, r);
    SameNavigationKeeps(p, r);
  }

  /** A debounced call, after the window reading it reports, keeps the invariant. */
  lemma DebounceValid(p: Page, ch: Channel, arg: int)
    requires Valid(p)
    ensures Valid(Debounce(WithReading(p, ch, arg), ch, arg))
  {
    var cleared := if ch in p.pending then ClearTimeout(p, p.pending[ch]) else p;
    if ch in p.pending {
      CancelPendingValid(p, ch);
    }
    assert forall t :: t in cleared.timers ==> !(t.action.Later? && t.action.channel == ch);
    ReadingValid(cleared, ch, arg);
    var read := WithReading(cleared, ch, arg);
    ScheduleLaterValid(read, ch, arg);
    assert Debounce(WithReading(p, ch, arg), ch, arg)
        == SetTimeout(read, Wait(ch), Later(ch, arg)).(pending := read.pending[ch := read.nextId]);
  }

  lemma TouchStartValid(p: Page)
    requires Valid(p)
    ensures Valid(TouchStart(p))
  {
    assert SameNavigation(p, TouchStart(p));
    SameNavigationKeeps(p, TouchStart(p));
  }
}
