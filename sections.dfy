/** The three page sections, the inline styles the script writes, and the pure
    rules of the presentation script: the section name map, the stagger delays
    of the entrance animations, the order of the CV content elements and the
    resize breakpoint. Pixels and milliseconds are integers. */
module Sections {

  datatype Option<T> = None | Some(value: T)

  /** The three mutually exclusive views of the page. */
  datatype Section = Menu | Cv | Letter

  /** The name the script uses for a section. */
  function Name(s: Section): string {
    match s
    case Menu => "menu"
    case Cv => "cv"
    case Letter => "letter"
  }

  /** The three-entry `sectionMap` of hideSection and showSection: a name
      outside it has no element. Names the object inherits from its
      prototype are treated like any other unknown name. */
  function Lookup(name: string): (r: Option<Section>)
    ensures r.Some? <==> name == "menu" || name == "cv" || name == "letter"
    ensures r.Some? ==> Name(r.value) == name
  {
    if name == "menu" then Some(Menu)
    else if name == "cv" then Some(Cv)
    else if name == "letter" then Some(Letter)
    else None
  }

  /** Looking up a section's own name finds that section. */
  lemma LookupName(s: Section)
    ensures Lookup(Name(s)) == Some(s)
  {
  }

  datatype Display = DisplayNone | DisplayBlock

  /** Inline style of a section element: `display`, `opacity` (0 or 1) and the
      `translateY` offset in pixels. */
  datatype SectionStyle = SectionStyle(display: Display, opacity: int, offsetY: int)

  /** Inline style of one content element of an entrance animation: opacity,
      `translateY` offset in pixels, and the delay and duration of its
      transition in milliseconds. */
  datatype ItemStyle = ItemStyle(opacity: int, offsetY: int, delayMs: int, durationMs: int)

  /** Delay of navigateTo's settle step and of hideSection's `display: none`. */
  const SettleMs: nat := 300
  /** Delay between `display: block` and the fade-in in showSection, and
      between hiding and releasing each content element. */
  const RevealMs: nat := 50
  /** hideSection's `translateY(20px)`. */
  const HideOffset: int := 20

  /** The two entrance animations: the CV content and the letter blocks. */
  datatype Content = CvContent | LetterContent

  /** Stagger per element: 0.1 s for the CV, 0.15 s for the letter. */
  function StaggerMs(c: Content): nat {
    match c
    case CvContent => 100
    case LetterContent => 150
  }

  /** Transition duration per element: 0.6 s for the CV, 0.5 s for the letter. */
  function DurationMs(c: Content): nat {
    match c
    case CvContent => 600
    case LetterContent => 500
  }

  /** Starting offset of each element: 30 px for the CV, 20 px for the letter. */
  function RiseOffset(c: Content): int {
    match c
    case CvContent => 30
    case LetterContent => 20
  }

  /** Transition delay given to the element at `index` of an entrance animation. */
  function EntranceDelay(c: Content, index: nat): nat {
    index * StaggerMs(c)
  }

  /** The first element starts at once, and each later element starts at least
      one stagger step after every earlier one. */
  lemma {:induction false} EntranceDelayOrder(c: Content, i: nat, j: nat)
    requires i < j
    ensures EntranceDelay(c, 0) == 0
    ensures EntranceDelay(c, i) + StaggerMs(c) <= EntranceDelay(c, j)
  {
    if i + 1 < j {
      EntranceDelayOrder(c, i, j - 1);
    } else {
      assert EntranceDelay(c, j) == EntranceDelay(c, i) + StaggerMs(c) by {
        assert j * StaggerMs(c) == i * StaggerMs(c) + StaggerMs(c);
      }
    }
  }

  /** The four classes of CV content elements, in the order the CV entrance
      animation collects them. */
  datatype CvKind = CvCard | TimelineItem | RotaryCard | GalleryItem

  function KindRank(k: CvKind): nat {
    match k
    case CvCard => 0
    case TimelineItem => 1
    case RotaryCard => 2
    case GalleryItem => 3
  }

  /** The list of CV content elements of animateCVElements: the cards, then the
      timeline items, then the rotary cards, then the gallery items. */
  function CvOrder(cards: nat, timeline: nat, rotary: nat, gallery: nat): (r: seq<CvKind>)
    ensures |r| == cards + timeline + rotary + gallery
    ensures forall i :: 0 <= i < |r| ==>
      && (r[i] == CvCard <==> i < cards)
      && (r[i] == TimelineItem <==> cards <= i < cards + timeline)
      && (r[i] == RotaryCard <==> cards + timeline <= i < cards + timeline + rotary)
    ensures forall i, j :: 0 <= i <= j < |r| ==> KindRank(r[i]) <= KindRank(r[j])
  {
    seq(cards, _ => CvCard) + seq(timeline, _ => TimelineItem)
      + seq(rotary, _ => RotaryCard) + seq(gallery, _ => GalleryItem)
  }

  /** Widths above this enable the parallax effect and the tall menu cards. */
  const Breakpoint: int := 768

  function ParallaxAllowed(width: int): bool {
    width > Breakpoint
  }

  /** Menu card height, in pixels, that handleResize writes for a width. */
  function CardHeight(width: int): int {
    if width <= Breakpoint then 320 else 380
  }
}
