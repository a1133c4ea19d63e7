/** The home page's hero video (`components/HeroVideo.tsx`): two stacked
    `<video>` elements cross-fade through five clips. One element shows the
    current clip while the hidden one holds the next clip, already loaded;
    `goToNext` starts the fade and plays the hidden element, and when the fade
    timer fires the index advances and the roles of the two elements swap.
    Sources are never changed under a visible element, so nothing flickers. */
module HeroVideoModel {
  import opened Common

  /** `videos` */
  const Videos: seq<string> := [
    "/videos/motion_1.mp4", "/videos/motion_2.mp4", "/videos/motion_3.mp4",
    "/videos/motion_4.mp4", "/videos/motion_5.mp4"]

  /** `MAX_DURATION`: seconds a clip plays before the next one is started. */
  const MaxDuration: real := 5.0

  /** `ref0`/`ref1`: the first and the second `<video>` element. */
  datatype Element = Video0 | Video1 {
    function Other(): Element {
      if this == Video0 then Video1 else Video0
    }
  }

  /** `(videoIndex + 1) % videos.length` */
  function NextIndex(i: int): (r: int)
    requires 0 <= i < |Videos|
    ensures 0 <= r < |Videos|
    ensures r == if i == |Videos| - 1 then 0 else i + 1
  {
    (i + 1) % |Videos|
  }

  /** `visible0`/`visible1`: the element with opacity 1. */
  predicate Visible(el: Element, showingFirst: bool, isTransitioning: bool) {
    if el == Video0 then (if showingFirst then !isTransitioning else isTransitioning)
    else (if showingFirst then isTransitioning else !isTransitioning)
  }

  /** The `src` of an element: the first shows the current clip while
      `showingFirst` and the next clip otherwise, the second the reverse. */
  function Src(el: Element, videoIndex: int, showingFirst: bool): string
    requires 0 <= videoIndex < |Videos|
  {
    if (el == Video0) == showingFirst then Videos[videoIndex] else Videos[NextIndex(videoIndex)]
  }

  /** The element that is on screen. */
  function VisibleElement(showingFirst: bool, isTransitioning: bool): (el: Element)
    ensures Visible(el, showingFirst, isTransitioning)
    ensures !Visible(el.Other(), showingFirst, isTransitioning)
  {
    if showingFirst != isTransitioning then Video0 else Video1
  }

  /** In every state exactly one of the two elements is visible. */
  lemma ExactlyOneVisible(showingFirst: bool, isTransitioning: bool)
    ensures Visible(Video0, showingFirst, isTransitioning) != Visible(Video1, showingFirst, isTransitioning)
  {
  }

  /** The visible element shows the current clip when idle and the next clip
      while a fade is running. */
  lemma VisibleSource(videoIndex: int, showingFirst: bool, isTransitioning: bool)
    requires 0 <= videoIndex < |Videos|
    ensures Src(VisibleElement(showingFirst, isTransitioning), videoIndex, showingFirst)
      == if isTransitioning then Videos[NextIndex(videoIndex)] else Videos[videoIndex]
  {
  }

  /** When a fade starts, the hidden element (the one `goToNext` plays) already
      holds the next clip and is the one that becomes visible. */
  lemma HiddenHoldsNext(videoIndex: int, showingFirst: bool)
    requires 0 <= videoIndex < |Videos|
    ensures var hidden := VisibleElement(showingFirst, false).Other();
      Src(hidden, videoIndex, showingFirst) == Videos[NextIndex(videoIndex)]
      && hidden == VisibleElement(showingFirst, true)
  {
  }

  /** When the fade completes, the visible element and its source stay the
      same: the swap of roles does not reload what is on screen. */
  lemma FadeKeepsPicture(videoIndex: int, showingFirst: bool)
    requires 0 <= videoIndex < |Videos|
    ensures VisibleElement(!showingFirst, false) == VisibleElement(showingFirst, true)
    ensures Src(VisibleElement(!showingFirst, false), NextIndex(videoIndex), !showingFirst)
      == Src(VisibleElement(showingFirst, true), videoIndex, showingFirst)
  {
  }

  /** The index and element role the timer callback of `goToNext` will set. */
  datatype Fade = Fade(videoIndex: int, showingFirst: bool)

  /** One completed transition. */
  function Advance(f: Fade): (g: Fade)
    requires 0 <= f.videoIndex < |Videos|
    ensures 0 <= g.videoIndex < |Videos|
  {
    Fade(NextIndex(f.videoIndex), !f.showingFirst)
  }

  /** `n` completed transitions in a row. */
  function AdvanceN(f: Fade, n: nat): (g: Fade)
    requires 0 <= f.videoIndex < |Videos|
    ensures 0 <= g.videoIndex < |Videos|
    decreases n
  {
    if n == 0 then f else AdvanceN(Advance(f), n - 1)
  }

  /** After `n` transitions the index has moved `n` places round the five clips
      and the element role has flipped `n` times. */
  lemma {:induction false} AdvanceNShape(f: Fade, n: nat)
    requires 0 <= f.videoIndex < |Videos|
    ensures AdvanceN(f, n) == Fade((f.videoIndex + n) % |Videos|, if n % 2 == 0 then f.showingFirst else !f.showingFirst)
    decreases n
  {
    if n > 0 {
      var g := Advance(f);
      AdvanceNShape(g, n - 1);
      assert (g.videoIndex + (n - 1)) % |Videos| == (f.videoIndex + n) % |Videos|;
      assert ((n - 1) % 2 == 0) == (n % 2 != 0);
    }
  }

  /** A multiple of five transitions brings back the starting clip: five of
      them show it on the other element, ten bring back the starting state. */
  lemma FadesCycle(f: Fade, n: nat)
    requires 0 <= f.videoIndex < |Videos| && n % |Videos| == 0
    ensures AdvanceN(f, n).videoIndex == f.videoIndex
    ensures n == 5 ==> AdvanceN(f, n) == Fade(f.videoIndex, !f.showingFirst)
    ensures n == 10 ==> AdvanceN(f, n) == f
  {
    AdvanceNShape(f, n);
  }

  class HeroVideo {
    var videoIndex: int
    var showingFirst: bool
    var isTransitioning: bool
    /** The update queued by `setTimeout` in `goToNext`, with the values its
        closure captured; `None` when no timer is pending. */
    var pendingFade: Option<Fade>

    /** The index is a clip, a timer is pending exactly while a transition
        runs, and it will advance the state the transition started from. */
    ghost predicate Valid()
      reads this
    {
      0 <= videoIndex < |Videos|
      && (isTransitioning <==> pendingFade.Some?)
      && (pendingFade.Some? ==> pendingFade.value == Advance(Fade(videoIndex, showingFirst)))
    }

    /** The initial state: clip 0 on the first element, no transition. */
    constructor()
      ensures Valid()
      ensures videoIndex == 0 && showingFirst && !isTransitioning
    {
      videoIndex, showingFirst, isTransitioning := 0, true, false;
      pendingFade := None;
    }

    /** `goToNext`: ignored while a transition runs; otherwise starts the
        transition, plays the hidden element and queues the fade-complete
        update. The index and the element roles do not change yet. */
    method GoToNext() returns (played: Option<Element>)
      requires Valid()
      modifies this
      ensures Valid()
      ensures old(isTransitioning) ==> played == None && unchanged(this)
      ensures !old(isTransitioning) ==>
        isTransitioning && videoIndex == old(videoIndex) && showingFirst == old(showingFirst)
        && played == Some(VisibleElement(old(showingFirst), false).Other())
    {
      if isTransitioning {
        return None;
      }
      isTransitioning := true;
      played := Some(if showingFirst then Video1 else Video0);
      pendingFade := Some(Fade(NextIndex(videoIndex), !showingFirst));
    }

    /** The timer of `goToNext` fires (the fade is complete): the index moves to
        the next clip, the element roles swap and the transition ends. */
    method CompleteFade()
      requires Valid() && isTransitioning
      modifies this
      ensures Valid()
      ensures videoIndex == NextIndex(old(videoIndex)) && showingFirst == !old(showingFirst)
      ensures !isTransitioning
    {
      var f := pendingFade.value;
      videoIndex, showingFirst, isTransitioning := f.videoIndex, f.showingFirst, false;
      pendingFade := None;
    }

    /** `onTimeUpdate` of an element: once it has played `MAX_DURATION`
        seconds, and only while it is the visible one and no transition runs,
        it starts the next transition, which plays the other element. */
    method OnTimeUpdate(el: Element, currentTime: real) returns (played: Option<Element>)
      requires Valid()
      modifies this
      ensures Valid()
      ensures played.Some? <==>
        currentTime >= MaxDuration && !old(isTransitioning) && Visible(el, old(showingFirst), false)
      ensures played.Some? ==>
        played.value == el.Other() && isTransitioning
        && videoIndex == old(videoIndex) && showingFirst == old(showingFirst)
      ensures played.None? ==> unchanged(this)
    {
      if currentTime >= MaxDuration && !isTransitioning && Visible(el, showingFirst, isTransitioning) {
        played := GoToNext();
      } else {
        played := None;
      }
    }

    /** `onEnded` of either element calls `goToNext` unconditionally. */
    method OnEnded(el: Element) returns (played: Option<Element>)
      requires Valid()
      modifies this
      ensures Valid()
      ensures old(isTransitioning) ==> played == None && unchanged(this)
      ensures !old(isTransitioning) ==>
        isTransitioning && videoIndex == old(videoIndex) && showingFirst == old(showingFirst)
        && played == Some(VisibleElement(old(showingFirst), false).Other())
    {
      played := GoToNext();
    }
  }
}
