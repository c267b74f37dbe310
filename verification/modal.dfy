/** The detail viewer: a modal panel with a static image, a lazily created
    video frame, and the metadata of the item last opened. */
module Modal {
  import opened Media

  datatype ImageSlot = ImageSlot(src: string, alt: string, visible: bool)

  /** The embedded video frame (`modal-video`). */
  datatype Frame = Frame(src: string, visible: bool)

  datatype CopyrightSlot = CopyrightSlot(text: string, visible: bool)

  /** The modal's observable state. `frames` lists the video frames present
      in the panel, first one first: it is what a lookup by id finds, and it
      starts out empty because the frame is only created on the first video. */
  datatype ModalState = ModalState(
    shown: bool,
    image: ImageSlot,
    frames: seq<Frame>,
    title: string,
    date: string,
    explanation: string,
    copyright: CopyrightSlot)

  /** The panel before anything was opened: hidden, no video frame. */
  const Initial: ModalState :=
    ModalState(false, ImageSlot("", "", true), [], "", "", "", CopyrightSlot("", true))

  /** Shows `r` in the modal: a video in the (possibly newly created) frame
      with the static image hidden, an image in the static image with any
      frame hidden and cleared; then the metadata and copyright line. */
  function Open(m: ModalState, r: MediaRecord): (o: ModalState)
    ensures o.shown
    ensures o.title == r.title && o.date == r.date && o.explanation == r.explanation
    ensures r.copyright.Some? && r.copyright.value != "" ==>
              o.copyright == CopyrightSlot("\U{00A9} " + r.copyright.value, true)
    ensures r.copyright.None? || r.copyright.value == "" ==>
              o.copyright == m.copyright.(visible := false)
    ensures r.mediaType == Some("video") ==>
              && o.image == m.image.(visible := false)
              && |o.frames| == (if |m.frames| == 0 then 1 else |m.frames|)
              && o.frames[0] == Frame(r.url, true)
              && o.frames[1..] == (if |m.frames| == 0 then [] else m.frames[1..])
    ensures r.mediaType != Some("video") ==>
              && o.image == ImageSlot(r.url, r.title, true)
              && |o.frames| == |m.frames|
              && (|m.frames| > 0 ==> o.frames[0] == Frame("", false))
              && (|m.frames| > 0 ==> o.frames[1..] == m.frames[1..])
  {
    var media :=
      match KindOf(r)
      case Video =>
        m.(image := m.image.(visible := false),
           frames := if |m.frames| == 0 then [Frame(r.url, true)] else m.frames[0 := Frame(r.url, true)])
      case Image =>
        m.(image := ImageSlot(r.url, r.title, true),
           frames := if |m.frames| == 0 then m.frames else m.frames[0 := Frame("", false)]);
    var line :=
      match CopyrightLine(r)
      case Some(text) => CopyrightSlot(text, true)
      case None => m.copyright.(visible := false);
    media.(title := r.title, date := r.date, explanation := r.explanation, copyright := line, shown := true)
  }

  /** Hides the modal and clears the source of the video frame, if there is one. */
  function Close(m: ModalState): (c: ModalState)
    ensures !c.shown
    ensures |c.frames| == |m.frames|
    ensures |m.frames| > 0 ==> c.frames[0] == Frame("", m.frames[0].visible)
    ensures c.(shown := m.shown, frames := m.frames) == m
    ensures |m.frames| > 0 ==> c.frames[1..] == m.frames[1..]
  {
    m.(shown := false, frames := if |m.frames| == 0 then m.frames else m.frames[0 := m.frames[0].(src := "")])
  }

  /** A click on the modal region: it closes only when the dark overlay itself was the target. */
  function OverlayClick(m: ModalState, targetIsOverlay: bool): ModalState {
    if targetIsOverlay then Close(m) else m
  }

  /** The user events the modal reacts to. */
  datatype Event = OpenItem(item: MediaRecord) | CloseButton | OverlayClicked(targetIsOverlay: bool)

  function Step(m: ModalState, e: Event): ModalState {
    match e
    case OpenItem(r) => Open(m, r)
    case CloseButton => Close(m)
    case OverlayClicked(t) => OverlayClick(m, t)
  }

  /** The state after a sequence of events, applied left to right. */
  function Run(m: ModalState, events: seq<Event>): ModalState
    decreases |events|
  {
    if |events| == 0 then m else Run(Step(m, events[0]), events[1..])
  }

  /** A frame whose source is set is one that can be playing. */
  predicate Playing(m: ModalState) {
    |m.frames| > 0 && m.frames[0].src != ""
  }

  /** The invariant of every reachable modal state: at most one video frame
      ever exists; a frame that can play is on a shown modal, visible, with
      the static image hidden; and a shown modal displays exactly one medium. */
  predicate Inv(m: ModalState) {
    && |m.frames| <= 1
    && (Playing(m) ==> m.shown && m.frames[0].visible && !m.image.visible)
    && (m.shown ==> (m.image.visible <==> !(|m.frames| == 1 && m.frames[0].visible)))
  }

  lemma InitialInv()
    ensures Inv(Initial) && !Initial.shown && Initial.frames == []
  {
  }

  lemma StepPreservesInv(m: ModalState, e: Event)
    requires Inv(m)
    ensures Inv(Step(m, e))
  {
  }

  /** Every state reachable from an invariant state keeps the invariant. */
  lemma {:induction false} RunPreservesInv(m: ModalState, events: seq<Event>)
    requires Inv(m)
    ensures Inv(Run(m, events))
    decreases |events|
  {
    if |events| > 0 {
      StepPreservesInv(m, events[0]);
      RunPreservesInv(Step(m, events[0]), events[1..]);
    }
  }

  /** From the initial panel, whatever the user does, there is never more
      than one video frame, and nothing plays unless the modal is shown
      with the video on screen. */
  lemma {:induction false} ReachableStates(events: seq<Event>)
    ensures |Run(Initial, events).frames| <= 1
    ensures Playing(Run(Initial, events)) ==>
              Run(Initial, events).shown && Run(Initial, events).frames[0].visible
    ensures !Run(Initial, events).shown ==> !Playing(Run(Initial, events))
  {
    InitialInv();
    RunPreservesInv(Initial, events);
  }

  /** Running two sequences one after the other is running their concatenation. */
  lemma {:induction false} RunAppend(m: ModalState, a: seq<Event>, b: seq<Event>)
    ensures Run(m, a + b) == Run(Run(m, a), b)
    decreases |a|
  {
    if |a| == 0 {
      assert a + b == b;
    } else {
      assert (a + b)[0] == a[0];
      assert (a + b)[1..] == a[1..] + b;
      RunAppend(Step(m, a[0]), a[1..], b);
    }
  }

  /** The modal always shows the item opened last, whatever came before. */
  lemma LastOpenedIsShown(m: ModalState, history: seq<Event>, r: MediaRecord)
    ensures Run(m, history + [OpenItem(r)]).shown
    ensures Run(m, history + [OpenItem(r)]).title == r.title
    ensures Run(m, history + [OpenItem(r)]).explanation == r.explanation
  {
    RunAppend(m, history, [OpenItem(r)]);
  }

  /** Opening a video and then an image leaves the one video frame hidden
      and cleared, and the image on screen. */
  lemma VideoThenImage(m: ModalState, video: MediaRecord, image: MediaRecord)
    requires |m.frames| <= 1
    requires video.mediaType == Some("video") && image.mediaType != Some("video")
    ensures Open(Open(m, video), image).frames == [Frame("", false)]
    ensures Open(Open(m, video), image).image == ImageSlot(image.url, image.title, true)
  {
    var v := Open(m, video);
    assert |v.frames| == 1;
  }

  /** Closing twice is closing once. */
  lemma CloseIdempotent(m: ModalState)
    ensures Close(Close(m)) == Close(m)
  {
  }

  /** Closing never creates a frame, and leaves no frame able to play. */
  lemma CloseStopsPlayback(m: ModalState)
    ensures Close(m).frames == [] <==> m.frames == []
    ensures !Playing(Close(m))
  {
  }

  /** The overlay handler closes on a click on the overlay itself and
      leaves the state untouched for a click inside the content panel. */
  lemma OverlayClickRule(m: ModalState, targetIsOverlay: bool)
    ensures targetIsOverlay ==> OverlayClick(m, targetIsOverlay) == Close(m)
    ensures !targetIsOverlay ==> OverlayClick(m, targetIsOverlay) == m
    ensures !OverlayClick(m, targetIsOverlay).shown <==> targetIsOverlay || !m.shown
  {
  }
}
