# NASA space explorer: gallery and detail viewer

A Dafny model of the logic of the space explorer page. The page fetches a
fixed window of Astronomy Picture of the Day records. It renders them as a
grid of cards. Clicking a card opens a modal detail viewer. The browser DOM
is replaced by immutable records:

- `Media`: the raw feed record and the three rules derived from it. These
  are the media kind (`media_type === 'video'`), the thumbnail source
  (`thumbnail_url || url` for videos, `url` for images) and the copyright
  line (`"© " + copyright`, only for a truthy copyright).
- `Gallery`: a card per record (`displayImages`), and the gallery as a
  sequence of card tiles or error notes.
- `Modal`: the detail viewer state. It holds `shown`, the static image slot,
  the list of video frames in the panel, the metadata and the copyright slot.
  `openModal`, `closeModal` and the overlay click handler are total
  functions on it. Event traces carry a reachable-state invariant: at most
  one video frame ever exists. A frame with a source is on a shown modal and
  on screen. A shown modal displays exactly one medium.
- `Explorer`: the page, made of the gallery, the loading spinner and the
  modal. `fetchSpaceImages` is modelled as a transition over an abstract
  fetch outcome. A success renders the first nine records; a failure renders
  one error note. The spinner ends hidden either way.

The video frame is a sequence (`frames`) rather than an option. That way
"created only when none exists" is a proved property of every reachable
state, not something the type assumes. The code behaves in a few ways that a
summary might get wrong, and the model follows the code in each:

- Opening an item without a copyright hides the modal's copyright line. Its
  old text stays in place.
- Opening a video hides the static image but leaves its `src` and `alt`
  alone.
- Closing clears the frame's source but leaves it displayed. Opening an
  image later hides it.

## Model

| member | source | states |
|---|---|---|
| Media.CopyrightLineRule | js/script.js:133 | the copyright line exists iff `copyright` is present and non-empty, reads exactly "© " + copyright, and the holder can be read back from it |
| Media.ThumbnailRule | js/script.js:117-126 | a video's thumbnail is `thumbnail_url` when present and non-empty, else `url`; a non-video always uses `url` |
| Gallery.CardFor | js/script.js:113-159 | a card is a video card iff `media_type` is "video"; its image source follows the thumbnail fallback; its copyright line follows the truthiness rule; it carries title, date, explanation and the record its click opens |
| Gallery.DisplayImages | js/script.js:106-164 | the gallery holds exactly one card per record, the i-th card built from the i-th record |
| Gallery.ShownRecordsOfDisplay | js/script.js:108-163 | the cards give back exactly the rendered records: none dropped, duplicated or reordered |
| Gallery.DisplayImagesAppend | js/script.js:111-164 | appending cards one record at a time gives the same gallery as rendering the whole list |
| Gallery.DisplayImagesHasNoError | js/script.js:106-164 | a rendered gallery contains cards only |
| Modal.Open | js/script.js:171-223 | video: image hidden (source kept), a frame created only when none exists, with src = url, shown; image: src = url, alt = title, shown, any frame hidden with src ""; title, date and explanation set; copyright shown as "© " + holder or hidden with its text kept; the modal is shown |
| Modal.Close | js/script.js:226-235 | the modal is hidden; an existing frame gets src "" and keeps its visibility; no frame is created; nothing else changes |
| Modal.OverlayClickRule | js/script.js:66-71 | a click closes the modal iff its target is the overlay itself; otherwise the state is unchanged |
| Modal.InitialInv | js/script.js:180-189 | the panel starts hidden with no video frame, which satisfies the viewer invariant |
| Modal.StepPreservesInv | js/script.js:171-235 | open, close and overlay clicks each preserve the invariant: at most one frame; a frame with a source is shown, visible and hides the image; a shown modal displays exactly one medium |
| Modal.RunPreservesInv | js/script.js:171-235 | every event sequence from a state with the invariant keeps the invariant |
| Modal.ReachableStates | js/script.js:180-189 | whatever the user does from the start, there is at most one video frame; a hidden modal never has a frame with a source |
| Modal.LastOpenedIsShown | js/script.js:208-222 | after any history, opening an item shows the modal with that item's title and explanation |
| Modal.VideoThenImage | js/script.js:175-205 | opening a video then an image leaves the single frame hidden with src "" and the image on screen |
| Modal.CloseIdempotent | js/script.js:226-235 | closing twice is closing once |
| Modal.CloseStopsPlayback | js/script.js:230-234 | closing never creates or removes a frame and leaves no frame with a source |
| Explorer.Take | js/script.js:87 | `slice(0, n)` keeps the first min(n, length) elements in order |
| Explorer.BeginFetch | js/script.js:76-78 | before the request the gallery is emptied and the spinner shown, the modal untouched |
| Explorer.FetchSpaceImages | js/script.js:74-103 | the spinner ends hidden and the modal is untouched; on success the gallery holds min(9, n) cards, the i-th built from the i-th record; on failure it holds exactly the one error message |
| Explorer.FetchReplacesGallery | js/script.js:77-100 | the gallery after a fetch depends only on the outcome, never on what it held before |
| Explorer.FetchShowsPrefix | js/script.js:86-93 | a successful fetch shows cards only, and they are exactly the first nine records of the response in order; a failed fetch shows no record |
| Explorer.ActivateCard | js/script.js:137-159 | clicking a card opens the modal on the card's record: its title, date and explanation; a video card's url in the frame; an image card's picture in the static image |
| Explorer.CardAndModalAgree | js/script.js:171-219 | card and modal use one kind rule and one copyright rule: a video card iff the modal plays the url with the image hidden; a copyright line on the card iff the modal's is visible, with the same text |
| Explorer.ImageScenario | js/script.js:143-160 | one image record gives one image card with source `img1.jpg` and no copyright line |
| Explorer.VideoScenario | js/script.js:120-142 | one video record with a thumbnail gives a video card showing `t.jpg`; clicking it plays `v.mp4` in the frame |

## Left out

- The network request, `await` and `response.json()` decoding are external I/O. They become the abstract `FetchOutcome`. A non-array payload and a record the renderer cannot read are both failures, as they land in the same `catch`.
- Overlapping fetches are not modelled. `FetchSpaceImages` is one uninterrupted click-to-render transition; `BeginFetch` and `CompleteFetch` are its halves.
- `displayRandomFact` is not modelled. It depends on `Math.random` and floating-point `Math.floor`.
- Element lookup, listener wiring, markup strings, CSS classes and iframe attributes are left out. The source also inserts record fields into markup without HTML escaping, which is not modelled either.
- `console.log` and `console.error` diagnostics are left out.
- Feed fields are modelled as strings or absent. JavaScript's coercion of other JSON values, such as numbers, is left out.
- `Modal.Initial` stands for the modal markup of the page's HTML, which is not part of this model. Its image and copyright contents are placeholders; only "hidden, no video frame" is relied on.
