/** The page: the gallery container, the loading spinner and the detail
    viewer, with the fetch orchestrator driving the first two and card
    clicks driving the third. The network request is an abstract outcome. */
module Explorer {
  import opened Media
  import opened Gallery
  import opened Modal

  /** What the request and its decoding produced: the decoded array, or a
      failure of any kind (unreachable network, bad response, malformed
      payload, or a record the renderer cannot read). */
  datatype FetchOutcome = Fetched(data: seq<MediaRecord>) | FetchFailed

  datatype Page = Page(gallery: seq<GalleryElement>, spinnerVisible: bool, modal: ModalState)

  /** How many records one fetch displays. */
  const PageSize: nat := 9

  /** The inline message that replaces the gallery when a fetch fails. */
  const ErrorMessage: string := "Error loading images. Please try again."

  /** The array method `slice(0, n)` for a non-negative `n`: the first `n` elements, or all of them. */
  function Take<T>(s: seq<T>, n: nat): (t: seq<T>)
    ensures |t| == if |s| < n then |s| else n
    ensures forall i :: 0 <= i < |t| ==> t[i] == s[i]
  {
    if |s| <= n then s else s[..n]
  }

  /** Before the request: the gallery is emptied and the spinner shown. */
  function BeginFetch(p: Page): (q: Page)
    ensures q.gallery == [] && q.spinnerVisible
    ensures q.modal == p.modal
  {
    p.(gallery := [], spinnerVisible := true)
  }

  /** After the request settles: the spinner is hidden and the gallery holds
      the cards of the first nine records, or the single error note. */
  function CompleteFetch(p: Page, outcome: FetchOutcome): Page {
    match outcome
    case Fetched(data) => p.(spinnerVisible := false, gallery := DisplayImages(Take(data, PageSize)))
    case FetchFailed => p.(spinnerVisible := false, gallery := [ErrorNote(ErrorMessage)])
  }

  /** One click on the fetch button, from the clearing of the gallery to the
      rendering of the outcome, with no other event in between. */
  function FetchSpaceImages(p: Page, outcome: FetchOutcome): (q: Page)
    ensures !q.spinnerVisible
    ensures q.modal == p.modal
    ensures outcome.Fetched? ==>
              && |q.gallery| == (if |outcome.data| < 9 then |outcome.data| else 9)
              && forall i :: 0 <= i < |q.gallery| ==> q.gallery[i] == Tile(CardFor(outcome.data[i]))
    ensures outcome.FetchFailed? ==>
              q.gallery == [ErrorNote("Error loading images. Please try again.")]
  {
    CompleteFetch(BeginFetch(p), outcome)
  }

  /** The gallery after a fetch depends on the outcome only: whatever the
      gallery held before (placeholder, older cards, an error) is gone. */
  lemma FetchReplacesGallery(p1: Page, p2: Page, outcome: FetchOutcome)
    ensures FetchSpaceImages(p1, outcome).gallery == FetchSpaceImages(p2, outcome).gallery
    ensures FetchSpaceImages(p1, outcome).spinnerVisible == FetchSpaceImages(p2, outcome).spinnerVisible
  {
  }

  /** A successful fetch shows cards only, which give back the first
      min(9, n) records of the response in response order; a failed one
      shows nothing but one error note. */
  lemma FetchShowsPrefix(p: Page, outcome: FetchOutcome)
    ensures outcome.Fetched? ==>
              ShownRecords(FetchSpaceImages(p, outcome).gallery) == Take(outcome.data, PageSize)
              && forall e :: e in FetchSpaceImages(p, outcome).gallery ==> e.Tile?
    ensures outcome.FetchFailed? ==> ShownRecords(FetchSpaceImages(p, outcome).gallery) == []
  {
    if outcome.Fetched? {
      ShownRecordsOfDisplay(Take(outcome.data, PageSize));
      DisplayImagesHasNoError(Take(outcome.data, PageSize));
    }
  }

  /** A click on a card's target opens the modal on the card's record. */
  function ActivateCard(p: Page, c: Card): (q: Page)
    requires c == CardFor(c.record)
    ensures q.gallery == p.gallery && q.spinnerVisible == p.spinnerVisible
    ensures q.modal.shown && q.modal.title == c.title && q.modal.date == c.date
    ensures q.modal.explanation == c.explanation
    ensures c.kind == Video ==> |q.modal.frames| > 0 && q.modal.frames[0] == Frame(c.record.url, true)
    ensures c.kind == Image ==> q.modal.image == ImageSlot(c.thumbnail, c.alt, true)
  {
    p.(modal := Open(p.modal, c.record))
  }

  /** The card and the detail viewer apply the same rules: a card is a video
      card exactly when the opened modal plays its url in the frame with the
      image hidden, and the card's copyright line is the modal's visible one. */
  lemma CardAndModalAgree(m: ModalState, r: MediaRecord)
    ensures CardFor(r).kind == Video <==>
              |Open(m, r).frames| > 0 && Open(m, r).frames[0] == Frame(r.url, true) && !Open(m, r).image.visible
    ensures CardFor(r).copyrightLine.Some? <==> Open(m, r).copyright.visible
    ensures CardFor(r).copyrightLine.Some? ==> Open(m, r).copyright.text == CardFor(r).copyrightLine.value
  {
  }

  /** A response of one plain image gives one card showing that image, with no copyright line. */
  lemma ImageScenario(p: Page)
    ensures var r := MediaRecord("A", "2024-01-01", "x", "img1.jpg", Some("image"), None, None);
            var q := FetchSpaceImages(p, Fetched([r]));
            && |q.gallery| == 1
            && q.gallery[0].Tile?
            && q.gallery[0].card.kind == Image
            && q.gallery[0].card.thumbnail == "img1.jpg"
            && q.gallery[0].card.copyrightLine == None
  {
  }

  /** A response of one video with a thumbnail gives a video card showing the
      thumbnail; activating it plays the video url in the frame. */
  lemma VideoScenario(p: Page)
    ensures var r := MediaRecord("V", "2024-01-02", "y", "v.mp4", Some("video"), Some("t.jpg"), None);
            var q := FetchSpaceImages(p, Fetched([r]));
            && |q.gallery| == 1
            && q.gallery[0].Tile?
            && q.gallery[0].card.kind == Video
            && q.gallery[0].card.thumbnail == "t.jpg"
            && ActivateCard(q, q.gallery[0].card).modal.frames[0] == Frame("v.mp4", true)
  {
  }
}
