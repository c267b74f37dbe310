/** The gallery renderer: one card per media record, in the records' order. */
module Gallery {
  import opened Media

  /** An abstract gallery card. `thumbnail` and `alt` are the card image's
      source and alternative text; `record` is the item the card's click
      target hands to the detail viewer (the thumbnail wrapper with its play
      icon for a video, the image element itself for an image). */
  datatype Card = Card(
    kind: MediaKind,
    thumbnail: string,
    alt: string,
    title: string,
    date: string,
    explanation: string,
    copyrightLine: Option<string>,
    record: MediaRecord)

  /** The content of the gallery container: cards, or the inline error note of a failed fetch. */
  datatype GalleryElement = Tile(card: Card) | ErrorNote(message: string)

  /** The card built for one record. */
  function CardFor(r: MediaRecord): (c: Card)
    ensures c.kind == Video <==> r.mediaType == Some("video")
    ensures c.kind == Video && r.thumbnailUrl.Some? && r.thumbnailUrl.value != ""
      ==> c.thumbnail == r.thumbnailUrl.value
    ensures c.kind == Video && (r.thumbnailUrl.None? || r.thumbnailUrl.value == "")
      ==> c.thumbnail == r.url
    ensures c.kind == Image ==> c.thumbnail == r.url
    ensures c.copyrightLine.Some? <==> r.copyright.Some? && r.copyright.value != ""
    ensures c.copyrightLine.Some? ==> c.copyrightLine.value == "\U{00A9} " + r.copyright.value
    ensures c.alt == r.title && c.title == r.title && c.date == r.date
    ensures c.explanation == r.explanation && c.record == r
  {
    ThumbnailRule(r);
    CopyrightLineRule(r);
    Card(KindOf(r), ThumbnailSource(r), r.title, r.title, r.date, r.explanation, CopyrightLine(r), r)
  }

  /** Clears the gallery and appends one card per record, in order. */
  function DisplayImages(records: seq<MediaRecord>): (g: seq<GalleryElement>)
    ensures |g| == |records|
    ensures forall i :: 0 <= i < |records| ==> g[i] == Tile(CardFor(records[i]))
  {
    if |records| == 0 then [] else [Tile(CardFor(records[0]))] + DisplayImages(records[1..])
  }

  /** The records behind the cards of a gallery, in display order; error notes carry none. */
  function ShownRecords(g: seq<GalleryElement>): (rs: seq<MediaRecord>)
    ensures |rs| <= |g|
  {
    if |g| == 0 then []
    else match g[0]
      case Tile(c) => [c.record] + ShownRecords(g[1..])
      case ErrorNote(_) => ShownRecords(g[1..])
  }

  /** Rendering neither drops, duplicates nor reorders records: the cards
      give back exactly the records they were rendered from. */
  lemma {:induction false} ShownRecordsOfDisplay(records: seq<MediaRecord>)
    ensures ShownRecords(DisplayImages(records)) == records
  {
    if |records| > 0 {
      ShownRecordsOfDisplay(records[1..]);
      var g := DisplayImages(records);
      assert g[1..] == DisplayImages(records[1..]);
    }
  }

  /** Rendering record by record, as the source's loop appends card after
      card, gives the same gallery as rendering the whole list. */
  lemma DisplayImagesAppend(a: seq<MediaRecord>, b: seq<MediaRecord>)
    ensures DisplayImages(a + b) == DisplayImages(a) + DisplayImages(b)
  {
  }

  /** A rendered gallery holds cards only, never an error note. */
  lemma DisplayImagesHasNoError(records: seq<MediaRecord>)
    ensures forall e :: e in DisplayImages(records) ==> e.Tile?
  {
  }
}
