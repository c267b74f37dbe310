/** The media item model: one entry of the daily astronomy data feed, and the
    three rules every view derives from it (media kind, thumbnail source and
    copyright line). Field values are taken as strings; a key the JSON object
    lacks is `None`. */
module Media {

  datatype Option<+T> = None | Some(value: T)

  /** One raw record of the feed: `title`, `date`, `explanation`, `url`,
      `media_type`, and the optional `thumbnail_url` and `copyright`. */
  datatype MediaRecord = MediaRecord(
    title: string,
    date: string,
    explanation: string,
    url: string,
    mediaType: Option<string>,
    thumbnailUrl: Option<string>,
    copyright: Option<string>)

  datatype MediaKind = Image | Video

  /** The `media_type` value that selects a video. */
  const VideoType: string := "video"

  /** The prefix of every copyright line: the copyright sign and one space. */
  const CopyrightSign: string := "\U{00A9} "

  /** JavaScript truthiness of an optional string field: present and non-empty. */
  predicate Truthy(field: Option<string>) {
    field.Some? && field.value != ""
  }

  /** Strict comparison `media_type === 'video'`; any other value, or no value, is an image. */
  function KindOf(r: MediaRecord): MediaKind {
    if r.mediaType == Some(VideoType) then Video else Image
  }

  /** The image shown on a gallery card: `thumbnail_url || url` for a video, `url` for an image. */
  function ThumbnailSource(r: MediaRecord): string {
    match KindOf(r)
    case Video => if Truthy(r.thumbnailUrl) then r.thumbnailUrl.value else r.url
    case Image => r.url
  }

  /** The copyright line, present only when `copyright` is truthy. */
  function CopyrightLine(r: MediaRecord): Option<string> {
    if Truthy(r.copyright) then Some(CopyrightSign + r.copyright.value) else None
  }

  /** Removes the copyright prefix again: the left inverse of the line's construction. */
  function CopyrightHolder(line: string): (holder: Option<string>)
    ensures holder.Some? <==> |line| > |CopyrightSign| && line[..|CopyrightSign|] == CopyrightSign
    ensures holder.Some? ==> line == CopyrightSign + holder.value
  {
    if |line| > |CopyrightSign| && line[..|CopyrightSign|] == CopyrightSign
    then Some(line[|CopyrightSign|..])
    else None
  }

  /** The copyright line is present exactly for a truthy `copyright`, reads
      exactly "© " followed by it, and the holder can be read back from it. */
  lemma CopyrightLineRule(r: MediaRecord)
    ensures CopyrightLine(r).Some? <==> r.copyright.Some? && r.copyright.value != ""
    ensures CopyrightLine(r).Some? ==> CopyrightLine(r).value == "\U{00A9} " + r.copyright.value
    ensures CopyrightLine(r).Some? ==> CopyrightHolder(CopyrightLine(r).value) == r.copyright
  {
  }

  /** The thumbnail of a video falls back to `url` when `thumbnail_url` is
      missing or empty; an image never uses `thumbnail_url`. */
  lemma ThumbnailRule(r: MediaRecord)
    ensures r.mediaType == Some("video") && r.thumbnailUrl.Some? && r.thumbnailUrl.value != ""
      ==> ThumbnailSource(r) == r.thumbnailUrl.value
    ensures r.mediaType == Some("video") && (r.thumbnailUrl.None? || r.thumbnailUrl.value == "")
      ==> ThumbnailSource(r) == r.url
    ensures r.mediaType != Some("video") ==> ThumbnailSource(r) == r.url
  {
  }
}
