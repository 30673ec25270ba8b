/** The view of an EAF annotation document that the commands consume. The
    document itself is read, queried and written by the external `eaf_rs`
    library; here it is only the data that library hands over. */
module Document {
  import opened Wrappers
  import opened Paths

  /** An annotation: internal id (`a1`, `a2`, ...), display value and the
      optional millisecond values of its two time slots (`ts_val`). */
  datatype Annotation = Annotation(id: string, value: string, start: Option<int>, end: Option<int>)
  {
    /** Both time values are set. */
    predicate Timed() {
      start.Some? && end.Some?
    }
  }

  /** A tier: id, optional parent tier id and its annotations in order. */
  datatype Tier = Tier(tierId: string, parentRef: Option<string>, annotations: seq<Annotation>)

  /** A linked media file: `media_url` as a path and the optional
      `relative_media_url`. */
  datatype MediaLink = MediaLink(absolute: Path, relative: Option<Path>)
}
