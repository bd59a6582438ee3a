/** The records the dashboards receive from the book catalog, and the
    outcome of one request to it. Requests themselves are not modelled:
    each one is an oracle answer of type `Response`. */
module Catalog {
  import opened Js

  /** A JSON number, kept as the text JavaScript renders for it. */
  datatype Float = Float(text: string)

  /** A number is falsy when it is zero (rendered "0", also for -0) or NaN. */
  predicate FloatTruthy(f: Float)
  {
    f.text != "0" && f.text != "NaN"
  }

  /** A reading-list work: `title`, `author_names`, `first_publish_year`. */
  datatype Work = Work(title: Option<string>, authorNames: seq<string>, firstPublishYear: Option<int>)

  /** An entry of `reading_log_entries`. */
  datatype LogEntry = LogEntry(work: Work)

  /** An author-search hit: `birth_date`, `top_work`, `top_subjects`. */
  datatype AuthorDoc = AuthorDoc(birthDate: Option<string>, topWork: Option<string>, topSubjects: Option<seq<string>>)

  /** A title-search hit: `ratings_average`. */
  datatype BookDoc = BookDoc(ratingsAverage: Option<Float>)

  /** The empty object `{}` the rows fall back to. */
  const NoAuthor := AuthorDoc(None, None, None)
  const NoBook := BookDoc(None)

  /** One request: the parsed payload, or a thrown error (transport failure
      or a payload without the expected fields). */
  datatype Response<T> = Received(data: T) | Failure

  /** The guard `!details[key]`: a lookup is made exactly when the cached
      entry is falsy, that is absent, `undefined` or `null`. */
  predicate NeedsLookup<T>(cache: Dict<T>, key: string)
  {
    !Truthy(Get(cache, key))
  }

  /** A title used as a property key: a missing title becomes "undefined". */
  function TitleKey(title: Option<string>): string
  {
    match title
    case Some(t) => t
    case None => "undefined"
  }

  /** `reading_log_entries.map(entry => entry.work)` */
  function Works(entries: seq<LogEntry>): seq<Work>
  {
    seq(|entries|, i requires 0 <= i < |entries| => entries[i].work)
  }
}
