/** The table cells that both dashboards render in the same way: the rating
    and the three author cells, each with its "N/A" fallback. */
module Cells {
  import opened Js
  import opened Catalog

  const NA := "N/A"

  /** `value || {}`: the stored record, or the empty object when the entry
      is falsy. */
  function DocOr<T>(v: Value<T>, empty: T): T
  {
    if Truthy(v) then v.obj else empty
  }

  /** `rating.ratings_average || 'N/A'` */
  function RatingCell(rating: BookDoc): string
  {
    match rating.ratingsAverage
    case Some(f) => if FloatTruthy(f) then f.text else NA
    case None => NA
  }

  /** `author.top_subjects && author.top_subjects.length > 0 ? author.top_subjects[0] : 'N/A'` */
  function SubjectCell(author: AuthorDoc): string
  {
    match author.topSubjects
    case Some(subjects) => if |subjects| > 0 then subjects[0] else NA
    case None => NA
  }

  /** `author.birth_date || 'N/A'` */
  function BirthDateCell(author: AuthorDoc): string
  {
    OrText(author.birthDate, NA)
  }

  /** `author.top_work || 'N/A'` */
  function TopWorkCell(author: AuthorDoc): string
  {
    OrText(author.topWork, NA)
  }

  /** A row without an author record shows "N/A" in all three author cells. */
  lemma MissingAuthorCells(v: Value<AuthorDoc>)
    requires !Truthy(v)
    ensures SubjectCell(DocOr(v, NoAuthor)) == NA
    ensures BirthDateCell(DocOr(v, NoAuthor)) == NA
    ensures TopWorkCell(DocOr(v, NoAuthor)) == NA
  {
  }
}
