/**
 * Request parameter names and sort values. The Java constants class that declares them is
 * not part of this model; the names are those the servlet documents for its parameters.
 */
module OscarConstants {
  const TITLE: string := "title"
  const YEAR: string := "year"
  const MIN_YEAR: string := "minYear"
  const MAX_YEAR: string := "maxYear"
  const MIN_AWARDS: string := "minAwards"
  const MAX_AWARDS: string := "maxAwards"
  const NOMINATIONS: string := "nominations"
  const IS_BEST_PICTURE: string := "isBestPicture"
  const SORT_BY: string := "sortBy"
  const LIMIT: string := "limit"
  /** The `sortBy` value that selects the awards getter. */
  const AWARDS: string := "awards"
}
