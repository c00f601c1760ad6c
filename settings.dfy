/** The process-wide configuration that the asset generator and the compositor share. */
module Settings {
  /** Shortest duration, in seconds, drawn for a video segment. */
  const MinStockVideoLength: real := 5.0
  /** Shortest duration, in seconds, drawn for an image segment. */
  const MinStockImageLength: real := 3.0
  /** Ceiling of the per-asset cap shared by images and videos. */
  const MaxStockImageLength: real := 5.0
  /** Number of script paragraphs; also the per-paragraph asset limit of the compositor. */
  const MaxParagraphs: nat := 3
}
