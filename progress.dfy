/** The progress events (Progress.kt) the optimizer hands to its
    `onProgress` callback. */
module Progress {
  import opened Bytes
  import opened Wrappers

  datatype ProgressStage =
    | Init
    | Discover
    | DimensionStart
    | RegionStart
    | ChunkProgress
    | DimensionEnd
    | Finalize
    | CopyMisc
    | CopyMiscProgress
    | Compress
    | Cleanup
    | Done

  /** `ProgressEvent`; a Kotlin `null` is `None`. */
  datatype ProgressEvent = ProgressEvent(
    stage: ProgressStage,
    current: Option<int64>,
    total: Option<int64>,
    path: Option<string>,
    message: Option<string>)
}
