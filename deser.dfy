/** The protocol records of deser.go. Their JSON decoding is done by the
    `encoding/json` library, which is not part of this model: a decoder is a
    function value that may fail, supplied by the caller in a `Codec`. */
module Deser {
  import opened Results

  /** Go's `int64`. */
  newtype Int64 = x: int | -0x8000_0000_0000_0000 <= x < 0x8000_0000_0000_0000

  /** One byte of a line read from the subprocess. */
  newtype Byte = b: int | 0 <= b < 0x100

  /** One line of standard output, without its line terminator. */
  type Line = seq<Byte>

  /** Progress snapshot (deser.go:17-25). The `float64` field is carried as a
      `real`: no arithmetic is done on it in the modelled code. */
  datatype StatusMessage = StatusMessage(
    messageType: string,
    percentDone: real,
    totalFiles: Int64,
    filesDone: Int64,
    totalBytes: Int64,
    bytesDone: Int64,
    currentFiles: seq<string>)

  /** End-of-run totals (deser.go:37-53). */
  datatype SummaryMessage = SummaryMessage(
    messageType: string,
    filesNew: Int64,
    filesChanged: Int64,
    filesUnmodified: Int64,
    dirsNew: Int64,
    dirsChanged: Int64,
    dirsUnmodified: Int64,
    dataBlobs: Int64,
    treeBlobs: Int64,
    dataAdded: Int64,
    dataAddedPacked: Int64,
    totalFilesProcessed: Int64,
    totalBytesProcessed: Int64,
    totalDuration: real,
    snapshotId: string)

  /** Repository-wide totals (deser.go:65-69); not part of the backup stream. */
  datatype StatsMessage = StatsMessage(
    totalSize: Int64,
    totalFileCount: Int64,
    snapshotsCount: Int64)

  /** The envelope: only the discriminator (deser.go:81-83). */
  datatype UntypedMessage = UntypedMessage(messageType: string)

  /** The decoders `UnmarshalUntypedMessage`, `UnmarshalStatusMessage` and
      `UnmarshalSummaryMessage`, each a partial function from a line. */
  datatype Codec = Codec(
    untyped: Line -> Result<UntypedMessage>,
    status: Line -> Result<StatusMessage>,
    summary: Line -> Result<SummaryMessage>)
}
