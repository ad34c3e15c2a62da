/** Configuration constants of the file-sharing server (config/config.go). */
module Config {
  /** Size threshold, in MB, between the small and the large tier. */
  const SaveSplit: int := 10

  /** Largest accepted upload, in MB. */
  const MaxUpload: int := 50

  /** Number of characters in a file token. */
  const TokenLength: int := 10

  /** Page size of the listing query. */
  const PaginationLimit: int := 20

  /** Bytes in a megabyte. */
  const MB: int := 1048576

  /** The two storage tiers under the "uploads" root directory. */
  const LargePath: string := "uploads/large"
  const SmallPath: string := "uploads/small"
}
