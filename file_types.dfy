/**
 * The rows of the three backend tables: `files`, `file_versions` and `file_shares`.
 * Text timestamps stay text where the application only displays or splits them; the
 * share instants are milliseconds since the epoch because the application compares them.
 */
module FileTypes {
  import opened Wrappers

  /** A row of `file_versions`: a link from a file to the row it superseded. */
  datatype FileVersion = FileVersion(
    id: string,
    fileId: string,
    version: int,
    previousVersionId: Option<string>,
    createdAt: string)

  /** A row of `files`; `versions` is filled in by the client after loading. */
  datatype SecureFile = SecureFile(
    id: string,
    name: string,
    size: string,
    mimeType: string,
    storagePath: string,
    userId: string,
    isEncrypted: bool,
    createdAt: string,
    updatedAt: string,
    version: int,
    encryptionMethod: Option<string>,
    previousVersionId: Option<string>,
    versions: Option<seq<FileVersion>>)

  /** A row of `file_shares`: one expiring access grant, redeemed by its token. */
  datatype FileShare = FileShare(
    id: string,
    fileId: string,
    shareToken: string,
    recipientEmail: Option<string>,
    createdAt: int,
    expiresAt: int,
    accessedAt: Option<int>)
}
