# Vault file stream — a Dafny model of the file service and its screens

The application stores a user's files in a hosted backend, which has three tables and one blob bucket:

- `files` holds one row per uploaded file version.
- `file_versions` holds history rows that point from a new version to the row it superseded.
- `file_shares` holds expiring share grants, each redeemed by a random token.
- The blob bucket `secure_files` holds the bytes.

The "encryption key" the screens ask for is only a label. Nothing in the code encrypts, and no key is ever checked.

This project models the following:

- **The file service** (`FileService`):
  - Upload. A same-name upload becomes a new version and writes a history row.
  - Download, and download of an earlier version.
  - Delete.
  - Share issuance.
  - Loading a user's files, with each file's version rows attached.
  - Size formatting.
- **The public page that redeems a share link** (`SharedFilePage`).
- **The upload key dialog** (`KeyEntry`).
- **The file table and its dialogs** (`FileListing`).
- **The dashboard's search, list mapping and upload flow** (`DashboardPage`).
- **The two share dialogs** (`ShareFileDialog`, `FileShareDialog`).
- **The row types** (`FileTypes`).
- **Helpers:** the JavaScript string operations the code relies on (`Strings`), a generic order-keeping filter (`Seqs`), and Option/Result (`Wrappers`).
- **Two client scenarios** (`Scenarios`), derived from the contracts alone:
  - a re-upload becoming version 2;
  - a week-long share and its redemption.

How the model is built:

- **The backend** is the class `FileService.Backend`. Its tables are sequences of rows and its bucket is a map from path to bytes.
- **Outcomes of calls that can fail are parameters.** This covers a refused insert, a failed query and a missing user.
- **Query order.** A query whose order the store does not promise is given as any permutation of the rows it selects.
- **Screens** are classes whose fields are the component's state and whose methods are its handlers.
- **Recorded calls.** Callbacks and outside calls a screen makes are appended to a `calls` or `events` field, in order. Examples are `onSubmit`, `onDelete`, `shareFile` and the clipboard.
- **Handlers with an `await`.** A handler that shows a busy flag while it awaits is split at the `await` into `Begin…` and `Finish…`. The `Finish…` half receives the call's outcome.
- **Time** is an integer number of milliseconds.
- **Randomness** is passed in as explicit draws.
- **Local storage** is a map.

## Where the code and its description differ

The model follows the code in each case:

- **Version choice.** The new version number is taken from the FIRST row the same-name query returns, not from the largest version. That query has no `order`. When the store answers in insertion order, a third upload repeats version 2 (`FileService.InsertionOrderRepeatsVersion`). Only when the newest row comes first does the number exceed every earlier one (`FileService.NewestFirstExceedsAll`).
- **Failed same-name query.** A failed query reads as "no rows", so the upload is a first version.
- **Existing storage path.** The blob upload uses `upsert: false`, so an object already at the path is an error.
- **Version download.** `downloadFileVersion` fetches the bytes of the SUPERSEDED `files` row. It saves them under a name carrying the version row's number, which is the NEW version's number.
- **Opening a share link.** It stamps `accessed_at` before the expiry is checked, so an expired share is stamped too.
- **Failed history row.** A refused `file_versions` insert is only logged, and the upload still succeeds.
- **Delete.** Only the blob and the `files` row are removed. History rows and shares that point at the file stay.

## Model

| member | source | states |
|---|---|---|
| `FileService.UnitOf` | vault-file-stream-main/src/services/files.ts:367-372 | The unit is bytes, KB, MB or GB exactly on the ranges below 1024, below 1048576, below 1073741824, and beyond. |
| `FileService.RoundedHundredths` | vault-file-stream-main/src/services/files.ts:369-371 | The hundredths `toFixed(2)` shows are the integer nearest to 100·bytes/scale, with ties rounded up. |
| `FileService.FixedTwo` | vault-file-stream-main/src/services/files.ts:369-371 | `parseInt` of the text gives the whole units. Everything before the point is digits, with a leading `0` only in "0.xx". The point stands third from the end, and the two digits after it spell the remaining hundredths. |
| `FileService.WholeThenDecimals` | vault-file-stream-main/src/services/files.ts:369-371 | Digits of a number, a point and two characters: `parseInt` reads the number back, the text before the point is its digits, and only "0" starts with a zero. |
| `FileService.FormatFileSize` | vault-file-stream-main/src/services/files.ts:367-372 | The text ends in the suffix of the chosen unit. It is the whole byte count below 1 KiB, and two decimals of the unit above. |
| `FileService.SmallSizeReadsBack` | vault-file-stream-main/src/services/files.ts:368 | Below 1 KiB, parsing the formatted size gives back the byte count. |
| `FileService.LargeSizeReadsBack` | vault-file-stream-main/src/services/files.ts:369-371 | From 1 KiB up, parsing the formatted size gives the whole units of the rounded value in the chosen unit. |
| `FileService.FixedTwoReadsBack` | vault-file-stream-main/src/services/files.ts:369-371 | Whatever suffix follows, parsing a two-decimal text stops at its point and gives the whole units. |
| `FileService.LeadingDigitsOfPrefix` | vault-file-stream-main/src/services/files.ts:368 | The number prefix of "<digits> B" is exactly those digits. |
| `FileService.FileTypeOf` | vault-file-stream-main/src/services/files.ts:57 | The stored type is the MIME type when there is one. Otherwise it is a dot-free suffix of the name, and the whole name when the name has no dot. |
| `FileService.TypeFallbackIsExtension` | vault-file-stream-main/src/services/files.ts:57 | Without a MIME type, the name is its base, a dot, and the stored type. |
| `FileService.StoragePath` | vault-file-stream-main/src/services/files.ts:38 | The path starts with the user's id and a slash, and ends with `_` and the file name. |
| `FileService.StoragePathsDifferByInstant` | vault-file-stream-main/src/services/files.ts:38 | Two uploads of one name by one user at different instants get different paths. |
| `FileService.NextVersion` | vault-file-stream-main/src/services/files.ts:27-35 | A first upload is version 1 with no predecessor. Otherwise the first returned row is the predecessor, and the version is one more than its version, with 0 counting as 1. |
| `FileService.NewestFirstExceedsAll` | vault-file-stream-main/src/services/files.ts:31-35 | When the first row holds the largest version, the new version exceeds every returned version. |
| `FileService.InsertionOrderRepeatsVersion` | vault-file-stream-main/src/services/files.ts:31-35 | With rows for versions 1 and 2 in insertion order, the next upload is version 2 again, linked to the version 1 row. |
| `FileService.SameNameRows` | vault-file-stream-main/src/services/files.ts:21-25 | The same-name query selects exactly the user's rows with that name. |
| `FileService.AppendKeepsPredecessor` | vault-file-stream-main/src/services/files.ts:21-35 | Adding a row of the name keeps the earlier rows first, so an insertion-ordered store names the same predecessor and version again. |
| `FileService.NewFileRow` | vault-file-stream-main/src/services/files.ts:54-64 | The inserted row carries the name, formatted size, stored type, path, user, the encrypted flag, the method, the version and the predecessor. |
| `FileService.MethodOrDefault` | vault-file-stream-main/src/services/files.ts:12 | The recorded method is the caller's, or "AES-256" when the options are left out. |
| `FileService.VersionRowFor` | vault-file-stream-main/src/services/files.ts:76-82 | The history row points from the new row's id and version to its predecessor. |
| `FileService.VersionedFileName` | vault-file-stream-main/src/services/files.ts:172-175 | The saved name keeps the text after the original's last dot as its extension. Before that dot it has the original base, `_v` and the version. A dot-free name gets `_v<n>.` appended. |
| `FileService.LastDotOfJoin` | vault-file-stream-main/src/services/files.ts:173-175 | Joining a base and a dot-free extension with a dot puts the last dot between them, so cutting at it gives both parts back. |
| `FileService.VersionedNameKeepsName` | vault-file-stream-main/src/services/files.ts:172-175 | The versioned name is base + `_v<n>` + `.` + extension, and base + `.` + extension is the original name. |
| `FileService.ShareExpiry` | vault-file-stream-main/src/services/files.ts:287-288 | The expiry lies exactly `days` 24-hour days after issue, and later than issue for a positive count. |
| `FileService.ShareToken` | vault-file-stream-main/src/services/files.ts:375-378 | The token has at most 26 characters, all base-36 digits. |
| `FileService.ShareLink` | vault-file-stream-main/src/services/files.ts:307 | The link is the origin, then `/shared/`, then the token, each at its place. |
| `FileService.RouteToken` | vault-file-stream-main/src/services/files.ts:307 | A token read from a path is one non-empty slash-free segment after `/shared/`. |
| `FileService.ShareLinkRoutesToToken` | vault-file-stream-main/src/services/files.ts:298-307 | For a non-empty generated token, the path of the issued link routes back to exactly that token. |
| `FileService.NewShareRow` | vault-file-stream-main/src/services/files.ts:294-299 | The share row carries the file, token, recipient and expiry, and is not yet opened. |
| `FileService.RowsWithId` | vault-file-stream-main/src/services/files.ts:104-108 | The lookup by id selects exactly the rows with that id. |
| `FileService.VersionRowsWithId` | vault-file-stream-main/src/services/files.ts:147-151 | The version lookup by id selects exactly the history rows with that id. |
| `FileService.WithoutId` | vault-file-stream-main/src/services/files.ts:257-260 | The delete keeps exactly the rows with another id. |
| `FileService.Backend.constructor` | vault-file-stream-main/src/types/files.ts:2-34 | A new backend has empty tables and an empty bucket. |
| `FileService.Backend.UploadFile` | vault-file-stream-main/src/services/files.ts:9-99 | It is `NotAuthenticated` exactly when there is no user. A taken path or a refused blob is exactly `StorageFailed`, with nothing written. A refused row is exactly `RecordFailed` and leaves the blob behind. It succeeds exactly when blob and row are accepted: the blob is stored, the row is appended with the chosen version, and a history row is appended exactly for an update whose insert was accepted. Shares are untouched. |
| `FileService.Backend.StoreUpload` | vault-file-stream-main/src/services/files.ts:37-97 | For a known user: `StorageFailed`, `RecordFailed` and success each hold exactly under their outcomes, with the same effects on blobs, rows and history as the upload. |
| `FileService.Backend.PutBlob` | vault-file-stream-main/src/services/files.ts:41-48 | The blob is stored exactly when no object is at the path and the bucket accepts. Then it is stored at the path; otherwise the bucket is unchanged. |
| `FileService.Backend.InsertFile` | vault-file-stream-main/src/services/files.ts:51-67 | An accepted `files` insert appends the row. |
| `FileService.Backend.InsertVersion` | vault-file-stream-main/src/services/files.ts:74-82 | An accepted `file_versions` insert appends the history row. |
| `FileService.Backend.DownloadFile` | vault-file-stream-main/src/services/files.ts:101-142 | It succeeds exactly when one row has the id and its blob exists, and the download is that blob under the file's name. No single row is a lookup error. A single row without its blob is a storage error. |
| `FileService.Backend.DownloadFileVersion` | vault-file-stream-main/src/services/files.ts:144-200 | It succeeds exactly when there is one history row, it names a predecessor, exactly one row has that id, and its blob exists. The bytes are the predecessor's blob, and the name carries the history row's version. A missing row is a lookup error. A missing blob is a storage error. |
| `FileService.Backend.DeleteFile` | vault-file-stream-main/src/services/files.ts:238-273 | A missing row changes nothing. A refused blob removal changes nothing. After the blob goes, a refused row delete keeps the rows. Success removes the blob and every row with the id. History and shares are unchanged. |
| `FileService.Backend.ShareFile` | vault-file-stream-main/src/services/files.ts:275-323 | It succeeds exactly when the file exists and the insert is accepted. Then it appends one share expiring `days` (default 7) days after now, whose token is `ShareToken` of the two random draws (files.ts:298, 375-378), and returns the link for that token. A non-empty token is the one the share page's route reads back from the link. Otherwise the shares are unchanged. |
| `FileService.VersionsOf` | vault-file-stream-main/src/services/files.ts:350 | A file's group holds exactly the version rows whose file id is the file's id. |
| `FileService.GetUserFiles` | vault-file-stream-main/src/services/files.ts:325-364 | A failed query fails. With no files or a failed versions query, the list comes back unchanged. Otherwise each file, in the same order, gets exactly its own version rows. |
| `FileService.GroupedVersionsBelong` | vault-file-stream-main/src/services/files.ts:349-351 | A version row sits under a file exactly when its file id is that file's id. |
| `FileService.VersionsOfAppend` | vault-file-stream-main/src/services/files.ts:350 | Grouping over two runs of rows is the two groups joined: order is kept and other files' rows do not interfere. |
| `SharedFilePage.SharesWithToken` | vault-file-stream-main/src/pages/SharedFile.tsx:36-40 | The lookup selects exactly the shares with the token. |
| `SharedFilePage.ViewOf` | vault-file-stream-main/src/pages/SharedFile.tsx:56-65 | The view takes name, size, type and creation time from the file row, and id, file id, recipient and expiry from the share. |
| `SharedFilePage.Redeem` | vault-file-stream-main/src/pages/SharedFile.tsx:31-77 | Not exactly one share gives NotFound. The result is Expired exactly when the one share's expiry lies before now. Valid means not expired, exactly one joined file, and the view of share and file. |
| `SharedFilePage.HasExpired` | vault-file-stream-main/src/pages/SharedFile.tsx:51-53 | A share has expired only once its expiry instant lies before now. At that instant itself it is still valid. |
| `SharedFilePage.ValidAtExpiryInstant` | vault-file-stream-main/src/pages/SharedFile.tsx:51-54 | At its expiry instant a share still redeems; one millisecond later it is expired. |
| `SharedFilePage.IssuedShareLifetime` | vault-file-stream-main/src/services/files.ts:287-288 | A share issued for `days` days shows the file up to issue + days and is expired at every later instant. |
| `SharedFilePage.Touch` | vault-file-stream-main/src/pages/SharedFile.tsx:45-48 | Only the access stamp changes: it is set on a row with the token, and other rows stay as they are. |
| `SharedFilePage.Touched` | vault-file-stream-main/src/pages/SharedFile.tsx:45-48 | The update stamps every row with the token and keeps the table's length and order. |
| `SharedFilePage.TouchedSharesWithToken` | vault-file-stream-main/src/pages/SharedFile.tsx:36-48 | Stamping never changes which rows carry a token. |
| `SharedFilePage.RedeemIgnoresStamp` | vault-file-stream-main/src/pages/SharedFile.tsx:31-66 | Redeeming after an earlier visit's stamp gives the same answer as before it. |
| `SharedFilePage.ScreenFor` | vault-file-stream-main/src/pages/SharedFile.tsx:142-180 | NotFound, Expired and Valid map one-to-one to the not-found, expired and file screens. |
| `SharedFilePage.SharedDownload` | vault-file-stream-main/src/pages/SharedFile.tsx:89-107 | A download exists exactly when the file row and its blob do. It is that blob under the shown name. |
| `SharedFilePage.SharedFile.constructor` | vault-file-stream-main/src/pages/SharedFile.tsx:23-28 | The page starts loading, with no file, no key, not expired and not downloading. |
| `SharedFilePage.SharedFile.Screen` | vault-file-stream-main/src/pages/SharedFile.tsx:131-180 | Loading comes first, then expired, then not found, then the file. |
| `SharedFilePage.SharedFile.DownloadDisabled` | vault-file-stream-main/src/pages/SharedFile.tsx:228 | An enabled download button means a key is typed and no download is running. Without a key, or while downloading, it is disabled. |
| `SharedFilePage.SharedFile.FetchSharedFile` | vault-file-stream-main/src/pages/SharedFile.tsx:30-80 | Without a token nothing changes. Otherwise loading ends and the outcome of `Redeem` is applied. The matching share is stamped when the update is accepted. A fresh page then shows `ScreenFor` of that outcome. |
| `SharedFilePage.SharedFile.SetEncryptionKey` | vault-file-stream-main/src/pages/SharedFile.tsx:221 | The key field holds the typed text. |
| `SharedFilePage.SharedFile.BeginDownload` | vault-file-stream-main/src/pages/SharedFile.tsx:82-85 | The download starts exactly with a loaded file and a non-empty key. A click on the enabled button always starts it when a file is loaded. |
| `SharedFilePage.SharedFile.FinishDownload` | vault-file-stream-main/src/pages/SharedFile.tsx:86-128 | The result is `SharedDownload` of the file, and the busy flag always clears. |
| `KeyEntry.MethodLabel` | vault-file-stream-main/src/components/EncryptionOptions.tsx:8 | Every method has a non-empty label. |
| `KeyEntry.MethodLabelInjective` | vault-file-stream-main/src/components/EncryptionOptions.tsx:8 | Equal labels mean equal methods. |
| `KeyEntry.SubmitError` | vault-file-stream-main/src/components/EncryptionKeyModal.tsx:46-57 | A submit is accepted exactly when the key is non-empty and equals the confirmation. Emptiness is reported first, then a mismatch. |
| `KeyEntry.Pick` | vault-file-stream-main/src/components/EncryptionKeyModal.tsx:99 | The index is the floor of draw × 72, inside the alphabet. |
| `KeyEntry.RandomKey` | vault-file-stream-main/src/components/EncryptionKeyModal.tsx:93-100 | The key has 16 characters, the i-th picked from the alphabet by the i-th draw. |
| `KeyEntry.EncryptionKeyModal.constructor` | vault-file-stream-main/src/components/EncryptionKeyModal.tsx:25-30 | The form starts blank with AES-256 selected. |
| `KeyEntry.EncryptionKeyModal.HandleKeyChange` | vault-file-stream-main/src/components/EncryptionKeyModal.tsx:32-37 | The key takes the text and the error is cleared. |
| `KeyEntry.EncryptionKeyModal.HandleConfirmKeyChange` | vault-file-stream-main/src/components/EncryptionKeyModal.tsx:39-44 | The confirmation takes the text and the error is cleared. |
| `KeyEntry.EncryptionKeyModal.ToggleShowKey` | vault-file-stream-main/src/components/EncryptionKeyModal.tsx:136 | Visibility flips. |
| `KeyEntry.EncryptionKeyModal.ToggleRememberKey` | vault-file-stream-main/src/components/EncryptionKeyModal.tsx:167 | "Remember" flips. |
| `KeyEntry.EncryptionKeyModal.SetEncryptionMethod` | vault-file-stream-main/src/components/EncryptionKeyModal.tsx:156-159 | The chosen method is recorded. |
| `KeyEntry.EncryptionKeyModal.Reset` | vault-file-stream-main/src/components/EncryptionKeyModal.tsx:72-78 | The form is blank again. |
| `KeyEntry.EncryptionKeyModal.HandleSubmit` | vault-file-stream-main/src/components/EncryptionKeyModal.tsx:46-79 | A rejected submit only sets the error. An accepted one writes key and method to storage when remembering, calls `onSubmit` once with key and method, and blanks the form. |
| `KeyEntry.EncryptionKeyModal.HandleCancel` | vault-file-stream-main/src/components/EncryptionKeyModal.tsx:81-91 | The form is blanked and `onCancel` is called once; storage is untouched. |
| `KeyEntry.EncryptionKeyModal.HandleOpenChange` | vault-file-stream-main/src/components/EncryptionKeyModal.tsx:112 | Opening changes nothing; closing is a cancel. |
| `KeyEntry.EncryptionKeyModal.GenerateRandomKey` | vault-file-stream-main/src/components/EncryptionKeyModal.tsx:93-109 | Both fields get the same 16-character key from the alphabet, the key is shown, the error clears, and the form then passes validation. |
| `FileListing.FileIcon` | vault-file-stream-main/src/components/FileList.tsx:47-70 | Each icon is chosen exactly for its lower-cased types, and the generic icon exactly for the other types. |
| `FileListing.FileIconIgnoresCase` | vault-file-stream-main/src/components/FileList.tsx:50 | Types that differ only in case get the same icon. |
| `FileListing.FileIconCapitals` | vault-file-stream-main/src/components/FileList.tsx:50-66 | Example: "PDF" and "Jpeg" get the PDF and image icons, since the extension is lower-cased first. |
| `FileListing.MimeTypeGetsGenericIcon` | vault-file-stream-main/src/components/FileList.tsx:67-68 | Example: a MIME type such as "application/pdf" matches no extension case and gets the generic icon. |
| `FileListing.RowOf` | vault-file-stream-main/src/components/FileList.tsx:149-221 | A row shows the icon, the upper-cased type, name, size and date. A badge appears exactly for a version above 1. The Versions button appears exactly when there are version rows. |
| `FileListing.Render` | vault-file-stream-main/src/components/FileList.tsx:124-149 | No files gives the placeholder. Otherwise there is one row per file, in order. |
| `FileListing.FileList.constructor` | vault-file-stream-main/src/components/FileList.tsx:36-45 | Every dialog starts closed, with nothing selected and an empty key. |
| `FileListing.FileList.HandleActionClick` | vault-file-stream-main/src/components/FileList.tsx:72-77 | The file and action are remembered, the key is cleared, and the prompt opens. |
| `FileListing.FileList.SetDecryptionKey` | vault-file-stream-main/src/components/FileList.tsx:244 | The key holds the typed text. |
| `FileListing.FileList.HandleDecryptSubmit` | vault-file-stream-main/src/components/FileList.tsx:79-88 | Without a file nothing happens. A download always calls `onDownload`; a view calls `onView` only when it was given. Either way the prompt closes. |
| `FileListing.FileList.SetDecryptModalOpen` | vault-file-stream-main/src/components/FileList.tsx:227 | The prompt is open as asked. |
| `FileListing.FileList.HandleDeleteClick` | vault-file-stream-main/src/components/FileList.tsx:90-93 | The file is pending and the confirmation opens. |
| `FileListing.FileList.SetDeleteModalOpen` | vault-file-stream-main/src/components/FileList.tsx:260 | The delete confirmation is open as asked. |
| `FileListing.FileList.HandleConfirmDelete` | vault-file-stream-main/src/components/FileList.tsx:95-100 | With a non-empty pending id, `onDelete` is called once and the dialog closes; otherwise nothing changes. |
| `FileListing.FileList.HandleShareClick` | vault-file-stream-main/src/components/FileList.tsx:102-105 | The share target is set and the share dialog opens. |
| `FileListing.FileList.CloseShareModal` | vault-file-stream-main/src/components/FileList.tsx:350-353 | The share dialog closes and its target is cleared. |
| `FileListing.FileList.HandleViewVersions` | vault-file-stream-main/src/components/FileList.tsx:107-110 | The file is selected and the version picker opens. |
| `FileListing.FileList.SelectVersion` | vault-file-stream-main/src/components/FileList.tsx:295-307 | The picked version is selected. |
| `FileListing.FileList.SetVersionModalOpen` | vault-file-stream-main/src/components/FileList.tsx:277 | The picker is open as asked. |
| `FileListing.FileList.HandleVersionDownload` | vault-file-stream-main/src/components/FileList.tsx:112-122 | Without a file or a version nothing changes. Otherwise `onVersionDownload`, when given, gets the file, version and key; the picker closes; the key and version are cleared. When the button was enabled, the call carries a non-empty key. |
| `FileListing.FileList.VersionDownloadDisabled` | vault-file-stream-main/src/components/FileList.tsx:336 | Disabled exactly when no version is picked or no key is typed. `HandleVersionDownload` relies on it: a click on the enabled button hands `onVersionDownload` the picked version and a non-empty key. |
| `DashboardPage.FilteredFiles` | vault-file-stream-main/src/pages/Dashboard.tsx:150-152 | The result holds exactly the files whose lower-cased name includes the lower-cased query, and no more of them than were loaded. |
| `DashboardPage.EmptyQueryKeepsAll` | vault-file-stream-main/src/pages/Dashboard.tsx:150-152 | An empty query keeps every file, in order. |
| `DashboardPage.FilteredFilesKeepOrder` | vault-file-stream-main/src/pages/Dashboard.tsx:150-152 | Filtering two runs of files is the two results joined. |
| `DashboardPage.SearchIgnoresQueryCase` | vault-file-stream-main/src/pages/Dashboard.tsx:151 | Queries that differ only in case select the same files. |
| `DashboardPage.DateOf` | vault-file-stream-main/src/pages/Dashboard.tsx:246 | The date is the timestamp's text before its first `T`, or the whole text when there is no `T`. |
| `DashboardPage.RowFor` | vault-file-stream-main/src/pages/Dashboard.tsx:241-249 | A list row copies id, name, size, type, version and versions from the file row, and takes the date part of its creation time. |
| `DashboardPage.Rows` | vault-file-stream-main/src/pages/Dashboard.tsx:241-249 | One list row per file, in order. |
| `DashboardPage.RowsCarryGroupedVersions` | vault-file-stream-main/src/pages/Dashboard.tsx:248 | A list row holds exactly the version rows grouped under its file. |
| `DashboardPage.BadgeForVersion` | vault-file-stream-main/src/components/FileList.tsx:158 | A dashboard row shows the version badge exactly when its file's version exceeds 1. |
| `DashboardPage.EmptyHint` | vault-file-stream-main/src/pages/Dashboard.tsx:235-237 | A typed query gets the search hint, and an empty one the upload hint. |
| `DashboardPage.PanelFor` | vault-file-stream-main/src/pages/Dashboard.tsx:228-255 | Loading comes first. An empty filtered list shows the hint. Otherwise it shows the rows of the filtered files. |
| `DashboardPage.EmptyDashboardInvitesUpload` | vault-file-stream-main/src/pages/Dashboard.tsx:232-237 | With nothing loaded and no query, the panel invites a first upload. |
| `DashboardPage.Dashboard.constructor` | vault-file-stream-main/src/pages/Dashboard.tsx:31-33 | The dialog starts closed, with no query, no file, no uploads, no deletions and no refetches. |
| `DashboardPage.Dashboard.DialogFileName` | vault-file-stream-main/src/pages/Dashboard.tsx:261 | The dialog shows the selected file's name, or nothing. |
| `DashboardPage.Dashboard.SetSearchQuery` | vault-file-stream-main/src/pages/Dashboard.tsx:205 | The query holds the typed text. |
| `DashboardPage.Dashboard.HandleFileChange` | vault-file-stream-main/src/pages/Dashboard.tsx:75-80 | Only an actual first file is selected and opens the key dialog. |
| `DashboardPage.Dashboard.HandleUpload` | vault-file-stream-main/src/pages/Dashboard.tsx:82-90 | With a selected file, one upload of that file with the key and method is submitted; otherwise nothing happens. |
| `DashboardPage.Dashboard.HandleCancelUpload` | vault-file-stream-main/src/pages/Dashboard.tsx:92-95 | The dialog closes and the file is forgotten. |
| `DashboardPage.Dashboard.OnUploadSuccess` | vault-file-stream-main/src/pages/Dashboard.tsx:52-55 | After a successful upload the cached file list is invalidated once (so it reloads with the new row), the dialog closes and the file is forgotten. |
| `DashboardPage.Dashboard.HandleDelete` | vault-file-stream-main/src/pages/Dashboard.tsx:252 | The id is handed to the delete mutation, once, after every earlier one. |
| `DashboardPage.Dashboard.OnDeleteSuccess` | vault-file-stream-main/src/pages/Dashboard.tsx:66-67 | After a successful delete the cached file list is invalidated once; nothing else changes. |
| `DashboardPage.UploadMutation` | vault-file-stream-main/src/pages/Dashboard.tsx:45-51 | The upload runs with the method chosen in the dialog. On success the new `files` row is appended, names the selected file and records that method. On failure no row is added. |
| `ShareFileDialog.ExpiryChoiceDays` | vault-file-stream-main/src/components/ShareFileModal.tsx:108-112 | Every option parses to 1, 3, 7, 30 or 90 and is that number written out. |
| `ShareFileDialog.DefaultExpiryIsSevenDays` | vault-file-stream-main/src/components/ShareFileModal.tsx:25 | The default is an offered option and means seven days. |
| `ShareFileDialog.ShareFileModal.constructor` | vault-file-stream-main/src/components/ShareFileModal.tsx:24-27 | The form starts empty with seven days, not sharing and no link. |
| `ShareFileDialog.ShareFileModal.SetEmail` | vault-file-stream-main/src/components/ShareFileModal.tsx:93 | The email holds the typed text. |
| `ShareFileDialog.ShareFileModal.InputsDisabled` | vault-file-stream-main/src/components/ShareFileModal.tsx:95 | The inputs lock exactly when the footer switches to copying. `FinishShare` locks them once a non-empty link is returned, and `HandleClose` unlocks them. |
| `ShareFileDialog.ShareFileModal.FooterOffersCopy` | vault-file-stream-main/src/components/ShareFileModal.tsx:132 | The footer offers "Copy Link" exactly when there is a non-empty link: after `FinishShare` returns one, and not after `HandleClose`. |
| `ShareFileDialog.ShareFileModal.ShareButtonDisabled` | vault-file-stream-main/src/components/ShareFileModal.tsx:135 | Disabled exactly while sharing or with no email. `BeginShare` relies on it: once a share starts the button is disabled, so a second share cannot start from it. |
| `ShareFileDialog.ShareFileModal.SelectExpiry` | vault-file-stream-main/src/components/ShareFileModal.tsx:104 | The select holds the picked option. |
| `ShareFileDialog.ShareFileModal.BeginShare` | vault-file-stream-main/src/components/ShareFileModal.tsx:29-41 | It starts exactly when the email does not trim to nothing. Then sharing is on and `shareFile` is asked once, with the parsed days (1, 3, 7, 30 or 90). Otherwise nothing changes. A started share leaves the "Share File" button disabled. |
| `ShareFileDialog.ShareFileModal.FinishShare` | vault-file-stream-main/src/components/ShareFileModal.tsx:41-55 | Sharing always ends, and only a returned link is stored. A returned non-empty link switches the footer to copying and locks the inputs. |
| `ShareFileDialog.ShareFileModal.HandleCopyLink` | vault-file-stream-main/src/components/ShareFileModal.tsx:58-66 | The link is copied exactly when there is a non-empty one. |
| `ShareFileDialog.ShareFileModal.HandleClose` | vault-file-stream-main/src/components/ShareFileModal.tsx:68-73 | The form and link are reset and `onClose` is called once. Afterwards the footer offers sharing again and the inputs are unlocked. |
| `FileShareDialog.OptionValues` | vault-file-stream-main/src/components/FileShareModal.tsx:112-116 | The select offers each option's value, in order. |
| `FileShareDialog.ExpiryTable` | vault-file-stream-main/src/components/FileShareModal.tsx:19-25 | The offered values are 1, 3, 7, 14 and 30, and the default 7 is among them. |
| `FileShareDialog.OptionDays` | vault-file-stream-main/src/components/FileShareModal.tsx:56 | Every offered value parses to its number of days: 1, 3, 7, 14 or 30. |
| `FileShareDialog.FindLabel` | vault-file-stream-main/src/components/FileShareModal.tsx:174 | The result is None exactly when no option has the value. Otherwise it is the label of the first option with it. |
| `FileShareDialog.DefaultLabel` | vault-file-stream-main/src/components/FileShareModal.tsx:22 | The default selection's label is "1 week". |
| `FileShareDialog.FileShareModal.constructor` | vault-file-stream-main/src/components/FileShareModal.tsx:33-37 | The form starts fresh and not loading. |
| `FileShareDialog.FileShareModal.ShowsForm` | vault-file-stream-main/src/components/FileShareModal.tsx:87 | The link replaces the form exactly when there is a non-empty link. A freshly reset dialog always shows the form. |
| `FileShareDialog.FileShareModal.ExpiryDetail` | vault-file-stream-main/src/components/FileShareModal.tsx:174 | An offered selection always has a label, and it is the label of an option with that value. |
| `FileShareDialog.FileShareModal.IsOpenChanged` | vault-file-stream-main/src/components/FileShareModal.tsx:39-46 | Opening resets the email, link and copied mark, and selects 7 days; any other change leaves the form alone. |
| `FileShareDialog.FileShareModal.SetEmail` | vault-file-stream-main/src/components/FileShareModal.tsx:95 | The email holds the typed text. |
| `FileShareDialog.FileShareModal.SelectExpiry` | vault-file-stream-main/src/components/FileShareModal.tsx:104 | The picked option is selected and has a label. |
| `FileShareDialog.FileShareModal.BeginShare` | vault-file-stream-main/src/components/FileShareModal.tsx:48-56 | Without a file id nothing happens. Otherwise loading starts and `shareFile` is asked once with the email and the parsed days. When an offered option is selected, the parsed days are a number, never NaN. |
| `FileShareDialog.FileShareModal.FinishShare` | vault-file-stream-main/src/components/FileShareModal.tsx:56-68 | Loading always ends, and only a returned link is stored. |
| `FileShareDialog.FileShareModal.CopyToClipboard` | vault-file-stream-main/src/components/FileShareModal.tsx:71-73 | The link is copied and the check mark shows. |
| `FileShareDialog.FileShareModal.CopiedTimerFired` | vault-file-stream-main/src/components/FileShareModal.tsx:74 | When the timer fires the check mark goes away. |
| `Scenarios.SecondUploadIsVersionTwo` | vault-file-stream-main/src/services/files.ts:21-35 | After a first upload (version 1, no predecessor), the same-name query answers with exactly that row. The next upload of the name is then version 2, points at it, and writes a history row. |
| `Scenarios.ShareForAWeek` | vault-file-stream-main/src/services/files.ts:275-323 | A file shared for seven days, under the token built from two random draws, redeems at the expiry instant, and is expired one millisecond later. |
| `Strings.ParseInt` | vault-file-stream-main/src/components/ShareFileModal.tsx:41 | `parseInt` gives a number exactly when the text starts with a digit. |
| `Strings.ParseIntOfNatToString` | vault-file-stream-main/src/components/ShareFileModal.tsx:41 | Parsing a written non-negative number gives it back. |
| `Strings.NatToStringInjective` | vault-file-stream-main/src/services/files.ts:38 | Distinct numbers are written differently. |
| `Strings.ToLower` | vault-file-stream-main/src/pages/Dashboard.tsx:151 | Lower-casing keeps the length and maps each character. |
| `Strings.ToLowerIdempotent` | vault-file-stream-main/src/pages/Dashboard.tsx:151 | Lower-casing twice is lower-casing once. |
| `Strings.BeforeFirst` | vault-file-stream-main/src/pages/Dashboard.tsx:246 | The text before the first occurrence of the character, without it. |
| `Strings.NatToString` | vault-file-stream-main/src/services/files.ts:368 | At least one character, all decimal digits, with a leading `0` only for zero. |
| `Strings.Contains` | vault-file-stream-main/src/pages/Dashboard.tsx:151 | `includes` is true exactly when the text occurs at some position. |
| `Strings.IndexOf` | vault-file-stream-main/src/pages/Dashboard.tsx:246 | The index of the first occurrence, or -1 exactly when the character is absent. |
| `Strings.LastIndexOf` | vault-file-stream-main/src/services/files.ts:174 | The index of the last occurrence, with none after it, or -1 exactly when the character is absent. |
| `Strings.AfterLast` | vault-file-stream-main/src/services/files.ts:173 | `split(c).pop()` never contains the character. |
| `Strings.BeforeLast` | vault-file-stream-main/src/services/files.ts:174 | The text before the last occurrence: a prefix that stops at the character, with none after it. |
| `Strings.SplitAtLast` | vault-file-stream-main/src/services/files.ts:173-174 | Cutting at the last occurrence loses nothing: before, the character, after. |
| `Strings.Substring` | vault-file-stream-main/src/services/files.ts:376-377 | `substring` clamps both bounds to the text and is empty when the start lies past the end. |
| `Strings.Trim` | vault-file-stream-main/src/components/ShareFileModal.tsx:30 | The trimmed text is a slice of the original with only whitespace around it. It starts and ends with non-whitespace, and it is empty exactly when the text is all whitespace. |
| `Strings.ToUpper` | vault-file-stream-main/src/components/FileList.tsx:157 | Upper-casing keeps the length and maps each character. |
| `Seqs.Filter` | vault-file-stream-main/src/services/files.ts:350 | The filter keeps exactly the elements that satisfy the test, and never grows the list. |
| `Seqs.FilterConcat` | vault-file-stream-main/src/services/files.ts:350 | Filtering keeps order: the filter of a join is the join of the filters. |

## Left out

- **The network.** The hosted backend's network, authentication service and row-level security are not modelled. Outcomes are parameters and tables are in memory. Every row the tables hold is taken to be visible to the caller. In particular, `getUserFiles` returns whatever its query answers.
- **Concurrency.** Two uploads racing for the same version number, and a response arriving after the component has gone, are not modelled.
- **Toasts and console output.** Each one only informs and changes no state.
- **Browser download mechanics.** The anchor element, `createObjectURL` and `revokeObjectURL` are left out. A download is modelled as the name and bytes handed to the browser.
- **`viewFile` in files.ts.** It is not wired to any screen: the dashboard's `handleViewFile` only shows a toast. It is therefore not modelled. The same goes for the dashboard's `handleDownload`, `handleVersionDownload` and `handleLogout`, which pass through to the service or navigation and add only toasts.
- **`onProgress`.** The upload never calls it.
- **The upload dialog's `isUploading` prop.** The dialog only passes it to a button.
- **`FileShareModal`'s `onClose`.** It is handed to the dialog directly, with no handler of its own.
- **The `required` attribute.** It only exists in `FileShareModal`'s form. Browser form validation (`required`, `type="email"`) is not modelled.
- **The clipboard and local storage.** These are outboxes and a map, not the browser APIs.
- **The two-second timer.** It is a method the owner calls (`CopiedTimerFired`), not real time.
- **Time.** Calendar dates and time zones are left out. A day is 86,400,000 ms, so daylight-saving days are not modelled. ISO timestamp text is kept as stored. The only place the code reads it is `toISOString().split('T')[0]`, modelled as the text before its first `T`, so re-normalising an offset timestamp is not modelled.
- **Random draws.** `Math.random` is a parameter: a real in [0, 1) for the key generator, and, for the share token, the base-36 text of each of the two draws, which `Backend.ShareFile` takes and turns into the token with `ShareToken`.
- **Letter case.** It is ASCII only. Unicode case mapping is not modelled.
- **Database cascades.** Foreign-key behaviour on delete is not modelled, and the column subsets of `.select(...)` are left out, since every reader uses only the columns it selected.
- `FileService.FormatFileSize`: exact for byte counts below 2^53. Above that the source's double division rounds differently, which is not modelled.
- `Strings.ParseInt`: reads only leading decimal digits. The leading whitespace, signs and radix prefixes that JavaScript's `parseInt` also accepts are not modelled. Its only inputs are the dialogs' fixed option values.
- `FileService.ShareToken`: bounds the token's length and alphabet but not its randomness. The source promises no uniqueness, and the model does not claim any.
