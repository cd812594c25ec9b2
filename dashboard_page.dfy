/**
 * The signed-in user's dashboard: the case-insensitive search over the loaded files, the
 * mapping of file rows to list rows, the empty-state hint, and the upload flow that picks
 * a file, asks for a key and submits the upload, and the delete flow.
 */
module DashboardPage {
  import opened Wrappers
  import opened Strings
  import opened Seqs
  import opened FileTypes
  import FileService
  import FileListing
  import KeyEntry

  // ---------------------------------------------------------------------------
  // Search

  /** A file matches when its lower-cased name includes the lower-cased query. */
  predicate Matches(query: string, file: SecureFile)
  {
    Contains(ToLower(file.name), ToLower(query))
  }

  /** `filteredFiles`: the matching files, in the order they were loaded. */
  function FilteredFiles(files: seq<SecureFile>, query: string): (r: seq<SecureFile>)
    ensures |r| <= |files|
    ensures forall f :: f in r <==> f in files && Matches(query, f)
  {
    Filter((f: SecureFile) => Matches(query, f), files)
  }

  /** An empty query keeps every file. */
  lemma EmptyQueryKeepsAll(files: seq<SecureFile>)
    ensures FilteredFiles(files, "") == files
  {
    forall i | 0 <= i < |files| ensures Matches("", files[i]) {
      ContainsEmpty(ToLower(files[i].name));
    }
    FilterKeepsAll((f: SecureFile) => Matches("", f), files);
  }

  /** Searching keeps relative order: the result over two runs of files is the two results joined. */
  lemma FilteredFilesKeepOrder(a: seq<SecureFile>, b: seq<SecureFile>, query: string)
    ensures FilteredFiles(a + b, query) == FilteredFiles(a, query) + FilteredFiles(b, query)
  {
    FilterConcat((f: SecureFile) => Matches(query, f), a, b);
  }

  /** Queries that differ only in letter case select the same files. */
  lemma {:induction false} SearchIgnoresQueryCase(files: seq<SecureFile>, q1: string, q2: string)
    requires ToLower(q1) == ToLower(q2)
    ensures FilteredFiles(files, q1) == FilteredFiles(files, q2)
    decreases |files|
  {
    if files != [] {
      SearchIgnoresQueryCase(files[1..], q1, q2);
    }
  }

  // ---------------------------------------------------------------------------
  // Rows for the list

  /** The date column: the text of the ISO timestamp before its `T`. */
  function DateOf(createdAt: string): (d: string)
    ensures 'T' !in d
    ensures 'T' in createdAt ==> |d| < |createdAt| && createdAt == d + "T" + createdAt[|d| + 1..]
    ensures 'T' !in createdAt ==> d == createdAt
  {
    BeforeFirst(createdAt, 'T')
  }

  /** A file row as the list receives it; the key column is left unset. */
  function RowFor(file: SecureFile): (row: FileListing.ListFile)
    ensures row.id == file.id && row.name == file.name && row.size == file.size
    ensures row.mimeType == file.mimeType && row.version == Some(file.version)
    ensures row.versions == file.versions && row.encryptionKey.None?
    ensures row.date == DateOf(file.createdAt)
  {
    FileListing.ListFile(file.id, file.name, file.size, file.mimeType, None, DateOf(file.createdAt),
                         Some(file.version), file.versions)
  }

  function Rows(files: seq<SecureFile>): (rows: seq<FileListing.ListFile>)
    ensures |rows| == |files|
    ensures forall i :: 0 <= i < |files| ==> rows[i] == RowFor(files[i])
  {
    seq(|files|, i requires 0 <= i < |files| => RowFor(files[i]))
  }

  /** A version row attached by the loader reaches the list row of its file unchanged. */
  lemma RowsCarryGroupedVersions(files: seq<SecureFile>, rows: seq<FileVersion>, i: nat)
    requires i < |files| && files[i].versions == Some(FileService.VersionsOf(files[i].id, rows))
    ensures Rows(files)[i].versions.Some?
    ensures forall v :: v in Rows(files)[i].versions.value <==> v in rows && v.fileId == files[i].id
  {
  }

  /** The list shows the badge for a file row exactly when its version exceeds 1. */
  lemma BadgeForVersion(file: SecureFile)
    ensures FileListing.ShowsVersionBadge(RowFor(file)) <==> file.version > 1
  {
  }

  /** The hint under "No files found": a search hint only when a query is typed. */
  function EmptyHint(query: string): (hint: string)
    ensures query != "" ==> hint == "Try adjusting your search"
    ensures query == "" ==> hint == "Upload your first encrypted file"
  {
    if query != "" then "Try adjusting your search" else "Upload your first encrypted file"
  }

  /** The file panel: loading, the empty state with its hint, or the list. */
  datatype Panel = LoadingFiles | NoFiles(hint: string) | Listing(rows: seq<FileListing.ListFile>)

  function PanelFor(isLoadingFiles: bool, files: seq<SecureFile>, query: string): (p: Panel)
    ensures isLoadingFiles <==> p == LoadingFiles
    ensures p.NoFiles? <==> !isLoadingFiles && FilteredFiles(files, query) == []
    ensures p.NoFiles? ==> p.hint == EmptyHint(query)
    ensures p.Listing? ==> p.rows == Rows(FilteredFiles(files, query)) && p.rows != []
  {
    if isLoadingFiles then LoadingFiles
    else
      var shown := FilteredFiles(files, query);
      if shown == [] then NoFiles(EmptyHint(query)) else Listing(Rows(shown))
  }

  /** With nothing loaded and no query, the dashboard invites a first upload. */
  lemma EmptyDashboardInvitesUpload()
    ensures PanelFor(false, [], "") == NoFiles("Upload your first encrypted file")
  {
  }

  // ---------------------------------------------------------------------------
  // The upload flow

  /** What the upload mutation is asked to do: `uploadFile(file, key, { encryptionMethod })`. */
  datatype UploadRequest = UploadRequest(file: FileService.BrowserFile, key: string, chosen: KeyEntry.EncryptionMethod)

  class Dashboard {
    var isEncryptionModalOpen: bool
    var searchQuery: string
    var selectedFile: Option<FileService.BrowserFile>
    /** Every upload submitted so far, oldest first. */
    var uploads: seq<UploadRequest>
    /** The ids of every file the delete mutation was asked to delete, oldest first. */
    var deletions: seq<string>
    /** How many times the cached `files` query was invalidated, each one reloading the list. */
    var refetches: nat

    constructor ()
      ensures !isEncryptionModalOpen && searchQuery == "" && selectedFile.None?
      ensures uploads == [] && deletions == [] && refetches == 0
    {
      isEncryptionModalOpen := false;
      searchQuery := "";
      selectedFile := None;
      uploads := [];
      deletions := [];
      refetches := 0;
    }

    /** The file name shown in the key dialog. */
    function DialogFileName(): (name: string)
      reads this
      ensures selectedFile.None? ==> name == ""
      ensures selectedFile.Some? ==> name == selectedFile.value.name
    {
      if selectedFile.Some? then selectedFile.value.name else ""
    }

    /** Typing in the search box. */
    method SetSearchQuery(query: string)
      modifies this`searchQuery
      ensures searchQuery == query
    {
      searchQuery := query;
    }

    /**
     * `handleFileChange`: `chosen` is the input's file list (None when the browser gives
     * none).  Only an actual first file is selected and opens the key dialog.
     */
    method HandleFileChange(chosen: Option<seq<FileService.BrowserFile>>)
      modifies this`selectedFile, this`isEncryptionModalOpen
      ensures chosen.Some? && |chosen.value| > 0 ==> selectedFile == Some(chosen.value[0]) && isEncryptionModalOpen
      ensures !(chosen.Some? && |chosen.value| > 0) ==>
                selectedFile == old(selectedFile) && isEncryptionModalOpen == old(isEncryptionModalOpen)
    {
      if chosen.Some? && |chosen.value| > 0 {
        selectedFile := Some(chosen.value[0]);
        isEncryptionModalOpen := true;
      }
    }

    /** `handleUpload`, the key dialog's `onSubmit`: without a selected file it does nothing. */
    method HandleUpload(key: string, chosen: KeyEntry.EncryptionMethod)
      modifies this`uploads
      ensures selectedFile.None? ==> uploads == old(uploads)
      ensures selectedFile.Some? ==> uploads == old(uploads) + [UploadRequest(selectedFile.value, key, chosen)]
    {
      if selectedFile.None? {
        return;
      }
      uploads := uploads + [UploadRequest(selectedFile.value, key, chosen)];
    }

    /** `handleCancelUpload`, the key dialog's `onCancel`. */
    method HandleCancelUpload()
      modifies this`isEncryptionModalOpen, this`selectedFile
      ensures !isEncryptionModalOpen && selectedFile.None?
    {
      isEncryptionModalOpen := false;
      selectedFile := None;
    }

    /**
     * The upload mutation's `onSuccess`: invalidate the cached file list so that it loads
     * again with the new row, close the dialog and forget the file.
     */
    method OnUploadSuccess()
      modifies this`isEncryptionModalOpen, this`selectedFile, this`refetches
      ensures refetches == old(refetches) + 1
      ensures !isEncryptionModalOpen && selectedFile.None?
    {
      refetches := refetches + 1;
      isEncryptionModalOpen := false;
      selectedFile := None;
    }

    /** The list's `onDelete`: hand the file id to the delete mutation. */
    method HandleDelete(fileId: string)
      modifies this`deletions
      ensures deletions == old(deletions) + [fileId]
    {
      deletions := deletions + [fileId];
    }

    /** The delete mutation's `onSuccess`: invalidate the cached file list; nothing else changes. */
    method OnDeleteSuccess()
      modifies this`refetches
      ensures refetches == old(refetches) + 1
    {
      refetches := refetches + 1;
    }
  }

  /**
   * The upload mutation's `mutationFn`: `uploadFile(file, key, { encryptionMethod })` on the
   * backend, with the method chosen in the dialog.  On success the new `files` row names
   * the selected file and records that method, never the default in its place.
   */
  method UploadMutation(store: FileService.Backend, request: UploadRequest, user: Option<string>,
                        listing: Option<seq<SecureFile>>, now: nat, out: FileService.UploadOutcomes)
    returns (r: Result<SecureFile, FileService.ServiceError>)
    requires user.Some? && listing.Some? ==>
               FileService.AnswersSameNameQuery(listing.value, store.files, user.value, request.file.name)
    modifies store
    ensures r.Ok? ==> && store.files == old(store.files) + [r.value]
                      && r.value.name == request.file.name
                      && r.value.encryptionMethod == Some(KeyEntry.MethodLabel(request.chosen))
    ensures r.Err? ==> store.files == old(store.files)
  {
    r := store.UploadFile(request.file, request.key, Some(KeyEntry.MethodLabel(request.chosen)),
                          user, listing, now, out);
  }
}
