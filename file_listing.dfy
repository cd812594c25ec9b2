/**
 * The table of a user's files and its three dialogs: the decryption-key prompt before a
 * download or view, the delete confirmation, and the version picker.  Callbacks the list
 * invokes are recorded in `calls`, in order.
 */
module FileListing {
  import opened Wrappers
  import opened Strings
  import opened FileTypes

  /** A row as the dashboard hands it to the list. */
  datatype ListFile = ListFile(
    id: string,
    name: string,
    size: string,
    mimeType: string,
    encryptionKey: Option<string>,
    date: string,
    version: Option<int>,
    versions: Option<seq<FileVersion>>)

  // ---------------------------------------------------------------------------
  // Icons and row decorations

  datatype Icon = PdfIcon | DocIcon | XlsIcon | PptIcon | ImgIcon | GenericIcon

  /** The text inside each icon. */
  function IconText(icon: Icon): string
  {
    match icon
    case PdfIcon => "PDF"
    case DocIcon => "DOC"
    case XlsIcon => "XLS"
    case PptIcon => "PPT"
    case ImgIcon => "IMG"
    case GenericIcon => "FILE"
  }

  /** The lower-cased types that have an icon of their own. */
  const KnownTypes: set<string> :=
    {"pdf", "doc", "docx", "xls", "xlsx", "ppt", "pptx", "jpg", "jpeg", "png", "gif"}

  /** `getFileIcon`: the icon for a type, compared after lower-casing. */
  function FileIcon(fileType: string): (icon: Icon)
    ensures icon == PdfIcon <==> ToLower(fileType) == "pdf"
    ensures icon == DocIcon <==> ToLower(fileType) in {"doc", "docx"}
    ensures icon == XlsIcon <==> ToLower(fileType) in {"xls", "xlsx"}
    ensures icon == PptIcon <==> ToLower(fileType) in {"ppt", "pptx"}
    ensures icon == ImgIcon <==> ToLower(fileType) in {"jpg", "jpeg", "png", "gif"}
    ensures icon == GenericIcon <==> ToLower(fileType) !in KnownTypes
  {
    var t := ToLower(fileType);
    if t == "pdf" then PdfIcon
    else if t == "doc" || t == "docx" then DocIcon
    else if t == "xls" || t == "xlsx" then XlsIcon
    else if t == "ppt" || t == "pptx" then PptIcon
    else if t == "jpg" || t == "jpeg" || t == "png" || t == "gif" then ImgIcon
    else GenericIcon
  }

  /** Types that differ only in letter case get the same icon. */
  lemma FileIconIgnoresCase(a: string, b: string)
    requires ToLower(a) == ToLower(b)
    ensures FileIcon(a) == FileIcon(b)
  {
  }

  /** A type written in capitals is still recognised: "PDF" and "Jpeg" get their icons. */
  lemma FileIconCapitals()
    ensures FileIcon("PDF") == PdfIcon && FileIcon("Jpeg") == ImgIcon
  {
    assert ToLower("PDF") == "pdf";
    assert ToLower("Jpeg") == "jpeg";
  }

  /** A full MIME type is not an extension and falls back to the generic icon. */
  lemma MimeTypeGetsGenericIcon()
    ensures FileIcon("application/pdf") == GenericIcon
  {
    assert |ToLower("application/pdf")| == 15;
  }

  /**
   * The "vN" badge: only for a version that is set and above 1. A version of 0 would make the
   * list's `version && ...` guard render the text "0" where this shows nothing; uploads only
   * ever store versions from 1 upwards, so no listed file has version 0.
   */
  predicate ShowsVersionBadge(file: ListFile)
  {
    file.version.Some? && file.version.value > 1
  }

  /** The Versions button: only when the file has at least one version row. */
  predicate ShowsVersionsButton(file: ListFile)
  {
    file.versions.Some? && |file.versions.value| > 0
  }

  /** One rendered row. */
  datatype RowView = RowView(icon: Icon, typeText: string, name: string, size: string, date: string,
                             badge: Option<int>, versionsButton: bool)

  function RowOf(file: ListFile): (row: RowView)
    ensures row.icon == FileIcon(file.mimeType) && row.typeText == ToUpper(file.mimeType)
    ensures row.name == file.name && row.size == file.size && row.date == file.date
    ensures row.badge.Some? <==> ShowsVersionBadge(file)
    ensures row.badge.Some? ==> row.badge.value == file.version.value && row.badge.value >= 2
    ensures row.versionsButton <==> ShowsVersionsButton(file)
  {
    RowView(FileIcon(file.mimeType), ToUpper(file.mimeType), file.name, file.size, file.date,
            if ShowsVersionBadge(file) then Some(file.version.value) else None,
            ShowsVersionsButton(file))
  }

  /** What the list renders: the placeholder, or one row per file in order. */
  datatype ListView = NoFilesPlaceholder | Table(rows: seq<RowView>)

  function Render(files: seq<ListFile>): (v: ListView)
    ensures v == NoFilesPlaceholder <==> files == []
    ensures v.Table? ==> |v.rows| == |files| && forall i :: 0 <= i < |files| ==> v.rows[i] == RowOf(files[i])
  {
    if |files| == 0 then NoFilesPlaceholder
    else Table(seq(|files|, i requires 0 <= i < |files| => RowOf(files[i])))
  }

  // ---------------------------------------------------------------------------
  // The component

  datatype Action = DownloadAction | ViewAction

  /** The callbacks the list invokes. */
  datatype ListCall =
    | DownloadCall(fileId: string, key: string)
    | ViewCall(fileId: string, key: string)
    | DeleteCall(fileId: string)
    | VersionDownloadCall(fileId: string, versionId: string, key: string)

  datatype ShareTarget = ShareTarget(id: string, name: string)

  class FileList {
    const files: seq<ListFile>
    /** Whether the optional `onView` and `onVersionDownload` props were given. */
    const hasOnView: bool
    const hasOnVersionDownload: bool

    var decryptionKey: string
    var selectedFile: Option<ListFile>
    var isDecryptModalOpen: bool
    var isDeleteModalOpen: bool
    var fileToDelete: Option<string>
    var actionType: Action
    var isShareModalOpen: bool
    var fileToShare: Option<ShareTarget>
    var isVersionModalOpen: bool
    var selectedVersion: Option<string>
    var calls: seq<ListCall>

    constructor (files: seq<ListFile>, hasOnView: bool, hasOnVersionDownload: bool)
      ensures this.files == files && this.hasOnView == hasOnView
      ensures this.hasOnVersionDownload == hasOnVersionDownload
      ensures decryptionKey == "" && selectedFile.None? && fileToDelete.None? && fileToShare.None?
      ensures selectedVersion.None? && actionType == DownloadAction && calls == []
      ensures !isDecryptModalOpen && !isDeleteModalOpen && !isShareModalOpen && !isVersionModalOpen
    {
      this.files := files;
      this.hasOnView := hasOnView;
      this.hasOnVersionDownload := hasOnVersionDownload;
      decryptionKey := "";
      selectedFile := None;
      isDecryptModalOpen, isDeleteModalOpen, isShareModalOpen, isVersionModalOpen := false, false, false, false;
      fileToDelete := None;
      actionType := DownloadAction;
      fileToShare := None;
      selectedVersion := None;
      calls := [];
    }

    /**
     * The "Download Version" button is disabled until a version is picked and a key typed:
     * an enabled button passes `handleVersionDownload`'s version check and never hands
     * over an empty key.
     */
    function VersionDownloadDisabled(): (disabled: bool)
      reads this
      ensures !disabled ==> Truthy(selectedVersion) && decryptionKey != ""
      ensures !Truthy(selectedVersion) || decryptionKey == "" ==> disabled
    {
      !Truthy(selectedVersion) || decryptionKey == ""
    }

    /** `handleActionClick`: remember the file and action, clear the key, open the key prompt. */
    method HandleActionClick(file: ListFile, action: Action)
      modifies this`selectedFile, this`decryptionKey, this`actionType, this`isDecryptModalOpen
      ensures selectedFile == Some(file) && decryptionKey == "" && actionType == action && isDecryptModalOpen
    {
      selectedFile := Some(file);
      decryptionKey := "";
      actionType := action;
      isDecryptModalOpen := true;
    }

    /** Typing in either key field. */
    method SetDecryptionKey(key: string)
      modifies this`decryptionKey
      ensures decryptionKey == key
    {
      decryptionKey := key;
    }

    /**
     * `handleDecryptSubmit`: without a selected file nothing happens; otherwise the
     * action's callback gets the file id and key (a view only when `onView` was given),
     * and the prompt closes.
     */
    method HandleDecryptSubmit()
      modifies this`calls, this`isDecryptModalOpen
      ensures old(selectedFile).None? ==> calls == old(calls) && isDecryptModalOpen == old(isDecryptModalOpen)
      ensures selectedFile.Some? ==> !isDecryptModalOpen
      ensures selectedFile.Some? && actionType == DownloadAction ==>
                calls == old(calls) + [DownloadCall(selectedFile.value.id, decryptionKey)]
      ensures selectedFile.Some? && actionType == ViewAction ==>
                calls == old(calls) + (if hasOnView then [ViewCall(selectedFile.value.id, decryptionKey)] else [])
    {
      if selectedFile.None? {
        return;
      }
      if actionType == DownloadAction {
        calls := calls + [DownloadCall(selectedFile.value.id, decryptionKey)];
      } else if actionType == ViewAction && hasOnView {
        calls := calls + [ViewCall(selectedFile.value.id, decryptionKey)];
      }
      isDecryptModalOpen := false;
    }

    /** The key prompt's `onOpenChange` and its Cancel button. */
    method SetDecryptModalOpen(open: bool)
      modifies this`isDecryptModalOpen
      ensures isDecryptModalOpen == open
    {
      isDecryptModalOpen := open;
    }

    /** `handleDeleteClick`: remember the file and ask for confirmation. */
    method HandleDeleteClick(fileId: string)
      modifies this`fileToDelete, this`isDeleteModalOpen
      ensures fileToDelete == Some(fileId) && isDeleteModalOpen
    {
      fileToDelete := Some(fileId);
      isDeleteModalOpen := true;
    }

    /**
     * `handleConfirmDelete`: only with a pending (non-empty) file id does it call
     * `onDelete` and close; the pending id itself is kept.
     */
    method HandleConfirmDelete()
      modifies this`calls, this`isDeleteModalOpen
      ensures Truthy(fileToDelete) ==> calls == old(calls) + [DeleteCall(fileToDelete.value)] && !isDeleteModalOpen
      ensures !Truthy(fileToDelete) ==> calls == old(calls) && isDeleteModalOpen == old(isDeleteModalOpen)
    {
      if Truthy(fileToDelete) {
        calls := calls + [DeleteCall(fileToDelete.value)];
        isDeleteModalOpen := false;
      }
    }

    /** The delete dialog's `onOpenChange` and its Cancel button. */
    method SetDeleteModalOpen(open: bool)
      modifies this`isDeleteModalOpen
      ensures isDeleteModalOpen == open
    {
      isDeleteModalOpen := open;
    }

    /** `handleShareClick`: open the share dialog for this file. */
    method HandleShareClick(fileId: string, fileName: string)
      modifies this`fileToShare, this`isShareModalOpen
      ensures fileToShare == Some(ShareTarget(fileId, fileName)) && isShareModalOpen
    {
      fileToShare := Some(ShareTarget(fileId, fileName));
      isShareModalOpen := true;
    }

    /** The share dialog's `onClose`. */
    method CloseShareModal()
      modifies this`fileToShare, this`isShareModalOpen
      ensures fileToShare.None? && !isShareModalOpen
    {
      isShareModalOpen := false;
      fileToShare := None;
    }

    /** `handleViewVersions`: select the file and open the version picker. */
    method HandleViewVersions(file: ListFile)
      modifies this`selectedFile, this`isVersionModalOpen
      ensures selectedFile == Some(file) && isVersionModalOpen
    {
      selectedFile := Some(file);
      isVersionModalOpen := true;
    }

    /** Clicking a version entry or its radio button. */
    method SelectVersion(versionId: string)
      modifies this`selectedVersion
      ensures selectedVersion == Some(versionId)
    {
      selectedVersion := Some(versionId);
    }

    /** The version picker's `onOpenChange` and its Cancel button. */
    method SetVersionModalOpen(open: bool)
      modifies this`isVersionModalOpen
      ensures isVersionModalOpen == open
    {
      isVersionModalOpen := open;
    }

    /**
     * `handleVersionDownload`: with a selected file and version, call `onVersionDownload`
     * when it was given, then close the picker and clear the key and the version.
     */
    method HandleVersionDownload()
      modifies this`calls, this`isVersionModalOpen, this`decryptionKey, this`selectedVersion
      ensures old(selectedFile.None? || !Truthy(selectedVersion)) ==> unchanged(this)
      ensures old(selectedFile.Some? && Truthy(selectedVersion)) ==>
        && !isVersionModalOpen && decryptionKey == "" && selectedVersion.None?
        && calls == old(calls) +
             (if hasOnVersionDownload
              then [VersionDownloadCall(selectedFile.value.id, old(selectedVersion).value, old(decryptionKey))]
              else [])
      ensures old(!VersionDownloadDisabled() && selectedFile.Some?) && hasOnVersionDownload ==>
        && old(decryptionKey) != ""
        && calls == old(calls) + [VersionDownloadCall(selectedFile.value.id, old(selectedVersion).value, old(decryptionKey))]
    {
      if selectedFile.None? || !Truthy(selectedVersion) {
        return;
      }
      if hasOnVersionDownload {
        calls := calls + [VersionDownloadCall(selectedFile.value.id, selectedVersion.value, decryptionKey)];
      }
      isVersionModalOpen := false;
      decryptionKey := "";
      selectedVersion := None;
    }
  }
}
