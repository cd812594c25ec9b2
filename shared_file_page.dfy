/**
 * The page a share link opens: it redeems the token against the `file_shares` table,
 * stamps the share as accessed, decides between "expired", "not found" and the file
 * view, and lets the visitor download the file after typing any non-empty key.
 *
 * The decision is the pure function `Redeem`; the page is the class `SharedFile`, whose
 * fields are the component's state and whose methods are its effect and handlers.
 */
module SharedFilePage {
  import opened Wrappers
  import opened Strings
  import opened Seqs
  import opened FileTypes
  import FileService

  /** The file as the page shows it. */
  datatype SharedFileView = SharedFileView(
    id: string,
    name: string,
    size: string,
    mimeType: string,
    createdAt: string,
    fileId: string,
    recipientEmail: Option<string>,
    expiresAt: int)

  /** The outcome of redeeming a token. */
  datatype Redemption = NotFound | Expired | Valid(view: SharedFileView)

  /** The share rows that carry the given token. */
  function SharesWithToken(shares: seq<FileShare>, token: string): (rows: seq<FileShare>)
    ensures forall s :: s in rows <==> s in shares && s.shareToken == token
  {
    Filter((s: FileShare) => s.shareToken == token, shares)
  }

  /** A share has expired when its expiry instant lies strictly before `now`; it is still valid at that instant. */
  function HasExpired(share: FileShare, now: int): (expired: bool)
    ensures expired ==> share.expiresAt < now
    ensures now <= share.expiresAt ==> !expired
  {
    share.expiresAt < now
  }

  /** The view of a valid share: file facts from the joined `files` row, share facts from the share. */
  function ViewOf(share: FileShare, file: SecureFile): (v: SharedFileView)
    ensures v.name == file.name && v.size == file.size && v.mimeType == file.mimeType
    ensures v.createdAt == file.createdAt
    ensures v.id == share.id && v.fileId == share.fileId && v.recipientEmail == share.recipientEmail
    ensures v.expiresAt == share.expiresAt
  {
    SharedFileView(share.id, file.name, file.size, file.mimeType, file.createdAt,
                   share.fileId, share.recipientEmail, share.expiresAt)
  }

  /**
   * Redeeming `token` at `now`: the lookup must find exactly one share (`.single()`); an
   * expired share is `Expired`; a share whose joined file row is missing reads a field of
   * `null`, which throws, and so is `NotFound` too.
   */
  function Redeem(shares: seq<FileShare>, files: seq<SecureFile>, token: string, now: int): (r: Redemption)
    ensures |SharesWithToken(shares, token)| != 1 ==> r == NotFound
    ensures r == Expired <==> |SharesWithToken(shares, token)| == 1 && HasExpired(SharesWithToken(shares, token)[0], now)
    ensures r.Valid? ==>
      var share := SharesWithToken(shares, token)[0];
      && |SharesWithToken(shares, token)| == 1 && !HasExpired(share, now)
      && |FileService.RowsWithId(files, share.fileId)| == 1
      && r.view == ViewOf(share, FileService.RowsWithId(files, share.fileId)[0])
  {
    var found := SharesWithToken(shares, token);
    if |found| != 1 then NotFound
    else if HasExpired(found[0], now) then Expired
    else
      var joined := FileService.RowsWithId(files, found[0].fileId);
      if |joined| != 1 then NotFound else Valid(ViewOf(found[0], joined[0]))
  }

  /** The exact expiry instant still redeems: only a later instant is past it. */
  lemma ValidAtExpiryInstant(shares: seq<FileShare>, files: seq<SecureFile>, token: string)
    requires |SharesWithToken(shares, token)| == 1
    ensures Redeem(shares, files, token, SharesWithToken(shares, token)[0].expiresAt) != Expired
    ensures Redeem(shares, files, token, SharesWithToken(shares, token)[0].expiresAt + 1) == Expired
  {
  }

  /**
   * A share issued by `shareFile` at `issued` for `days` days, alone under its token and
   * pointing at an existing file, shows the file up to and including its expiry instant
   * and is expired at every later instant.
   */
  lemma IssuedShareLifetime(shares: seq<FileShare>, files: seq<SecureFile>, row: FileShare,
                            issued: int, days: int, now: int)
    requires SharesWithToken(shares, row.shareToken) == [row]
    requires row.expiresAt == FileService.ShareExpiry(issued, days)
    requires |FileService.RowsWithId(files, row.fileId)| == 1
    ensures now <= issued + days * FileService.DayMs ==>
              Redeem(shares, files, row.shareToken, now)
              == Valid(ViewOf(row, FileService.RowsWithId(files, row.fileId)[0]))
    ensures now > issued + days * FileService.DayMs ==> Redeem(shares, files, row.shareToken, now) == Expired
  {
  }

  // ---------------------------------------------------------------------------
  // The accessed_at stamp

  /** One share after the stamp: rows with the token get `accessed_at := at`. */
  function Touch(share: FileShare, token: string, at: int): (s: FileShare)
    ensures s.(accessedAt := share.accessedAt) == share
    ensures share.shareToken == token ==> s.accessedAt == Some(at)
    ensures share.shareToken != token ==> s == share
  {
    if share.shareToken == token then share.(accessedAt := Some(at)) else share
  }

  /** The `file_shares` table after `update({accessed_at}).eq('share_token', token)`. */
  function Touched(shares: seq<FileShare>, token: string, at: int): (r: seq<FileShare>)
    ensures |r| == |shares|
    ensures forall i :: 0 <= i < |shares| ==> r[i] == Touch(shares[i], token, at)
  {
    seq(|shares|, i requires 0 <= i < |shares| => Touch(shares[i], token, at))
  }

  /** Stamping never changes which rows carry a token, only their access instant. */
  lemma {:induction false} TouchedSharesWithToken(shares: seq<FileShare>, stamped: string, at: int, token: string)
    ensures SharesWithToken(Touched(shares, stamped, at), token) == Touched(SharesWithToken(shares, token), stamped, at)
    decreases |shares|
  {
    var p := (s: FileShare) => s.shareToken == token;
    if shares != [] {
      var t := Touched(shares, stamped, at);
      assert t == [t[0]] + t[1..];
      assert t[1..] == Touched(shares[1..], stamped, at);
      assert shares == [shares[0]] + shares[1..];
      FilterConcat(p, [t[0]], t[1..]);
      FilterConcat(p, [shares[0]], shares[1..]);
      TouchedSharesWithToken(shares[1..], stamped, at, token);
      assert [t[0]][1..] == [] && [shares[0]][1..] == [];
      var rest := SharesWithToken(shares[1..], token);
      if p(shares[0]) {
        assert Touched([shares[0]] + rest, stamped, at) == [t[0]] + Touched(rest, stamped, at);
      }
    }
  }

  /**
   * Redemption does not depend on when a share was last opened: redeeming again after the
   * stamp of an earlier redemption gives the same answer and the same file facts.
   */
  lemma RedeemIgnoresStamp(shares: seq<FileShare>, files: seq<SecureFile>, stamped: string, at: int,
                           token: string, now: int)
    ensures Redeem(Touched(shares, stamped, at), files, token, now) == Redeem(shares, files, token, now)
  {
    TouchedSharesWithToken(shares, stamped, at, token);
  }

  // ---------------------------------------------------------------------------
  // The page

  /** What the page renders, in the order its checks run. */
  datatype Screen = LoadingScreen | ExpiredScreen | NotFoundScreen | FileScreen(file: SharedFileView)

  /** The screen a fresh page settles on after redeeming. */
  function ScreenFor(r: Redemption): (s: Screen)
    ensures r == NotFound <==> s == NotFoundScreen
    ensures r == Expired <==> s == ExpiredScreen
    ensures r.Valid? <==> s.FileScreen?
    ensures r.Valid? ==> s.file == r.view
  {
    match r
    case NotFound => NotFoundScreen
    case Expired => ExpiredScreen
    case Valid(v) => FileScreen(v)
  }

  /** `handleDownload`'s fetch: the file's storage path by id, then the blob, saved under the file's name. */
  function SharedDownload(files: seq<SecureFile>, blobs: map<string, seq<bv8>>, file: SharedFileView)
    : (d: Option<FileService.Download>)
    ensures d.Some? <==> |FileService.RowsWithId(files, file.fileId)| == 1
                         && FileService.RowsWithId(files, file.fileId)[0].storagePath in blobs
    ensures d.Some? ==> d.value.name == file.name
                        && d.value.content == blobs[FileService.RowsWithId(files, file.fileId)[0].storagePath]
  {
    var rows := FileService.RowsWithId(files, file.fileId);
    if |rows| == 1 && rows[0].storagePath in blobs then
      Some(FileService.Download(file.name, blobs[rows[0].storagePath]))
    else
      None
  }

  class SharedFile {
    /** The `:token` route parameter. */
    const token: Option<string>
    var file: Option<SharedFileView>
    var encryptionKey: string
    var isLoading: bool
    var isExpired: bool
    var isDownloading: bool

    constructor (token: Option<string>)
      ensures this.token == token
      ensures file.None? && encryptionKey == "" && isLoading && !isExpired && !isDownloading
    {
      this.token := token;
      file := None;
      encryptionKey := "";
      isLoading := true;
      isExpired := false;
      isDownloading := false;
    }

    /** The render: loading first, then expired, then missing file, then the file itself. */
    function Screen(): (s: Screen)
      reads this
      ensures isLoading <==> s == LoadingScreen
      ensures s == ExpiredScreen <==> !isLoading && isExpired
      ensures s == NotFoundScreen <==> !isLoading && !isExpired && file.None?
      ensures s.FileScreen? ==> file == Some(s.file)
    {
      if isLoading then LoadingScreen
      else if isExpired then ExpiredScreen
      else if file.None? then NotFoundScreen
      else FileScreen(file.value)
    }

    /**
     * The download button is disabled without a key or while a download runs: an enabled
     * button never starts a second download or one without a key.
     */
    function DownloadDisabled(): (disabled: bool)
      reads this
      ensures !disabled ==> encryptionKey != "" && !isDownloading
      ensures isDownloading || encryptionKey == "" ==> disabled
    {
      encryptionKey == "" || isDownloading
    }

    /**
     * The mount effect `fetchSharedFile`.  Without a token it returns at once and the page
     * keeps loading.  Otherwise it looks the share up, stamps `accessed_at` (the update's
     * own failure is ignored), decides, and always ends loading.
     */
    method FetchSharedFile(store: FileService.Backend, now: int, stampAccepted: bool)
      modifies this, store`shares
      ensures !Truthy(token) ==> unchanged(this) && store.shares == old(store.shares)
      ensures Truthy(token) ==>
        var r := Redeem(old(store.shares), store.files, token.value, now);
        && !isLoading && isDownloading == old(isDownloading) && encryptionKey == old(encryptionKey)
        && (r == NotFound ==> file == old(file) && isExpired == old(isExpired))
        && (r == Expired ==> file == old(file) && isExpired)
        && (r.Valid? ==> file == Some(r.view) && isExpired == old(isExpired))
      ensures Truthy(token) ==>
        store.shares == if |SharesWithToken(old(store.shares), token.value)| == 1 && stampAccepted
                        then Touched(old(store.shares), token.value, now) else old(store.shares)
      ensures Truthy(token) && old(file).None? && !old(isExpired) ==>
        Screen() == ScreenFor(Redeem(old(store.shares), store.files, token.value, now))
    {
      if !Truthy(token) {
        return;
      }
      var t := token.value;
      var found := SharesWithToken(store.shares, t);
      if |found| == 1 {
        var share := found[0];
        if stampAccepted {
          store.shares := Touched(store.shares, t, now);
        }
        if HasExpired(share, now) {
          isExpired := true;
        } else {
          var joined := FileService.RowsWithId(store.files, share.fileId);
          if |joined| == 1 {
            file := Some(ViewOf(share, joined[0]));
          }
        }
      }
      isLoading := false;
    }

    /** Typing in the key field. */
    method SetEncryptionKey(key: string)
      modifies this`encryptionKey
      ensures encryptionKey == key
    {
      encryptionKey := key;
    }

    /**
     * The synchronous part of `handleDownload`: with a loaded file and a non-empty key
     * the download starts; the key is not checked against anything.
     */
    method BeginDownload() returns (started: bool)
      modifies this`isDownloading
      ensures started <==> file.Some? && encryptionKey != ""
      ensures old(!DownloadDisabled()) && file.Some? ==> started
      ensures isDownloading == (started || old(isDownloading))
    {
      if file.None? || encryptionKey == "" {
        return false;
      }
      isDownloading := true;
      return true;
    }

    /**
     * The rest of `handleDownload`: fetch the blob and hand it to the browser; success
     * or failure, the download ends.  The key takes no part in what is fetched.
     */
    method FinishDownload(store: FileService.Backend) returns (d: Option<FileService.Download>)
      requires file.Some?
      modifies this`isDownloading
      ensures !isDownloading
      ensures d == SharedDownload(store.files, store.blobs, file.value)
    {
      d := SharedDownload(store.files, store.blobs, file.value);
      isDownloading := false;
    }
  }
}
