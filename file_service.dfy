/**
 * The file-metadata service: uploads with version assignment, deletion, share issuance,
 * loading a user's files with their version history, and the pure helpers beside them
 * (size formatting, storage paths, versioned download names, share links).
 *
 * The hosted backend is the class `Backend`: its tables are sequences of rows and its blob
 * bucket is a map from path to bytes.  Every store call that can fail takes its outcome as
 * a parameter, and a query whose order the store does not promise is given as any
 * permutation of the rows it selects.
 */
module FileService {
  import opened Wrappers
  import opened Strings
  import opened Seqs
  import opened FileTypes

  /** The browser `File` an upload reads: its name, byte size, MIME type and bytes. */
  datatype BrowserFile = BrowserFile(name: string, size: nat, mimeType: string, content: seq<bv8>)

  /** Why a service call threw; the backend's own message is not modelled. */
  datatype ServiceError =
    | NotAuthenticated   // no signed-in user
    | LookupFailed       // a query failed, or `.single()` did not find exactly one row
    | StorageFailed      // the blob bucket refused the call
    | RecordFailed       // a table insert or delete was refused

  const DefaultEncryptionMethod := "AES-256"

  // ---------------------------------------------------------------------------
  // Size formatting

  const KiB := 1024
  const MiB := 1048576
  const GiB := 1073741824

  datatype SizeUnit = Bytes | Kilobytes | Megabytes | Gigabytes

  /** The unit `formatFileSize` picks: the largest one that keeps the value at least 1. */
  function UnitOf(bytes: nat): (u: SizeUnit)
    ensures u == Bytes <==> bytes < KiB
    ensures u == Kilobytes <==> KiB <= bytes < MiB
    ensures u == Megabytes <==> MiB <= bytes < GiB
    ensures u == Gigabytes <==> GiB <= bytes
  {
    if bytes < KiB then Bytes else if bytes < MiB then Kilobytes else if bytes < GiB then Megabytes else Gigabytes
  }

  /** The number of bytes in one of the unit. */
  function UnitScale(u: SizeUnit): (scale: nat)
    ensures scale > 0 && (u != Bytes ==> scale % 2 == 0)
  {
    match u
    case Bytes => 1
    case Kilobytes => KiB
    case Megabytes => MiB
    case Gigabytes => GiB
  }

  function UnitSuffix(u: SizeUnit): string
  {
    match u
    case Bytes => " B"
    case Kilobytes => " KB"
    case Megabytes => " MB"
    case Gigabytes => " GB"
  }

  /**
   * `(bytes / scale).toFixed(2)` counts hundredths: the integer `n` nearest to
   * `100 * bytes / scale`, the larger one on a tie.
   */
  function RoundedHundredths(bytes: nat, scale: nat): (n: nat)
    requires scale > 0 && scale % 2 == 0
    ensures n * scale <= 100 * bytes + scale / 2 < (n + 1) * scale
  {
    var x := 100 * bytes + scale / 2;
    assert x == (x / scale) * scale + x % scale;
    x / scale
  }

  /**
   * The text `toFixed(2)` writes for `n` hundredths: the whole units, which `parseInt`
   * reads back, then a point and two digits that spell the remaining hundredths.
   */
  function FixedTwo(n: nat): (s: string)
    ensures |s| >= 4 && s[|s| - 3] == '.'
    ensures ParseInt(s) == Some(n / 100)
    ensures IsDigit(s[|s| - 2]) && IsDigit(s[|s| - 1])
    ensures AllDigits(s[..|s| - 3]) && (s[0] == '0' ==> |s| == 4)
    ensures 100 * (n / 100) + 10 * DigitValue(s[|s| - 2]) + DigitValue(s[|s| - 1]) == n
  {
    var a, b := DigitChar(n % 100 / 10), DigitChar(n % 10);
    WholeThenDecimals(n / 100, a, b);
    NatToString(n / 100) + "." + [a, b]
  }

  /** The digits of `w`, a point and two digits: `parseInt` reads `w`, and only "0" starts with a zero. */
  lemma WholeThenDecimals(w: nat, a: char, b: char)
    ensures var s := NatToString(w) + "." + [a, b];
            && ParseInt(s) == Some(w)
            && s[..|s| - 3] == NatToString(w)
            && (s[0] == '0' ==> |s| == 4)
  {
    var whole := NatToString(w);
    var rest := "." + [a, b];
    assert whole + "." + [a, b] == whole + rest;
    assert (whole + rest)[..|whole|] == whole;
    assert w == 0 ==> whole == "0";
    LeadingDigitsOfPrefix(whole, rest);
    DigitsValueOfNatToString(w);
  }

  /** `formatFileSize`: whole bytes below 1 KiB, otherwise hundredths of the chosen unit. */
  function FormatFileSize(bytes: nat): (s: string)
    ensures EndsWith(s, UnitSuffix(UnitOf(bytes)))
    ensures bytes < KiB ==> s == NatToString(bytes) + " B"
    ensures KiB <= bytes < MiB ==> s == FixedTwo(RoundedHundredths(bytes, KiB)) + " KB"
    ensures MiB <= bytes < GiB ==> s == FixedTwo(RoundedHundredths(bytes, MiB)) + " MB"
    ensures GiB <= bytes ==> s == FixedTwo(RoundedHundredths(bytes, GiB)) + " GB"
  {
    if bytes < KiB then NatToString(bytes) + " B"
    else if bytes < MiB then FixedTwo(RoundedHundredths(bytes, KiB)) + " KB"
    else if bytes < GiB then FixedTwo(RoundedHundredths(bytes, MiB)) + " MB"
    else FixedTwo(RoundedHundredths(bytes, GiB)) + " GB"
  }

  /** Below 1 KiB the formatted size reads back as the byte count. */
  lemma SmallSizeReadsBack(bytes: nat)
    requires bytes < KiB
    ensures ParseInt(FormatFileSize(bytes)) == Some(bytes)
  {
    var d := NatToString(bytes);
    var s := d + " B";
    LeadingDigitsOfDigits(d);
    assert LeadingDigits(s) == d by {
      LeadingDigitsOfPrefix(d, " B");
    }
    DigitsValueOfNatToString(bytes);
  }

  /** Above 1 KiB the formatted size reads back as the whole units of the rounded value. */
  lemma LargeSizeReadsBack(bytes: nat)
    requires KiB <= bytes
    ensures ParseInt(FormatFileSize(bytes)) == Some(RoundedHundredths(bytes, UnitScale(UnitOf(bytes))) / 100)
  {
    var n := RoundedHundredths(bytes, UnitScale(UnitOf(bytes)));
    assert FormatFileSize(bytes) == FixedTwo(n) + UnitSuffix(UnitOf(bytes));
    FixedTwoReadsBack(n, UnitSuffix(UnitOf(bytes)));
  }

  /** Whatever follows it, `parseInt` stops at the point of a `toFixed(2)` text. */
  lemma FixedTwoReadsBack(n: nat, suffix: string)
    ensures ParseInt(FixedTwo(n) + suffix) == Some(n / 100)
  {
    var whole := NatToString(n / 100);
    var rest := "." + [DigitChar(n % 100 / 10), DigitChar(n % 10)] + suffix;
    assert FixedTwo(n) + suffix == whole + rest;
    LeadingDigitsOfPrefix(whole, rest);
    DigitsValueOfNatToString(n / 100);
  }

  lemma {:induction false} LeadingDigitsOfPrefix(d: string, rest: string)
    requires AllDigits(d)
    requires rest != [] && !IsDigit(rest[0])
    ensures LeadingDigits(d + rest) == d
    decreases |d|
  {
    if d != [] {
      assert (d + rest)[1..] == d[1..] + rest;
      LeadingDigitsOfPrefix(d[1..], rest);
    }
  }

  // ---------------------------------------------------------------------------
  // The new file row

  /** `file.type || file.name.split('.').pop() || ''`. */
  function FileTypeOf(file: BrowserFile): (t: string)
    ensures file.mimeType != "" ==> t == file.mimeType
    ensures file.mimeType == "" ==> '.' !in t && EndsWith(file.name, t)
    ensures file.mimeType == "" && '.' !in file.name ==> t == file.name
  {
    if file.mimeType != "" then file.mimeType else AfterLast(file.name, '.')
  }

  /** Without a MIME type, the stored type is the file's extension after its last dot. */
  lemma TypeFallbackIsExtension(file: BrowserFile)
    requires file.mimeType == "" && '.' in file.name
    ensures file.name == BeforeLast(file.name, '.') + "." + FileTypeOf(file)
  {
    SplitAtLast(file.name, '.');
  }

  /** `${user.id}/${Date.now()}_${file.name}`. */
  function StoragePath(userId: string, now: nat, name: string): (p: string)
    ensures EndsWith(p, "_" + name)
    ensures |p| > |userId| && p[..|userId| + 1] == userId + "/"
  {
    var p := userId + "/" + NatToString(now) + "_" + name;
    assert p[..|userId| + 1] == userId + "/";
    assert p[|p| - |"_" + name|..] == "_" + name;
    p
  }

  /** Two uploads of one name by one user at different instants get different blob paths. */
  lemma StoragePathsDifferByInstant(userId: string, t1: nat, t2: nat, name: string)
    requires t1 != t2
    ensures StoragePath(userId, t1, name) != StoragePath(userId, t2, name)
  {
    var d1, d2 := NatToString(t1), NatToString(t2);
    var p1, p2 := StoragePath(userId, t1, name), StoragePath(userId, t2, name);
    if p1 == p2 {
      assert p1 == userId + "/" + d1 + "_" + name;
      assert p2 == userId + "/" + d2 + "_" + name;
      assert |d1| == |d2|;
      assert d1 == p1[|userId| + 1..|userId| + 1 + |d1|];
      assert d2 == p2[|userId| + 1..|userId| + 1 + |d2|];
      NatToStringInjective(t1, t2);
    }
  }

  /** The version number and superseded row chosen for an upload. */
  datatype VersionLink = VersionLink(version: int, previousVersionId: Option<string>)

  /** An upload is an update when the same-name query returned at least one row. */
  predicate IsUpdate(listing: Option<seq<SecureFile>>)
  {
    listing.Some? && |listing.value| > 0
  }

  /**
   * Version assignment: a first upload is version 1 with no predecessor; otherwise the
   * FIRST row the store returned is the predecessor and the version is one more than its
   * version (a missing or zero version counting as 1).  A failed query counts as no rows.
   */
  function NextVersion(listing: Option<seq<SecureFile>>): (link: VersionLink)
    ensures !IsUpdate(listing) ==> link == VersionLink(1, None)
    ensures IsUpdate(listing) ==> link.previousVersionId == Some(listing.value[0].id)
    ensures IsUpdate(listing) && listing.value[0].version != 0 ==> link.version == listing.value[0].version + 1
    ensures IsUpdate(listing) && listing.value[0].version == 0 ==> link.version == 2
  {
    if IsUpdate(listing) then
      var first := listing.value[0];
      VersionLink((if first.version == 0 then 1 else first.version) + 1, Some(first.id))
    else
      VersionLink(1, None)
  }

  /** When the store happens to return the newest version first, the new version exceeds them all. */
  lemma NewestFirstExceedsAll(listing: seq<SecureFile>)
    requires |listing| > 0
    requires forall i :: 0 <= i < |listing| ==> listing[i].version <= listing[0].version
    ensures forall i :: 0 <= i < |listing| ==> NextVersion(Some(listing)).version > listing[i].version
  {
  }

  /**
   * When the store returns rows in insertion order, re-uploading a file that already has a
   * version 1 and a version 2 row yields version 2 again, linked to the version 1 row.
   */
  lemma InsertionOrderRepeatsVersion(v1: SecureFile, v2: SecureFile)
    requires v1.version == 1 && v2.version == 2
    ensures NextVersion(Some([v1, v2])) == VersionLink(v2.version, Some(v1.id))
  {
  }

  /** The rows of `files` the same-name query selects. */
  function SameNameRows(files: seq<SecureFile>, userId: string, name: string): (rows: seq<SecureFile>)
    ensures forall f :: f in rows <==> f in files && f.userId == userId && f.name == name
  {
    Filter((f: SecureFile) => f.userId == userId && f.name == name, files)
  }

  /** The store's answer to the same-name query: those rows, in an order it does not promise. */
  predicate AnswersSameNameQuery(listing: seq<SecureFile>, files: seq<SecureFile>, userId: string, name: string)
  {
    multiset(listing) == multiset(SameNameRows(files, userId, name))
  }

  /**
   * Appending a new row of that name keeps the earlier rows first, so a store that answers
   * in insertion order keeps naming the same predecessor and the same version.
   */
  lemma AppendKeepsPredecessor(files: seq<SecureFile>, row: SecureFile, userId: string, name: string)
    requires row.userId == userId && row.name == name
    requires |SameNameRows(files, userId, name)| > 0
    ensures SameNameRows(files + [row], userId, name) == SameNameRows(files, userId, name) + [row]
    ensures NextVersion(Some(SameNameRows(files + [row], userId, name)))
         == NextVersion(Some(SameNameRows(files, userId, name)))
  {
    var p := (f: SecureFile) => f.userId == userId && f.name == name;
    FilterConcat(p, files, [row]);
    assert Filter(p, [row]) == [row] by {
      assert [row][1..] == [];
    }
  }

  /** The `files` row an upload inserts; the id and timestamps are the store's. */
  function NewFileRow(file: BrowserFile, userId: string, now: nat, encryptionMethod: string,
                      link: VersionLink, rowId: string, stamp: string): (r: SecureFile)
    ensures r.id == rowId && r.name == file.name && r.userId == userId
    ensures r.isEncrypted && r.encryptionMethod == Some(encryptionMethod)
    ensures r.size == FormatFileSize(file.size) && r.mimeType == FileTypeOf(file) && r.versions.None?
    ensures r.version == link.version && r.previousVersionId == link.previousVersionId
    ensures r.storagePath == StoragePath(userId, now, file.name)
  {
    SecureFile(rowId, file.name, FormatFileSize(file.size), FileTypeOf(file),
               StoragePath(userId, now, file.name), userId, true, stamp, stamp,
               link.version, Some(encryptionMethod), link.previousVersionId, None)
  }

  /** The method an upload records: the caller's, or AES-256 when the options are left out. */
  function MethodOrDefault(encryptionMethod: Option<string>): (m: string)
    ensures encryptionMethod.None? ==> m == "AES-256"
    ensures encryptionMethod.Some? ==> m == encryptionMethod.value
  {
    if encryptionMethod.Some? then encryptionMethod.value else DefaultEncryptionMethod
  }

  /**
   * An upload writes a version-history row when it is an update whose predecessor id is
   * a non-empty string; a first upload never does.
   */
  predicate WritesVersionRow(listing: Option<seq<SecureFile>>)
  {
    IsUpdate(listing) && Truthy(NextVersion(listing).previousVersionId)
  }

  /** The `file_versions` row written for an update: it points from the new row to the superseded one. */
  function VersionRowFor(row: SecureFile, rowId: string, stamp: string): (v: FileVersion)
    ensures v.fileId == row.id && v.version == row.version && v.previousVersionId == row.previousVersionId
  {
    FileVersion(rowId, row.id, row.version, row.previousVersionId, stamp)
  }

  // ---------------------------------------------------------------------------
  // Versioned download names

  /**
   * The name a version download is saved under: the text before the last dot, `_v`, the
   * version number, a dot, and the text after the last dot.  A name without a dot keeps
   * its whole text as the base and gets an empty extension.
   */
  function VersionedFileName(name: string, version: int): (r: string)
    ensures '.' in r
    ensures '.' in name ==> AfterLast(r, '.') == AfterLast(name, '.')
    ensures '.' in name ==> BeforeLast(r, '.') == BeforeLast(name, '.') + "_v" + IntToString(version)
    ensures '.' !in name ==> r == name + "_v" + IntToString(version) + "."
  {
    var ext := if '.' in name then AfterLast(name, '.') else "";
    var base := if '.' in name then BeforeLast(name, '.') else name;
    var head := base + "_v" + IntToString(version);
    LastDotOfJoin(head, ext);
    head + "." + ext
  }

  /**
   * Joining `head` and a dot-free `tail` with a dot puts the last dot between them, so
   * cutting at the last dot gives both parts back.
   */
  lemma LastDotOfJoin(head: string, tail: string)
    requires '.' !in tail
    ensures '.' in head + "." + tail
    ensures LastIndexOf(head + "." + tail, '.') == |head|
    ensures BeforeLast(head + "." + tail, '.') == head && AfterLast(head + "." + tail, '.') == tail
  {
    var s := head + "." + tail;
    assert s[|head|] == '.';
    assert s[|head| + 1..] == tail;
    assert s[..|head|] == head;
  }

  /** The versioned name puts the original name back together: base, version tag, extension. */
  lemma {:induction false} VersionedNameKeepsName(name: string, version: int)
    requires '.' in name
    ensures VersionedFileName(name, version)
         == BeforeLast(name, '.') + "_v" + IntToString(version) + "." + AfterLast(name, '.')
    ensures name == BeforeLast(name, '.') + "." + AfterLast(name, '.')
  {
    SplitAtLast(name, '.');
  }

  // ---------------------------------------------------------------------------
  // Share issuance

  /** A day in milliseconds: calendar days are taken to be 24 hours long. */
  const DayMs := 86_400_000

  /** The number of days a share lasts when the caller does not say. */
  const DefaultShareDays := 7

  /** The expiry instant of a share issued at `now` for `days` days. */
  function ShareExpiry(now: int, days: int): (t: int)
    ensures days > 0 ==> t > now
    ensures t - now == days * DayMs
  {
    now + days * DayMs
  }

  predicate IsBase36Digit(c: char) { '0' <= c <= '9' || 'a' <= c <= 'z' }

  /** What `Math.random().toString(36)` writes: `0`, or `0.` and base-36 digits. */
  predicate IsRandomBase36(draw: string)
  {
    draw == "0" || (|draw| >= 2 && draw[..2] == "0." && forall i :: 2 <= i < |draw| ==> IsBase36Digit(draw[i]))
  }

  /** `generateShareToken`: up to 13 digits after `0.` of each of two random draws, concatenated. */
  function ShareToken(draw1: string, draw2: string): (t: string)
    requires IsRandomBase36(draw1) && IsRandomBase36(draw2)
    ensures |t| <= 26
    ensures forall i :: 0 <= i < |t| ==> IsBase36Digit(t[i])
  {
    var a := Substring(draw1, 2, 15);
    var b := Substring(draw2, 2, 15);
    assert forall i :: 0 <= i < |a| ==> a[i] == draw1[i + 2];
    assert forall i :: 0 <= i < |b| ==> b[i] == draw2[i + 2];
    a + b
  }

  const SharedRoute := "/shared/"

  /** `${origin}/shared/${token}`. */
  function ShareLink(origin: string, token: string): (link: string)
    ensures |link| == |origin| + |SharedRoute| + |token|
    ensures link[..|origin|] == origin && link[|origin|..|origin| + |SharedRoute|] == SharedRoute
    ensures link[|origin| + |SharedRoute|..] == token
  {
    origin + SharedRoute + token
  }

  /** The `:token` the `/shared/:token` route reads from a path: one non-empty segment. */
  function RouteToken(path: string): (token: Option<string>)
    ensures token.Some? ==> '/' !in token.value && token.value != [] && path == SharedRoute + token.value
  {
    if |path| > |SharedRoute| && path[..|SharedRoute|] == SharedRoute && '/' !in path[|SharedRoute|..] then
      assert path == SharedRoute + path[|SharedRoute|..];
      Some(path[|SharedRoute|..])
    else
      None
  }

  /** A link issued for a generated token leads the recipient's page back to that token. */
  lemma ShareLinkRoutesToToken(origin: string, draw1: string, draw2: string)
    requires IsRandomBase36(draw1) && IsRandomBase36(draw2)
    requires ShareToken(draw1, draw2) != []
    ensures RouteToken(ShareLink(origin, ShareToken(draw1, draw2))[|origin|..]) == Some(ShareToken(draw1, draw2))
  {
    var t := ShareToken(draw1, draw2);
    var path := ShareLink(origin, t)[|origin|..];
    assert path == SharedRoute + t;
    assert path[|SharedRoute|..] == t;
    assert forall c :: c in t ==> IsBase36Digit(c);
  }

  /** The row a share inserts: the store gives its id; nobody has opened it yet. */
  function NewShareRow(rowId: string, fileId: string, recipientEmail: string, now: int, days: int,
                       token: string): (s: FileShare)
    ensures s.fileId == fileId && s.shareToken == token && s.recipientEmail == Some(recipientEmail)
    ensures s.expiresAt == ShareExpiry(now, days) && s.accessedAt.None?
  {
    FileShare(rowId, fileId, token, Some(recipientEmail), now, ShareExpiry(now, days), None)
  }

  // ---------------------------------------------------------------------------
  // The backend: tables and blob bucket

  /** The rows of `files` with the given id; `.single()` succeeds when there is exactly one. */
  function RowsWithId(files: seq<SecureFile>, id: string): (rows: seq<SecureFile>)
    ensures forall f :: f in rows <==> f in files && f.id == id
  {
    Filter((f: SecureFile) => f.id == id, files)
  }

  /** The rows of `file_versions` with the given id. */
  function VersionRowsWithId(versions: seq<FileVersion>, id: string): (rows: seq<FileVersion>)
    ensures forall v :: v in rows <==> v in versions && v.id == id
  {
    Filter((v: FileVersion) => v.id == id, versions)
  }

  /** The rows of `files` left after deleting every row with the given id. */
  function WithoutId(files: seq<SecureFile>, id: string): (rows: seq<SecureFile>)
    ensures forall f :: f in rows <==> f in files && f.id != id
  {
    Filter((f: SecureFile) => f.id != id, files)
  }

  /** What a blob download hands to the browser: the name to save under and the bytes. */
  datatype Download = Download(name: string, content: seq<bv8>)

  /** Whether each write of an upload is accepted; the ids and timestamp are the store's. */
  datatype UploadOutcomes = UploadOutcomes(
    blobAccepted: bool,
    fileRowId: Option<string>,      // None: the `files` insert was refused
    versionRowId: Option<string>,   // None: the `file_versions` insert was refused
    stamp: string)

  /** Whether each write of a delete is accepted. */
  datatype DeleteOutcomes = DeleteOutcomes(blobRemoved: bool, rowDeleted: bool)

  /** The hosted backend as the service sees it: three tables and one blob bucket. */
  class Backend {
    var files: seq<SecureFile>
    var versions: seq<FileVersion>
    var shares: seq<FileShare>
    var blobs: map<string, seq<bv8>>

    constructor ()
      ensures files == [] && versions == [] && shares == [] && blobs == map[]
    {
      files, versions, shares, blobs := [], [], [], map[];
    }

    /**
     * `uploadFile`.  `user` is the signed-in user's id, `listing` the answer to the
     * same-name query (None when that query failed), `now` the clock in milliseconds.
     * The encryption key is accepted and never used.
     */
    method UploadFile(file: BrowserFile, encryptionKey: string, encryptionMethod: Option<string>,
                      user: Option<string>, listing: Option<seq<SecureFile>>, now: nat,
                      out: UploadOutcomes)
      returns (r: Result<SecureFile, ServiceError>)
      requires user.Some? && listing.Some? ==> AnswersSameNameQuery(listing.value, files, user.value, file.name)
      modifies this`files, this`versions, this`blobs
      ensures shares == old(shares)
      ensures r == Err(NotAuthenticated) <==> user.None?
      ensures r.Err? && r.error != RecordFailed ==>
                files == old(files) && versions == old(versions) && blobs == old(blobs)
      ensures user.Some? ==>
        (r == Err(StorageFailed) <==> StoragePath(user.value, now, file.name) in old(blobs) || !out.blobAccepted)
      ensures user.Some? ==>
        (r == Err(RecordFailed) <==> StoragePath(user.value, now, file.name) !in old(blobs) && out.blobAccepted && out.fileRowId.None?)
      ensures user.Some? ==>
        (r.Ok? <==> StoragePath(user.value, now, file.name) !in old(blobs) && out.blobAccepted && out.fileRowId.Some?)
      ensures r == Err(RecordFailed) ==>
        && user.Some? && files == old(files) && versions == old(versions)
        && blobs == old(blobs)[StoragePath(user.value, now, file.name) := file.content]
      ensures r.Ok? ==>
        && user.Some? && out.fileRowId.Some?
        && r.value == NewFileRow(file, user.value, now, MethodOrDefault(encryptionMethod), NextVersion(listing),
                                 out.fileRowId.value, out.stamp)
        && blobs == old(blobs)[StoragePath(user.value, now, file.name) := file.content]
        && files == old(files) + [r.value]
      ensures r.Ok? ==>
        versions == old(versions) +
          (if WritesVersionRow(listing) && out.versionRowId.Some?
           then [VersionRowFor(r.value, out.versionRowId.value, out.stamp)] else [])
    {
      if user.None? {
        return Err(NotAuthenticated);
      }
      r := StoreUpload(file, encryptionMethod, user.value, listing, now, out);
    }

    /**
     * `uploadFile` once the user is known: put the blob, insert the row, and for an update
     * insert the version row.  Each step runs only when the one before it succeeded.
     */
    method StoreUpload(file: BrowserFile, encryptionMethod: Option<string>, userId: string,
                       listing: Option<seq<SecureFile>>, now: nat, out: UploadOutcomes)
      returns (r: Result<SecureFile, ServiceError>)
      modifies this`files, this`versions, this`blobs
      ensures r != Err(NotAuthenticated)
      ensures r == Err(StorageFailed) <==> StoragePath(userId, now, file.name) in old(blobs) || !out.blobAccepted
      ensures r == Err(StorageFailed) ==> files == old(files) && versions == old(versions) && blobs == old(blobs)
      ensures r == Err(RecordFailed) <==>
                StoragePath(userId, now, file.name) !in old(blobs) && out.blobAccepted && out.fileRowId.None?
      ensures r == Err(RecordFailed) ==>
                && files == old(files) && versions == old(versions)
                && blobs == old(blobs)[StoragePath(userId, now, file.name) := file.content]
      ensures r.Ok? <==> StoragePath(userId, now, file.name) !in old(blobs) && out.blobAccepted && out.fileRowId.Some?
      ensures r.Ok? ==>
        && out.fileRowId.Some?
        && r.value == NewFileRow(file, userId, now, MethodOrDefault(encryptionMethod), NextVersion(listing),
                                 out.fileRowId.value, out.stamp)
        && blobs == old(blobs)[StoragePath(userId, now, file.name) := file.content]
        && files == old(files) + [r.value]
        && versions == old(versions) +
             (if WritesVersionRow(listing) && out.versionRowId.Some?
              then [VersionRowFor(r.value, out.versionRowId.value, out.stamp)] else [])
    {
      var link := NextVersion(listing);
      var path := StoragePath(userId, now, file.name);
      var stored := PutBlob(path, file.content, out.blobAccepted);
      if !stored {
        return Err(StorageFailed);
      }
      if out.fileRowId.None? {
        return Err(RecordFailed);
      }
      var row := NewFileRow(file, userId, now, MethodOrDefault(encryptionMethod), link, out.fileRowId.value, out.stamp);
      InsertFile(row);
      if IsUpdate(listing) && Truthy(link.previousVersionId) {
        // a refused version row is only logged: the upload still succeeds
        if out.versionRowId.Some? {
          InsertVersion(VersionRowFor(row, out.versionRowId.value, out.stamp));
        }
      }
      return Ok(row);
    }

    /**
     * The bucket's `upload` with `upsert: false`: an object already at the path is an
     * error, as is a refusal; otherwise the bytes are stored at the path.
     */
    method PutBlob(path: string, content: seq<bv8>, accepted: bool) returns (stored: bool)
      modifies this`blobs
      ensures stored <==> path !in old(blobs) && accepted
      ensures blobs == if stored then old(blobs)[path := content] else old(blobs)
    {
      stored := path !in blobs && accepted;
      if stored {
        blobs := blobs[path := content];
      }
    }

    /** An accepted insert into `files`. */
    method InsertFile(row: SecureFile)
      modifies this`files
      ensures files == old(files) + [row]
    {
      files := files + [row];
    }

    /** An accepted insert into `file_versions`. */
    method InsertVersion(v: FileVersion)
      modifies this`versions
      ensures versions == old(versions) + [v]
    {
      versions := versions + [v];
    }

    /** `downloadFile`: the row by id, then its blob, saved under the file's own name. */
    method DownloadFile(fileId: string, encryptionKey: string) returns (r: Result<Download, ServiceError>)
      ensures r.Ok? <==> |RowsWithId(files, fileId)| == 1 && RowsWithId(files, fileId)[0].storagePath in blobs
      ensures r.Ok? ==> var row := RowsWithId(files, fileId)[0];
                        r.value == Download(row.name, blobs[row.storagePath])
      ensures |RowsWithId(files, fileId)| != 1 ==> r == Err(LookupFailed)
      ensures |RowsWithId(files, fileId)| == 1 && RowsWithId(files, fileId)[0].storagePath !in blobs ==>
                r == Err(StorageFailed)
    {
      var rows := RowsWithId(files, fileId);
      if |rows| != 1 {
        return Err(LookupFailed);
      }
      if rows[0].storagePath !in blobs {
        return Err(StorageFailed);
      }
      return Ok(Download(rows[0].name, blobs[rows[0].storagePath]));
    }

    /**
     * `downloadFileVersion`: the version row by id, then the `files` row it names as the
     * superseded one, then that row's blob.  The saved name carries the VERSION ROW's
     * number, while the bytes are those of the superseded row.
     */
    method DownloadFileVersion(fileId: string, versionId: string, encryptionKey: string)
      returns (r: Result<Download, ServiceError>)
      ensures |VersionRowsWithId(versions, versionId)| != 1 ==> r == Err(LookupFailed)
      ensures r.Ok? <==>
        && |VersionRowsWithId(versions, versionId)| == 1
        && (var v := VersionRowsWithId(versions, versionId)[0];
            && v.previousVersionId.Some?
            && |RowsWithId(files, v.previousVersionId.value)| == 1
            && RowsWithId(files, v.previousVersionId.value)[0].storagePath in blobs)
      ensures r.Ok? ==>
        var v := VersionRowsWithId(versions, versionId)[0];
        && v.previousVersionId.Some?
        && |RowsWithId(files, v.previousVersionId.value)| == 1
        && (var row := RowsWithId(files, v.previousVersionId.value)[0];
            && row.storagePath in blobs
            && r.value == Download(VersionedFileName(row.name, v.version), blobs[row.storagePath]))
      ensures |VersionRowsWithId(versions, versionId)| == 1 ==>
        var v := VersionRowsWithId(versions, versionId)[0];
        (v.previousVersionId.None? || |RowsWithId(files, v.previousVersionId.value)| != 1) ==> r == Err(LookupFailed)
      ensures |VersionRowsWithId(versions, versionId)| == 1 ==>
        var v := VersionRowsWithId(versions, versionId)[0];
        (&& v.previousVersionId.Some? && |RowsWithId(files, v.previousVersionId.value)| == 1
         && RowsWithId(files, v.previousVersionId.value)[0].storagePath !in blobs) ==> r == Err(StorageFailed)
    {
      var found := VersionRowsWithId(versions, versionId);
      if |found| != 1 {
        return Err(LookupFailed);
      }
      var v := found[0];
      // `.eq('id', null)` matches no row
      if v.previousVersionId.None? {
        return Err(LookupFailed);
      }
      var rows := RowsWithId(files, v.previousVersionId.value);
      if |rows| != 1 {
        return Err(LookupFailed);
      }
      if rows[0].storagePath !in blobs {
        return Err(StorageFailed);
      }
      return Ok(Download(VersionedFileName(rows[0].name, v.version), blobs[rows[0].storagePath]));
    }

    /**
     * `deleteFile`: find the row's storage path, remove the blob, then delete the row.
     * Each step runs only when the one before it succeeded.
     */
    method DeleteFile(fileId: string, out: DeleteOutcomes) returns (r: Result<bool, ServiceError>)
      modifies this
      ensures versions == old(versions) && shares == old(shares)
      ensures |RowsWithId(old(files), fileId)| != 1 ==> r == Err(LookupFailed) && unchanged(this)
      ensures |RowsWithId(old(files), fileId)| == 1 ==>
        var path := RowsWithId(old(files), fileId)[0].storagePath;
        && (!out.blobRemoved ==> r == Err(StorageFailed) && files == old(files) && blobs == old(blobs))
        && (out.blobRemoved ==> blobs == old(blobs) - {path})
        && (out.blobRemoved && !out.rowDeleted ==> r == Err(RecordFailed) && files == old(files))
        && (out.blobRemoved && out.rowDeleted ==> r == Ok(true) && files == WithoutId(old(files), fileId))
    {
      var rows := RowsWithId(files, fileId);
      if |rows| != 1 {
        return Err(LookupFailed);
      }
      if !out.blobRemoved {
        return Err(StorageFailed);
      }
      blobs := blobs - {rows[0].storagePath};
      if !out.rowDeleted {
        return Err(RecordFailed);
      }
      files := WithoutId(files, fileId);
      return Ok(true);
    }

    /**
     * `shareFile`: check that the file exists, insert a share row that expires `days`
     * days from `now` under the generated token, and return the link to it.
     * `expiresInDays` is None when the caller leaves the argument out, which means
     * seven days.  The dialogs' `parseInt` NaN (their `days` None) never reaches it: every
     * offered option parses to a number.
     */
    method ShareFile(fileId: string, recipientEmail: string, expiresInDays: Option<int>, now: int,
                     origin: string, draw1: string, draw2: string, shareRowId: Option<string>)
      returns (r: Result<string, ServiceError>)
      requires IsRandomBase36(draw1) && IsRandomBase36(draw2)
      modifies this`shares
      ensures |RowsWithId(files, fileId)| != 1 ==> r == Err(LookupFailed) && shares == old(shares)
      ensures |RowsWithId(files, fileId)| == 1 && shareRowId.None? ==> r == Err(RecordFailed) && shares == old(shares)
      ensures r.Ok? <==> |RowsWithId(files, fileId)| == 1 && shareRowId.Some?
      ensures r.Ok? ==>
        var days := if expiresInDays.Some? then expiresInDays.value else DefaultShareDays;
        && r.value == ShareLink(origin, ShareToken(draw1, draw2))
        && shares == old(shares) + [NewShareRow(shareRowId.value, fileId, recipientEmail, now, days, ShareToken(draw1, draw2))]
      ensures r.Ok? && ShareToken(draw1, draw2) != [] ==>
                RouteToken(r.value[|origin|..]) == Some(ShareToken(draw1, draw2))
    {
      var rows := RowsWithId(files, fileId);
      if |rows| != 1 {
        return Err(LookupFailed);
      }
      var days := if expiresInDays.Some? then expiresInDays.value else DefaultShareDays;
      if shareRowId.None? {
        return Err(RecordFailed);
      }
      var token := ShareToken(draw1, draw2);
      if token != [] {
        ShareLinkRoutesToToken(origin, draw1, draw2);
      }
      var row := NewShareRow(shareRowId.value, fileId, recipientEmail, now, days, token);
      shares := shares + [row];
      return Ok(ShareLink(origin, row.shareToken));
    }
  }

  // ---------------------------------------------------------------------------
  // Loading a user's files

  /** The version rows that belong to the file with the given id, in the order the store gave them. */
  function VersionsOf(fileId: string, rows: seq<FileVersion>): (vs: seq<FileVersion>)
    ensures forall v :: v in vs <==> v in rows && v.fileId == fileId
  {
    Filter((v: FileVersion) => v.fileId == fileId, rows)
  }

  /**
   * `getUserFiles`: the files query's answer, with each file's `versions` set to its own
   * version rows when there are files and the versions query succeeded.
   */
  method GetUserFiles(listing: Result<seq<SecureFile>, ServiceError>, versionRows: Option<seq<FileVersion>>)
    returns (r: Result<seq<SecureFile>, ServiceError>)
    ensures listing.Err? ==> r == listing
    ensures listing.Ok? && (listing.value == [] || versionRows.None?) ==> r == listing
    ensures listing.Ok? && listing.value != [] && versionRows.Some? ==>
      && r.Ok? && |r.value| == |listing.value|
      && forall i :: 0 <= i < |r.value| ==>
           r.value[i] == listing.value[i].(versions := Some(VersionsOf(listing.value[i].id, versionRows.value)))
  {
    if listing.Err? {
      return listing;
    }
    var typed := listing.value;
    if |typed| > 0 && versionRows.Some? {
      var rows := versionRows.value;
      var i := 0;
      while i < |typed|
        invariant 0 <= i <= |typed| && |typed| == |listing.value|
        invariant forall k :: 0 <= k < i ==>
                    typed[k] == listing.value[k].(versions := Some(VersionsOf(listing.value[k].id, rows)))
        invariant forall k :: i <= k < |typed| ==> typed[k] == listing.value[k]
      {
        typed := typed[i := typed[i].(versions := Some(VersionsOf(typed[i].id, rows)))];
        i := i + 1;
      }
    }
    return Ok(typed);
  }

  /** After grouping, a version row sits under a file exactly when its `file_id` is that file's id. */
  lemma GroupedVersionsBelong(f: SecureFile, rows: seq<FileVersion>, v: FileVersion)
    requires f.versions == Some(VersionsOf(f.id, rows))
    ensures v in f.versions.value <==> v in rows && v.fileId == f.id
  {
  }

  /** Version rows for other files do not disturb a file's group, and new ones for it go last. */
  lemma VersionsOfAppend(fileId: string, rows: seq<FileVersion>, more: seq<FileVersion>)
    ensures VersionsOf(fileId, rows + more) == VersionsOf(fileId, rows) + VersionsOf(fileId, more)
  {
    FilterConcat((v: FileVersion) => v.fileId == fileId, rows, more);
  }
}
