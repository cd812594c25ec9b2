/**
 * What a client of the service and the share page can conclude from the contracts alone:
 * a re-upload becomes version 2, and a week-long share expires on time.
 */
module Scenarios {
  import opened Wrappers
  import opened FileTypes
  import opened Seqs
  import opened FileService
  import SharedFilePage

  /**
   * The second upload of a name: after a first upload into a store with no rows of that
   * name, the same-name query answers with exactly the first row, so the next upload is
   * version 2, points at the first row, and writes a history row.
   */
  lemma SecondUploadIsVersionTwo(file: BrowserFile, userId: string, now: nat, chosen: string,
                                 id1: string, stamp: string)
    requires id1 != ""
    ensures var row1 := NewFileRow(file, userId, now, chosen, NextVersion(Some([])), id1, stamp);
            && row1.version == 1 && row1.previousVersionId.None?
            && SameNameRows([row1], userId, file.name) == [row1]
            && NextVersion(Some(SameNameRows([row1], userId, file.name))) == VersionLink(2, Some(id1))
            && WritesVersionRow(Some(SameNameRows([row1], userId, file.name)))
  {
    var row1 := NewFileRow(file, userId, now, chosen, NextVersion(Some([])), id1, stamp);
    FilterSingleton((f: SecureFile) => f.userId == userId && f.name == file.name, [row1], 0);
  }

  /**
   * Share a file for seven days at `now` and redeem the token: the file shows up to and
   * including the expiry instant, and the share is expired one millisecond later.
   */
  method ShareForAWeek(store: Backend, row: SecureFile, now: int, shareId: string, origin: string,
                       draw1: string, draw2: string)
    returns (link: Result<string, ServiceError>,
             beforeExpiry: SharedFilePage.Redemption, afterExpiry: SharedFilePage.Redemption)
    requires store.files == [row] && store.shares == []
    requires IsRandomBase36(draw1) && IsRandomBase36(draw2)
    modifies store
    ensures link == Ok(ShareLink(origin, ShareToken(draw1, draw2)))
    ensures beforeExpiry.Valid? && beforeExpiry.view.name == row.name && beforeExpiry.view.fileId == row.id
    ensures afterExpiry == SharedFilePage.Expired
  {
    assert RowsWithId(store.files, row.id) == [row] by {
      FilterSingleton((f: SecureFile) => f.id == row.id, [row], 0);
    }
    var token := ShareToken(draw1, draw2);
    link := store.ShareFile(row.id, "a@b.com", Some(7), now, origin, draw1, draw2, Some(shareId));
    var share := NewShareRow(shareId, row.id, "a@b.com", now, 7, token);
    assert SharedFilePage.SharesWithToken(store.shares, token) == [share] by {
      FilterSingleton((s: FileShare) => s.shareToken == token, [share], 0);
    }
    SharedFilePage.IssuedShareLifetime(store.shares, store.files, share, now, 7, now + 7 * DayMs);
    SharedFilePage.IssuedShareLifetime(store.shares, store.files, share, now, 7, now + 7 * DayMs + 1);
    beforeExpiry := SharedFilePage.Redeem(store.shares, store.files, token, now + 7 * DayMs);
    afterExpiry := SharedFilePage.Redeem(store.shares, store.files, token, now + 7 * DayMs + 1);
  }
}
