/**
 * The share dialog opened from the file list (`ShareFileModal`): a recipient email, an
 * expiry chosen from five fixed options, one share call, then a copyable link.  The
 * `shareFile` call is split at its `await`: `BeginShare` issues it and `FinishShare`
 * receives its outcome.
 */
module ShareFileDialog {
  import opened Wrappers
  import opened Strings

  /** The `<option>` values of the expiry select, in days. */
  const ExpiryChoices: seq<string> := ["1", "3", "7", "30", "90"]
  const DefaultExpiry := "7"

  /** What the dialog asks of the outside world, in order. */
  datatype DialogEvent =
    | ShareRequested(fileId: string, email: string, days: Option<nat>)  // `shareFile(fileId, email, parseInt(days))`; None is NaN
    | LinkCopied(link: string)                                          // `navigator.clipboard.writeText(link)`
    | Closed                                                            // `onClose()`

  /** Every option parses to its number of days: 1, 3, 7, 30 or 90. */
  lemma ExpiryChoiceDays(choice: string)
    requires choice in ExpiryChoices
    ensures ParseInt(choice).Some?
    ensures ParseInt(choice).value in {1, 3, 7, 30, 90}
    ensures choice == NatToString(ParseInt(choice).value)
  {
    var d: nat :| d in {1, 3, 7, 30, 90} && choice == NatToString(d) by {
      if choice == "1" { assert choice == NatToString(1); }
      else if choice == "3" { assert choice == NatToString(3); }
      else if choice == "7" { assert choice == NatToString(7); }
      else if choice == "30" { assert NatToString(30) == NatToString(3) + [DigitChar(0)]; }
      else { assert NatToString(90) == NatToString(9) + [DigitChar(0)]; }
    }
    ParseIntOfNatToString(d);
  }

  /** The default expiry is one of the options and means seven days. */
  lemma DefaultExpiryIsSevenDays()
    ensures DefaultExpiry in ExpiryChoices && ParseInt(DefaultExpiry) == Some(7)
  {
    ExpiryChoiceDays(DefaultExpiry);
  }

  class ShareFileModal {
    const fileId: string
    const fileName: string
    var email: string
    var expiresInDays: string
    var isSharing: bool
    var shareLink: Option<string>
    var events: seq<DialogEvent>

    /** The select only ever holds one of its options. */
    predicate Valid()
      reads this
    {
      expiresInDays in ExpiryChoices
    }

    constructor (fileId: string, fileName: string)
      ensures Valid() && this.fileId == fileId && this.fileName == fileName
      ensures email == "" && expiresInDays == DefaultExpiry && !isSharing && shareLink.None? && events == []
    {
      this.fileId := fileId;
      this.fileName := fileName;
      email := "";
      expiresInDays := DefaultExpiry;
      isSharing := false;
      shareLink := None;
      events := [];
    }

    /** Both inputs are disabled once a link exists, exactly when the footer switches to copying. */
    function InputsDisabled(): (disabled: bool)
      reads this
      ensures disabled <==> FooterOffersCopy()
    {
      Truthy(shareLink)
    }

    /** The footer offers "Copy Link" instead of "Share File" once a non-empty link exists. */
    function FooterOffersCopy(): (offersCopy: bool)
      reads this
      ensures offersCopy <==> shareLink.Some? && shareLink.value != ""
    {
      Truthy(shareLink)
    }

    /**
     * The "Share File" button is disabled while sharing and while the email is empty: an
     * enabled button never starts a second share.
     */
    function ShareButtonDisabled(): (disabled: bool)
      reads this
      ensures !disabled ==> email != "" && !isSharing
      ensures isSharing || email == "" ==> disabled
    {
      isSharing || email == ""
    }

    /** Typing in the email field. */
    method SetEmail(value: string)
      modifies this`email
      ensures email == value
    {
      email := value;
    }

    /** Picking an expiry option. */
    method SelectExpiry(choice: string)
      requires choice in ExpiryChoices
      modifies this`expiresInDays
      ensures expiresInDays == choice && Valid()
    {
      expiresInDays := choice;
    }

    /**
     * `handleShare` up to its `await`: an email that trims to nothing stops it with no
     * call and no change; otherwise sharing starts with the selected number of days.
     */
    method BeginShare() returns (started: bool)
      requires Valid()
      modifies this`isSharing, this`events
      ensures started <==> Trim(email) != ""
      ensures !started ==> isSharing == old(isSharing) && events == old(events)
      ensures started ==> isSharing && events == old(events) + [ShareRequested(fileId, email, ParseInt(expiresInDays))]
      ensures started ==> ParseInt(expiresInDays).Some? && ParseInt(expiresInDays).value in {1, 3, 7, 30, 90}
      ensures started ==> ShareButtonDisabled()
    {
      if Trim(email) == "" {
        return false;
      }
      isSharing := true;
      ExpiryChoiceDays(expiresInDays);
      events := events + [ShareRequested(fileId, email, ParseInt(expiresInDays))];
      return true;
    }

    /**
     * `handleShare` after its `await`: `link` is the returned link, None when the call
     * threw.  Either way sharing ends; only a success stores the link.
     */
    method FinishShare(link: Option<string>)
      modifies this`isSharing, this`shareLink
      ensures !isSharing
      ensures link.Some? ==> shareLink == link
      ensures link.None? ==> shareLink == old(shareLink)
      ensures link.Some? && link.value != "" ==> FooterOffersCopy() && InputsDisabled()
    {
      if link.Some? {
        shareLink := link;
      }
      isSharing := false;
    }

    /** `handleCopyLink`: copies only when there is a link. */
    method HandleCopyLink()
      modifies this`events
      ensures Truthy(shareLink) ==> events == old(events) + [LinkCopied(shareLink.value)]
      ensures !Truthy(shareLink) ==> events == old(events)
    {
      if Truthy(shareLink) {
        events := events + [LinkCopied(shareLink.value)];
      }
    }

    /** `handleClose`: reset the form and the link, then tell the owner. */
    method HandleClose()
      modifies this`email, this`expiresInDays, this`shareLink, this`events
      ensures email == "" && expiresInDays == DefaultExpiry && shareLink.None? && Valid()
      ensures events == old(events) + [Closed]
      ensures !FooterOffersCopy() && !InputsDisabled()
    {
      email := "";
      expiresInDays := DefaultExpiry;
      shareLink := None;
      events := events + [Closed];
    }
  }
}
