/**
 * The second share dialog (`FileShareModal`): an email, an expiry picked from a table of
 * five labelled options, and after sharing the link with the details of the share.  It
 * resets itself each time it opens.  As in the other dialog, the `shareFile` call is split
 * at its `await` into `BeginShare` and `FinishShare`.
 */
module FileShareDialog {
  import opened Wrappers
  import opened Strings

  datatype ExpiryOption = ExpiryOption(value: string, text: string)

  /** `expiryOptions`: the choices in days, each with its label. */
  const ExpiryOptions: seq<ExpiryOption> := [
    ExpiryOption("1", "1 day"),
    ExpiryOption("3", "3 days"),
    ExpiryOption("7", "1 week"),
    ExpiryOption("14", "2 weeks"),
    ExpiryOption("30", "1 month")
  ]

  const DefaultExpiry := "7"

  /** The option values. */
  function OptionValues(options: seq<ExpiryOption>): (values: seq<string>)
    ensures |values| == |options|
    ensures forall i :: 0 <= i < |options| ==> values[i] == options[i].value
  {
    seq(|options|, i requires 0 <= i < |options| => options[i].value)
  }

  /** The table offers exactly 1, 3, 7, 14 and 30 days, in that order, and 7 is among them. */
  lemma ExpiryTable()
    ensures OptionValues(ExpiryOptions) == ["1", "3", "7", "14", "30"]
    ensures DefaultExpiry in OptionValues(ExpiryOptions)
  {
    assert OptionValues(ExpiryOptions)[2] == DefaultExpiry;
  }

  /** Every offered value parses to its number of days: 1, 3, 7, 14 or 30. */
  lemma OptionDays(choice: string)
    requires choice in OptionValues(ExpiryOptions)
    ensures ParseInt(choice).Some?
    ensures ParseInt(choice).value in {1, 3, 7, 14, 30}
  {
    ExpiryTable();
    var d: nat :| d in {1, 3, 7, 14, 30} && choice == NatToString(d) by {
      if choice == "1" { assert choice == NatToString(1); }
      else if choice == "3" { assert choice == NatToString(3); }
      else if choice == "7" { assert choice == NatToString(7); }
      else if choice == "14" { assert NatToString(14) == NatToString(1) + [DigitChar(4)]; }
      else { assert NatToString(30) == NatToString(3) + [DigitChar(0)]; }
    }
    ParseIntOfNatToString(d);
  }

  /** `options.find(o => o.value === value)?.label`: the label of the first option with that value. */
  function FindLabel(options: seq<ExpiryOption>, value: string): (found: Option<string>)
    ensures found.None? <==> forall i :: 0 <= i < |options| ==> options[i].value != value
    ensures found.Some? ==> exists i :: 0 <= i < |options| && options[i].value == value
                                        && options[i].text == found.value
                                        && forall j :: 0 <= j < i ==> options[j].value != value
    decreases |options|
  {
    if options == [] then None
    else if options[0].value == value then Some(options[0].text)
    else
      var rest := FindLabel(options[1..], value);
      assert rest.Some? ==> exists i :: 1 <= i < |options| && options[i].value == value
                                        && options[i].text == rest.value
                                        && forall j :: 0 <= j < i ==> options[j].value != value;
      rest
  }

  /** The details label of the default selection reads "1 week". */
  lemma DefaultLabel()
    ensures FindLabel(ExpiryOptions, DefaultExpiry) == Some("1 week")
  {
  }

  /** What the dialog asks of the outside world, in order. */
  datatype DialogEvent =
    | ShareRequested(fileId: string, email: string, days: Option<nat>)  // `shareFile(fileId, email, parseInt(expiryDays))`; None is NaN
    | LinkCopied(link: string)                                          // `navigator.clipboard.writeText(shareLink)`

  class FileShareModal {
    const fileId: Option<string>
    const fileName: string
    /** The `isOpen` prop, as last seen by the reset effect. */
    var isOpen: bool
    var email: string
    var expiryDays: string
    var isLoading: bool
    var shareLink: string
    var copied: bool
    var events: seq<DialogEvent>

    /** The form as the reset effect leaves it. */
    predicate IsFresh()
      reads this
    {
      email == "" && expiryDays == DefaultExpiry && shareLink == "" && !copied
    }

    constructor (fileId: Option<string>, fileName: string, isOpen: bool)
      ensures this.fileId == fileId && this.fileName == fileName && this.isOpen == isOpen
      ensures IsFresh() && !isLoading && events == []
    {
      this.fileId := fileId;
      this.fileName := fileName;
      this.isOpen := isOpen;
      email := "";
      expiryDays := DefaultExpiry;
      isLoading := false;
      shareLink := "";
      copied := false;
      events := [];
    }

    /**
     * The form is shown until there is a link; then the link and details are shown.  A
     * dialog the reset effect has just cleared always shows the form.
     */
    function ShowsForm(): (showsForm: bool)
      reads this
      ensures IsFresh() ==> showsForm
      ensures !showsForm <==> shareLink != ""
    {
      shareLink == ""
    }

    /** The "Expires after" detail: the label of the selected option. */
    function ExpiryDetail(): (detail: Option<string>)
      reads this
      ensures expiryDays in OptionValues(ExpiryOptions) ==> detail.Some?
      ensures detail.Some? ==> exists i :: 0 <= i < |ExpiryOptions| && ExpiryOptions[i].value == expiryDays
                                           && ExpiryOptions[i].text == detail.value
    {
      FindLabel(ExpiryOptions, expiryDays)
    }

    /**
     * The effect on `isOpen`: it runs when the prop changes, and when the dialog has
     * just opened it clears the email, link and "copied" mark and selects 7 days.
     */
    method IsOpenChanged(open: bool)
      modifies this`isOpen, this`email, this`expiryDays, this`shareLink, this`copied
      ensures isOpen == open
      ensures open && !old(isOpen) ==> IsFresh()
      ensures !(open && !old(isOpen)) ==>
        email == old(email) && expiryDays == old(expiryDays) && shareLink == old(shareLink) && copied == old(copied)
    {
      if open != isOpen {
        isOpen := open;
        if open {
          email := "";
          expiryDays := DefaultExpiry;
          shareLink := "";
          copied := false;
        }
      }
    }

    /** Typing in the email field. */
    method SetEmail(value: string)
      modifies this`email
      ensures email == value
    {
      email := value;
    }

    /** Picking an option of the select. */
    method SelectExpiry(choice: string)
      requires choice in OptionValues(ExpiryOptions)
      modifies this`expiryDays
      ensures expiryDays == choice && ExpiryDetail().Some?
    {
      expiryDays := choice;
    }

    /**
     * `handleShare` up to its `await`: without a file id (null or empty) nothing
     * happens, not even the loading flag; otherwise loading starts and `shareFile` is called.
     */
    method BeginShare() returns (started: bool)
      modifies this`isLoading, this`events
      ensures started <==> Truthy(fileId)
      ensures !started ==> isLoading == old(isLoading) && events == old(events)
      ensures started ==> isLoading && events == old(events) + [ShareRequested(fileId.value, email, ParseInt(expiryDays))]
      ensures started && expiryDays in OptionValues(ExpiryOptions) ==> ParseInt(expiryDays).Some?
    {
      if !Truthy(fileId) {
        return false;
      }
      isLoading := true;
      if expiryDays in OptionValues(ExpiryOptions) {
        OptionDays(expiryDays);
      }
      events := events + [ShareRequested(fileId.value, email, ParseInt(expiryDays))];
      return true;
    }

    /**
     * `handleShare` after its `await`: `link` is the returned link, None when the call
     * threw.  Either way loading ends; only a success stores the link.
     */
    method FinishShare(link: Option<string>)
      modifies this`isLoading, this`shareLink
      ensures !isLoading
      ensures link.Some? ==> shareLink == link.value
      ensures link.None? ==> shareLink == old(shareLink)
    {
      if link.Some? {
        shareLink := link.value;
      }
      isLoading := false;
    }

    /** `copyToClipboard`: copy the link and show the check mark. */
    method CopyToClipboard()
      modifies this`events, this`copied
      ensures events == old(events) + [LinkCopied(shareLink)] && copied
    {
      events := events + [LinkCopied(shareLink)];
      copied := true;
    }

    /** The two-second timer started by the copy: the check mark goes away. */
    method CopiedTimerFired()
      modifies this`copied
      ensures !copied
    {
      copied := false;
    }
  }
}
