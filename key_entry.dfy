/**
 * The dialog that asks for an encryption key before an upload: two key fields that must
 * agree, a method choice, an optional "remember" that writes the key to local storage,
 * and a random-key generator.  The key is a label only; nothing here encrypts.
 */
module KeyEntry {
  import opened Wrappers

  /** The methods the dialog offers; the choice is recorded, never applied. */
  datatype EncryptionMethod = Aes256 | Aes512 | ChaCha20

  /** The text the method is stored and passed under. */
  function MethodLabel(m: EncryptionMethod): (text: string)
    ensures |text| > 0
  {
    match m
    case Aes256 => "AES-256"
    case Aes512 => "AES-512"
    case ChaCha20 => "ChaCha20"
  }

  /** Distinct methods carry distinct labels, so the stored label names the method. */
  lemma MethodLabelInjective(a: EncryptionMethod, b: EncryptionMethod)
    requires MethodLabel(a) == MethodLabel(b)
    ensures a == b
  {
  }

  const RequiredError := "Encryption key is required"
  const MismatchError := "Encryption keys do not match"

  /** The local-storage entries a remembered key is written to. */
  const RememberedKeyEntry := "lastEncryptionKey"
  const RememberedMethodEntry := "lastEncryptionMethod"

  /**
   * The validation of `handleSubmit`: an empty key is reported first, then a confirmation
   * that differs; None lets the submit through.
   */
  function SubmitError(key: string, confirm: string): (e: Option<string>)
    ensures e.None? <==> key != "" && key == confirm
    ensures key == "" ==> e == Some(RequiredError)
    ensures key != "" && key != confirm ==> e == Some(MismatchError)
  {
    if key == "" then Some(RequiredError)
    else if key != confirm then Some(MismatchError)
    else None
  }

  // ---------------------------------------------------------------------------
  // Random keys

  const KeyAlphabet := "ABCDEFGHIJKLMNOPQRSTUVWXYZabcdefghijklmnopqrstuvwxyz0123456789!@#$%^&*()"
  const KeyLength := 16

  /** `Math.floor(draw * characters.length)` for a draw of `Math.random()`. */
  function Pick(draw: real): (k: nat)
    requires 0.0 <= draw < 1.0
    ensures k < |KeyAlphabet|
    ensures k as real <= draw * |KeyAlphabet| as real < k as real + 1.0
  {
    (draw * |KeyAlphabet| as real).Floor
  }

  /** Every draw of `Math.random()` lies in [0, 1). */
  predicate AreDraws(draws: seq<real>)
  {
    forall i :: 0 <= i < |draws| ==> 0.0 <= draws[i] < 1.0
  }

  /**
   * The loop of `generateRandomKey`: sixteen characters, the i-th picked from the
   * alphabet by the i-th draw.
   */
  method RandomKey(draws: seq<real>) returns (key: string)
    requires |draws| == KeyLength && AreDraws(draws)
    ensures |key| == KeyLength
    ensures forall i :: 0 <= i < |key| ==> key[i] in KeyAlphabet
    ensures forall i :: 0 <= i < |key| ==> key[i] == KeyAlphabet[Pick(draws[i])]
  {
    key := "";
    for i := 0 to KeyLength
      invariant |key| == i
      invariant forall k :: 0 <= k < i ==> key[k] == KeyAlphabet[Pick(draws[k])]
    {
      key := key + [KeyAlphabet[Pick(draws[i])]];
    }
  }

  /** What the dialog hands to its owner. */
  datatype DialogCall = Submitted(key: string, chosen: EncryptionMethod) | Cancelled

  class EncryptionKeyModal {
    var encryptionKey: string
    var confirmKey: string
    var rememberKey: bool
    var showKey: bool
    var encryptionMethod: EncryptionMethod
    var error: string
    /** The browser's local storage. */
    var storage: map<string, string>
    /** Every `onSubmit` and `onCancel` call so far, oldest first. */
    var calls: seq<DialogCall>

    /** The form as it is first shown and after every submit or cancel. */
    predicate IsBlank()
      reads this
    {
      encryptionKey == "" && confirmKey == "" && !rememberKey && !showKey && error == ""
      && encryptionMethod == Aes256
    }

    constructor (storage: map<string, string>)
      ensures IsBlank() && this.storage == storage && calls == []
    {
      encryptionKey, confirmKey := "", "";
      rememberKey, showKey := false, false;
      encryptionMethod := Aes256;
      error := "";
      this.storage := storage;
      calls := [];
    }

    /** `handleKeyChange`: takes the new key and clears any error. */
    method HandleKeyChange(value: string)
      modifies this`encryptionKey, this`error
      ensures encryptionKey == value && error == ""
    {
      encryptionKey := value;
      if error != "" {
        error := "";
      }
    }

    /** `handleConfirmKeyChange`: takes the new confirmation and clears any error. */
    method HandleConfirmKeyChange(value: string)
      modifies this`confirmKey, this`error
      ensures confirmKey == value && error == ""
    {
      confirmKey := value;
      if error != "" {
        error := "";
      }
    }

    /** The eye button. */
    method ToggleShowKey()
      modifies this`showKey
      ensures showKey == !old(showKey)
    {
      showKey := !showKey;
    }

    /** The "remember" checkbox. */
    method ToggleRememberKey()
      modifies this`rememberKey
      ensures rememberKey == !old(rememberKey)
    {
      rememberKey := !rememberKey;
    }

    /** The method radio group. */
    method SetEncryptionMethod(m: EncryptionMethod)
      modifies this`encryptionMethod
      ensures encryptionMethod == m
    {
      encryptionMethod := m;
    }

    /** The six `set…` calls that blank the form after a submit and on a cancel. */
    method Reset()
      modifies this`encryptionKey, this`confirmKey, this`rememberKey, this`showKey, this`error,
               this`encryptionMethod
      ensures IsBlank()
    {
      encryptionKey, confirmKey := "", "";
      rememberKey, showKey := false, false;
      error := "";
      encryptionMethod := Aes256;
    }

    /**
     * `handleSubmit`: a rejected key only sets the error; an accepted one is remembered
     * when asked, handed to `onSubmit` once with the chosen method, and the form is blanked.
     */
    method HandleSubmit()
      modifies this
      ensures SubmitError(old(encryptionKey), old(confirmKey)).Some? ==>
        && error == SubmitError(old(encryptionKey), old(confirmKey)).value
        && calls == old(calls) && storage == old(storage)
        && encryptionKey == old(encryptionKey) && confirmKey == old(confirmKey)
        && rememberKey == old(rememberKey) && showKey == old(showKey)
        && encryptionMethod == old(encryptionMethod)
      ensures SubmitError(old(encryptionKey), old(confirmKey)).None? ==>
        && IsBlank()
        && calls == old(calls) + [Submitted(old(encryptionKey), old(encryptionMethod))]
        && storage == if old(rememberKey)
                      then old(storage)[RememberedKeyEntry := old(encryptionKey)]
                                       [RememberedMethodEntry := MethodLabel(old(encryptionMethod))]
                      else old(storage)
    {
      var problem := SubmitError(encryptionKey, confirmKey);
      if problem.Some? {
        error := problem.value;
        return;
      }
      if rememberKey {
        storage := storage[RememberedKeyEntry := encryptionKey];
        storage := storage[RememberedMethodEntry := MethodLabel(encryptionMethod)];
      }
      calls := calls + [Submitted(encryptionKey, encryptionMethod)];
      Reset();
    }

    /** `handleCancel`: blank the form and tell the owner. */
    method HandleCancel()
      modifies this
      ensures IsBlank() && calls == old(calls) + [Cancelled] && storage == old(storage)
    {
      Reset();
      calls := calls + [Cancelled];
    }

    /** The dialog's `onOpenChange`: closing it is a cancel. */
    method HandleOpenChange(open: bool)
      modifies this
      ensures open ==> unchanged(this)
      ensures !open ==> IsBlank() && calls == old(calls) + [Cancelled] && storage == old(storage)
    {
      if !open {
        HandleCancel();
      }
    }

    /** `generateRandomKey`: both fields get the new key, the error clears and the key shows. */
    method GenerateRandomKey(draws: seq<real>)
      requires |draws| == KeyLength && AreDraws(draws)
      modifies this`encryptionKey, this`confirmKey, this`error, this`showKey
      ensures |encryptionKey| == KeyLength && forall i :: 0 <= i < |encryptionKey| ==> encryptionKey[i] in KeyAlphabet
      ensures confirmKey == encryptionKey && error == "" && showKey
      ensures SubmitError(encryptionKey, confirmKey).None?
    {
      var key := RandomKey(draws);
      encryptionKey := key;
      confirmKey := key;
      error := "";
      showKey := true;
    }
  }
}
