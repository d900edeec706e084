/**
 * The phone-number dialog: the field is prefilled from the stored number when
 * the dialog opens, its text is cleaned of white space, and saving checks the
 * cleaned number's shape before storing it, closing the dialog and handing
 * the number on.
 *
 * Storing goes through the phone context, whose setter saves to device
 * storage and catches its own storage errors; `storageOk` says whether that
 * storage write succeeds. Alerts, closing and the `onSaved` callback are
 * recorded, in order, as effects; `onClose` and `onSaved` are taken not to
 * throw.
 */
module PhoneInput {
  import opened Wrappers
  import opened Text

  predicate NotSpace(c: char) {
    !IsSpace(c)
  }

  /** `phoneNumber.replace(/\s+/g, "").trim()`: the input with all white space removed. */
  function Cleaned(input: string): (r: string)
    ensures r == Keep(input, NotSpace)
    ensures forall i :: 0 <= i < |r| ==> !IsSpace(r[i])
    ensures forall c :: c in r <==> c in input && !IsSpace(c)
  {
    Trim(Keep(input, NotSpace))
  }

  /** Cleaning works piece by piece and a second time changes nothing. */
  lemma CleanedConcat(a: string, b: string)
    ensures Cleaned(a + b) == Cleaned(a) + Cleaned(b)
    ensures Cleaned(Cleaned(a)) == Cleaned(a)
  {
    KeepConcat(a, b, NotSpace);
    KeepAll(Cleaned(a), NotSpace);
  }

  /** `[1-9][0-9]{7,14}`, the part after the prefix, as the whole rest of the text. */
  predicate ValidTail(t: string) {
    8 <= |t| <= 15 && '1' <= t[0] <= '9' && forall i :: 1 <= i < |t| ==> IsDigit(t[i])
  }

  /** `/^(?:\+|00|0)[1-9][0-9]{7,14}$/.test(s)`: one of the three prefixes, then a valid tail. */
  predicate IsValidPhone(s: string) {
    (StartsWith(s, "+") && ValidTail(s[1..]))
    || (StartsWith(s, "00") && ValidTail(s[2..]))
    || (StartsWith(s, "0") && ValidTail(s[1..]))
  }

  /**
   * An accepted number has 9 to 17 characters: a `+` or a `0`, then digits
   * only, and no white space anywhere.
   */
  lemma ValidPhoneShape(s: string)
    requires IsValidPhone(s)
    ensures 9 <= |s| <= 17
    ensures s[0] == '+' || s[0] == '0'
    ensures forall i :: 1 <= i < |s| ==> IsDigit(s[i])
    ensures forall i :: 0 <= i < |s| ==> !IsSpace(s[i])
  {
    if StartsWith(s, "+") && ValidTail(s[1..]) {
      assert forall i :: 1 <= i < |s| ==> s[i] == s[1..][i - 1];
    } else if StartsWith(s, "00") && ValidTail(s[2..]) {
      assert forall i :: 2 <= i < |s| ==> s[i] == s[2..][i - 2];
      assert s[1] == '0';
    } else {
      assert forall i :: 1 <= i < |s| ==> s[i] == s[1..][i - 1];
    }
  }

  /** A `0` prefix must be followed by a non-zero digit or by a second `0` and then a non-zero digit. */
  lemma ZeroAfterPrefixRejected(s: string)
    requires |s| >= 3 && s[0] == '0' && s[1] == '0' && s[2] == '0'
    ensures !IsValidPhone(s)
  {
    assert s[1..][0] == '0';
    assert s[2..][0] == '0';
  }

  /** What the dialog asks of its surroundings, in order. */
  datatype Effect =
    | Alert(title: string, message: string)
    | Close
    | Saved(phone: string)

  const AlertTitle: string := "Greška"
  const EmptyMessage: string := "Molimo unesite broj telefona"
  const InvalidMessage: string := "Molimo unesite validan broj telefona (npr. +43 664 1234567 ili 0664 1234567)"
  const SaveFailedMessage: string := "Ne mogu sačuvati broj. Pokušaj ponovo."

  /** The stored number and the effects after one press of the save button. */
  datatype SaveResult = SaveResult(currentPhone: Option<string>, effects: seq<Effect>)

  /** The checks of `handleSave`: an alert for an empty or a malformed number, or none. */
  function Rejection(cleaned: string): Option<Effect> {
    if cleaned == "" then Some(Alert(AlertTitle, EmptyMessage))
    else if !IsValidPhone(cleaned) then Some(Alert(AlertTitle, InvalidMessage))
    else None
  }

  /** `onClose()`, then `onSaved?.(cleaned)`. */
  function Commit(cleaned: string, hasOnSaved: bool): seq<Effect> {
    [Close] + if hasOnSaved then [Saved(cleaned)] else []
  }

  /**
   * `handleSave` as written: after the checks, the context setter stores the
   * number only when the storage write succeeds, but swallows a failed write,
   * so the dialog closes and `onSaved` runs either way.
   */
  function SaveAsWritten(cleaned: string, currentPhone: Option<string>, hasOnSaved: bool, storageOk: bool): SaveResult {
    match Rejection(cleaned)
    case Some(alert) => SaveResult(currentPhone, [alert])
    case None =>
      SaveResult(if storageOk then Some(cleaned) else currentPhone, Commit(cleaned, hasOnSaved))
  }

  /** `handleSave` as its `catch` intends: a failed write shows the retry alert and the dialog stays open. */
  function SaveIntended(cleaned: string, currentPhone: Option<string>, hasOnSaved: bool, storageOk: bool): SaveResult {
    match Rejection(cleaned)
    case Some(alert) => SaveResult(currentPhone, [alert])
    case None =>
      if storageOk then SaveResult(Some(cleaned), Commit(cleaned, hasOnSaved))
      else SaveResult(currentPhone, [Alert(AlertTitle, SaveFailedMessage)])
  }

  /** An empty number only raises the alert: nothing is stored, nothing closes, nothing is handed on. */
  lemma SaveRejectsEmpty(cleaned: string, currentPhone: Option<string>, hasOnSaved: bool, storageOk: bool)
    requires cleaned == ""
    ensures SaveAsWritten(cleaned, currentPhone, hasOnSaved, storageOk)
         == SaveResult(currentPhone, [Alert(AlertTitle, EmptyMessage)])
  {
  }

  /** A malformed number only raises the alert with the two examples. */
  lemma SaveRejectsInvalid(cleaned: string, currentPhone: Option<string>, hasOnSaved: bool, storageOk: bool)
    requires cleaned != "" && !IsValidPhone(cleaned)
    ensures SaveAsWritten(cleaned, currentPhone, hasOnSaved, storageOk)
         == SaveResult(currentPhone, [Alert(AlertTitle, InvalidMessage)])
  {
  }

  /**
   * A well-formed number is stored when the write succeeds, then the dialog
   * closes, then `onSaved` gets the same number, which has no white space.
   */
  lemma SaveAccepts(cleaned: string, currentPhone: Option<string>, hasOnSaved: bool)
    requires IsValidPhone(cleaned)
    ensures var r := SaveAsWritten(cleaned, currentPhone, hasOnSaved, true);
      r.currentPhone == Some(cleaned)
      && r.effects == [Close] + (if hasOnSaved then [Saved(cleaned)] else [])
    ensures forall i :: 0 <= i < |cleaned| ==> !IsSpace(cleaned[i])
  {
    ValidPhoneShape(cleaned);
  }

  /**
   * As written, a failed write goes unnoticed: for every well-formed number the
   * dialog closes and `onSaved` gets a number that was not stored, and the
   * failed write never reaches the `catch`, so the retry alert does not show.
   */
  lemma SaveFailureUnnoticed(cleaned: string, currentPhone: Option<string>)
    requires IsValidPhone(cleaned) && currentPhone != Some(cleaned)
    ensures var r := SaveAsWritten(cleaned, currentPhone, true, false);
      Saved(cleaned) in r.effects && r.currentPhone != Some(cleaned)
      && Alert(AlertTitle, SaveFailedMessage) !in r.effects
  {
    assert SaveAsWritten(cleaned, currentPhone, true, false).effects == [Close, Saved(cleaned)];
  }

  /**
   * As intended, the dialog closes and `onSaved` runs only once the number is
   * stored, and `onSaved` gets that number.
   */
  lemma SaveIntendedSound(cleaned: string, currentPhone: Option<string>, hasOnSaved: bool, storageOk: bool)
    ensures var r := SaveIntended(cleaned, currentPhone, hasOnSaved, storageOk);
      forall k :: 0 <= k < |r.effects| && !r.effects[k].Alert? ==>
        r.currentPhone == Some(cleaned)
        && (r.effects[k].Saved? ==> r.effects[k].phone == cleaned)
  {
    var r := SaveIntended(cleaned, currentPhone, hasOnSaved, storageOk);
    if Rejection(cleaned).None? && storageOk {
      assert r == SaveResult(Some(cleaned), Commit(cleaned, hasOnSaved));
    }
  }

  /** As intended, a failed write of a well-formed number shows the retry alert and nothing else. */
  lemma SaveFailureReported(cleaned: string, currentPhone: Option<string>, hasOnSaved: bool)
    requires IsValidPhone(cleaned)
    ensures SaveIntended(cleaned, currentPhone, hasOnSaved, false)
         == SaveResult(currentPhone, [Alert(AlertTitle, SaveFailedMessage)])
  {
    assert Rejection(cleaned).None?;
  }

  /** The dialog's state: the text field, the number held by the phone context, and the effects so far. */
  class PhoneModal {
    var phoneNumber: string
    var currentPhone: Option<string>
    var effects: seq<Effect>

    constructor (stored: Option<string>)
      ensures phoneNumber == "" && currentPhone == stored && effects == []
    {
      phoneNumber := "";
      currentPhone := stored;
      effects := [];
    }

    /** The prefill effect: on opening, the field shows the stored number, or nothing. */
    method OnVisible(visible: bool)
      modifies this
      ensures phoneNumber == if visible then currentPhone.GetOr("") else old(phoneNumber)
      ensures currentPhone == old(currentPhone) && effects == old(effects)
    {
      if visible {
        phoneNumber := if currentPhone.Some? then currentPhone.value else "";
      }
    }

    /** Typing into the field. */
    method ChangeText(text: string)
      modifies this
      ensures phoneNumber == text && currentPhone == old(currentPhone) && effects == old(effects)
    {
      phoneNumber := text;
    }

    /** `handleSave`, step by step, as written. */
    method HandleSave(hasOnSaved: bool, storageOk: bool)
      modifies this
      ensures var r := SaveAsWritten(Cleaned(old(phoneNumber)), old(currentPhone), hasOnSaved, storageOk);
        currentPhone == r.currentPhone && effects == old(effects) + r.effects
      ensures phoneNumber == old(phoneNumber)
    {
      var cleaned := Cleaned(phoneNumber);
      if cleaned == "" {
        effects := effects + [Alert(AlertTitle, EmptyMessage)];
        return;
      }
      if !IsValidPhone(cleaned) {
        effects := effects + [Alert(AlertTitle, InvalidMessage)];
        return;
      }
      // The context setter: a failed storage write is caught inside it.
      if storageOk {
        currentPhone := Some(cleaned);
      }
      effects := effects + [Close];
      if hasOnSaved {
        effects := effects + [Saved(cleaned)];
      }
    }

    /** `handleSave` with the failed write reaching its `catch`. */
    method HandleSaveChecked(hasOnSaved: bool, storageOk: bool)
      modifies this
      ensures var r := SaveIntended(Cleaned(old(phoneNumber)), old(currentPhone), hasOnSaved, storageOk);
        currentPhone == r.currentPhone && effects == old(effects) + r.effects
      ensures phoneNumber == old(phoneNumber)
    {
      var cleaned := Cleaned(phoneNumber);
      if cleaned == "" {
        effects := effects + [Alert(AlertTitle, EmptyMessage)];
        return;
      }
      if !IsValidPhone(cleaned) {
        effects := effects + [Alert(AlertTitle, InvalidMessage)];
        return;
      }
      if !storageOk {
        effects := effects + [Alert(AlertTitle, SaveFailedMessage)];
        return;
      }
      currentPhone := Some(cleaned);
      effects := effects + [Close];
      if hasOnSaved {
        effects := effects + [Saved(cleaned)];
      }
    }
  }
}
