/** The approval dialog for a withdrawal (src/components/admin/WithdrawalApprovalModal.tsx): the
    admin types the bank transfer's UTR, the dialog checks its length and hands the trimmed text to
    the approve call. */
module UtrApproval {
  import opened Common
  import opened Strings

  /** The length a UTR must have, and the cap on the input field. */
  const UtrLength: nat := 16

  const UtrError: string := "UTR Number must be exactly 16 digits."

  /** The input's `maxLength`: what the field holds after the admin types or pastes `typed`. */
  function Capped(typed: string): (r: string)
    ensures |r| <= UtrLength && |r| <= |typed| && r == typed[..|r|]
    ensures |typed| <= UtrLength ==> r == typed
  {
    if |typed| <= UtrLength then typed else typed[..UtrLength]
  }

  /** `handleSubmit`'s check: the trimmed input is confirmed when it has exactly 16 characters. Only
      the length is checked, not that the characters are digits. */
  function ConfirmedUtr(utr: string): (r: Option<string>)
    ensures r.Some? <==> |Trim(utr)| == UtrLength
    ensures r.Some? ==> |r.value| == UtrLength && !IsSpace(r.value[0]) && !IsSpace(r.value[UtrLength - 1])
  {
    var clean := Trim(utr);
    if |clean| != UtrLength then None else Some(clean)
  }

  /** The confirm button: disabled while the approval is in flight or while the untrimmed input is
      not 16 characters long. */
  predicate SubmitEnabled(utr: string, isProcessing: bool) {
    !isProcessing && |utr| == UtrLength
  }

  /** What is confirmed is the input with only white space cut from its two ends. */
  lemma ConfirmedIsTrimmedInput(utr: string)
    requires ConfirmedUtr(utr).Some?
    ensures exists a: nat :: TrimmedAt(utr, ConfirmedUtr(utr).value, a)
  {
    TrimCutsOnlySpace(utr);
  }

  /** Within the field's cap, a confirmed UTR is the input itself, untouched, and the button was
      enabled: the two checks agree on every input the field can hold. */
  lemma CappedConfirmedIsEnabled(utr: string)
    requires |utr| <= UtrLength && ConfirmedUtr(utr).Some?
    ensures ConfirmedUtr(utr).value == utr
    ensures SubmitEnabled(utr, false)
  {
    TrimCutsOnlySpace(utr);
    var a := |utr| - |TrimStart(utr)|;
    assert a == 0;
    assert Trim(utr) == utr[0..UtrLength];
  }

  /** The converse fails: sixteen characters starting with white space enable the button, yet the
      submit handler refuses them. */
  lemma EnabledButRefused(utr: string)
    requires |utr| == UtrLength && IsSpace(utr[0])
    ensures SubmitEnabled(utr, false)
    ensures ConfirmedUtr(utr).None?
  {
    assert |TrimStart(utr)| < |utr|;
  }

  /** The dialog's state: the input text and the error shown under it. */
  class UtrDialog {
    var utrNumber: string
    var error: Option<string>

    constructor()
      ensures utrNumber == "" && error == None
    {
      utrNumber := "";
      error := None;
    }

    /** The input's `onChange`: store the (capped) text and clear any error. */
    method Change(typed: string)
      modifies this
      ensures utrNumber == Capped(typed) && error == None
    {
      utrNumber := Capped(typed);
      error := None;
    }

    /** `handleSubmit`: a trimmed input of the wrong length sets the error and confirms nothing;
        otherwise the error is cleared and the trimmed text is what `onConfirm` receives. The input
        text itself is left as typed. */
    method Submit() returns (confirmed: Option<string>)
      modifies this
      ensures confirmed == ConfirmedUtr(old(utrNumber))
      ensures confirmed.None? ==> error == Some(UtrError)
      ensures confirmed.Some? ==> error == None
      ensures utrNumber == old(utrNumber)
    {
      var clean := Trim(utrNumber);
      if |clean| != UtrLength {
        error := Some(UtrError);
        return None;
      }
      error := None;
      confirmed := Some(clean);
    }
  }
}
