/**
 * The donation form: a text field and five preset buttons that set the
 * amount, a validity flag kept beside the text, the gate in front of the
 * fundFaucet write, the reset once the donation is confirmed, and which
 * controls are disabled while the write is in flight.
 */
module Donation {

  import opened Wrappers
  import opened Digits
  import opened NumberParser
  import opened Transactions

  const PresetAmounts: seq<string> := ["1", "5", "10", "20", "100"]

  /**
   * `num > 0 && num <= 1000 && !isNaN(num)` for `num = parseFloat(value)`:
   * parseFloat reads a finite number in (0, 1000], so the NaN test adds
   * nothing and the empty text is never valid.
   */
  predicate IsValidAmount(value: string): (valid: bool)
    ensures valid <==> ParseFloat(value).Finite? && 0.0 < ParseFloat(value).value <= 1000.0
    ensures valid ==> value != ""
  {
    var num := ParseFloat(value);
    assert value == "" ==> TrimStart(value) == [];
    GreaterThan(num, 0.0) && AtMost(num, 1000.0) && !IsNaN(num)
  }

  /** A whole number of MON is valid exactly from 1 to 1000. */
  lemma ValidWholeAmount(n: nat)
    ensures IsValidAmount(NatToString(n)) <==> 1 <= n <= 1000
  {
    ParseFloatNat(n, "");
    assert NatToString(n) + "" == NatToString(n);
  }

  /** An amount in steps of 0.001 MON, written with three decimals, is valid exactly in (0, 1000]. */
  lemma ValidThousandths(k: nat)
    ensures IsValidAmount(FixedThousandths(k)) <==> 0 < k <= 1000000
  {
    ParseFixedThousandths(k);
  }

  lemma PresetAmountsValid()
    ensures forall p :: p in PresetAmounts ==> IsValidAmount(p)
  {
    WholeAmountText(1, "1");
    WholeAmountText(5, "5");
    WholeAmountText(10, "10");
    WholeAmountText(20, "20");
    WholeAmountText(100, "100");
  }

  lemma WholeAmountText(n: nat, text: string)
    requires NatToString(n) == text
    ensures IsValidAmount(text) <==> 1 <= n <= 1000
  {
    ValidWholeAmount(n);
  }

  /** A minus sign after the leading white space always makes the amount invalid. */
  lemma NegativeAmountInvalid(value: string)
    requires var t := TrimStart(value); |t| > 0 && t[0] == '-'
    ensures !IsValidAmount(value)
  {
  }

  /** 1000 is the largest valid amount; a hundredth more is not. */
  lemma UpperBoundExamples()
    ensures IsValidAmount("1000") && !IsValidAmount("1000.01")
  {
    WholeAmountText(1000, "1000");
    AboveMaximumInvalid();
  }

  lemma AboveMaximumInvalid()
    ensures !IsValidAmount("1000.01")
  {
    assert Mantissa("1000", "01") == 1000.01 by {
      assert DigitsValue("1000") == 1000 by {
        NatToStringRoundTrip(1000);
        assert NatToString(1000) == "1000";
      }
      assert DigitsValue("01") == 1 by {
        assert "01"[..1] == "0";
      }
      assert Pow10(2) == 100;
    }
    DecimalText("1000", "01", "1000.01", 1000.01);
  }

  /** Nothing enforces the 0.001 step shown beside the field: 0.0005 passes, 0 does not. */
  lemma LowerBoundExamples()
    ensures IsValidAmount("0.0005") && !IsValidAmount("0")
  {
    WholeAmountText(0, "0");
    HalfThousandthValid();
  }

  lemma HalfThousandthValid()
    ensures IsValidAmount("0.0005")
  {
    assert Mantissa("0", "0005") == 0.0005 by {
      assert DigitsValue("0") == 0;
      assert DigitsValue("0005") == 5 by {
        assert "0005"[..3] == "000" && "000"[..2] == "00" && "00"[..1] == "0";
      }
      assert Pow10(4) == 10000;
    }
    DecimalText("0", "0005", "0.0005", 0.0005);
  }

  lemma DecimalText(w: string, f: string, text: string, value: real)
    requires AllDigits(w) && AllDigits(f) && |w| > 0
    requires text == w + "." + f
    requires Mantissa(w, f) == value
    ensures IsValidAmount(text) <==> 0.0 < value <= 1000.0
  {
    ParseFloatWithFraction(w, f);
  }

  /** Text that parseFloat cannot read at all is invalid. */
  lemma UnreadableExamples()
    ensures !IsValidAmount("") && !IsValidAmount("abc")
  {
    assert ParseFloat("abc") == NaN by {
      assert TrimStart("abc") == "abc";
      assert ParseDigits("abc") == NaN;
    }
  }

  /** Text after a whole number that cannot continue it is ignored, as parseFloat ignores it. */
  lemma TrailingTextIgnored(n: nat, tail: string)
    requires tail == [] || (!IsDigit(tail[0]) && tail[0] != '.' && tail[0] != 'e' && tail[0] != 'E')
    ensures IsValidAmount(NatToString(n) + tail) <==> 1 <= n <= 1000
  {
    ParseFloatNat(n, tail);
  }

  // The form's pure rules, over the two state fields and the write status.

  /**
   * handleDonate goes on only when `isValidAmount && donationAmount` is truthy;
   * with the flag in step with the text, that is exactly a valid amount.
   */
  predicate DonateGate(donationAmount: string, isValidAmount: bool): (go: bool)
    ensures isValidAmount == IsValidAmount(donationAmount) ==> (go <==> IsValidAmount(donationAmount))
  {
    isValidAmount && donationAmount != ""
  }

  predicate DonateDisabled(isValidAmount: bool, tx: TxStatus) {
    !isValidAmount || IsBusy(tx)
  }

  /**
   * The inline hint under the field. It never shows for an amount that would
   * pass the gate, and a non-empty amount without it always passes.
   */
  predicate ShowsAmountError(donationAmount: string, isValidAmount: bool): (shown: bool)
    ensures shown ==> !DonateGate(donationAmount, isValidAmount)
    ensures !shown && donationAmount != "" ==> DonateGate(donationAmount, isValidAmount)
    ensures donationAmount == "" ==> !shown
    ensures isValidAmount == IsValidAmount(donationAmount) ==>
              (shown <==> donationAmount != "" && !IsValidAmount(donationAmount))
  {
    donationAmount != "" && !isValidAmount
  }

  /** The donate button's text: the busy label while a donation is in flight, else the amount. */
  function DonateLabel(donationAmount: string, tx: TxStatus): (text: string)
    ensures IsBusy(tx) <==> text == PendingLabel || text == ConfirmingLabel
    ensures text == PendingLabel <==> tx.isPending
    ensures !IsBusy(tx) ==> text == "捐赠 " + (if donationAmount == "" then "0" else donationAmount) + " MON"
  {
    if IsBusy(tx) then BusyLabel(tx)
    else
      var text := "捐赠 " + (if donationAmount == "" then "0" else donationAmount) + " MON";
      assert text[0] == '捐';
      text
  }

  /** What the open form shows: the disabled flags, the hint and the donate button's text. */
  datatype FormView = FormView(
    closeDisabled: bool,
    presetsDisabled: bool,
    inputDisabled: bool,
    cancelDisabled: bool,
    donateDisabled: bool,
    showsAmountError: bool,
    donateLabel: string)

  /**
   * Nothing is rendered while the modal is closed. With the flag in step with
   * the text: the donate button is enabled exactly when the amount is valid and
   * no write is in flight, an enabled button always passes the gate, each other
   * control is disabled exactly while busy, and the hint shows exactly for
   * non-empty invalid text.
   */
  function RenderForm(isOpen: bool, donationAmount: string, isValidAmount: bool, tx: TxStatus): (r: Option<FormView>)
    ensures r.Some? <==> isOpen
    ensures isOpen && isValidAmount == IsValidAmount(donationAmount) ==>
              var v := r.value;
              && v.closeDisabled == IsBusy(tx)
              && v.presetsDisabled == IsBusy(tx)
              && v.inputDisabled == IsBusy(tx)
              && v.cancelDisabled == IsBusy(tx)
              && (v.donateDisabled <==> !IsValidAmount(donationAmount) || IsBusy(tx))
              && (!v.donateDisabled ==> DonateGate(donationAmount, isValidAmount))
              && (v.showsAmountError <==> donationAmount != "" && !IsValidAmount(donationAmount))
              && (v.donateLabel == PendingLabel <==> tx.isPending)
  {
    if !isOpen then None
    else Some(FormView(
      IsBusy(tx), IsBusy(tx), IsBusy(tx), IsBusy(tx),
      DonateDisabled(isValidAmount, tx),
      ShowsAmountError(donationAmount, isValidAmount),
      DonateLabel(donationAmount, tx)))
  }

  /** The result of pressing donate: an error toast, the fundFaucet write, or a failure toast. */
  datatype DonateOutcome = InvalidAmountToast | Submitted(write: Write) | SubmitFailedToast

  /** What the confirmation effect does besides resetting the form. */
  datatype Effect = ThankYouToast(amount: string) | NotifyDonationSuccess | CloseModal

  class DonationForm {
    const faucetAddress: string
    var donationAmount: string
    var isValidAmount: bool

    /** The flag always describes the text beside it. */
    ghost predicate Valid()
      reads this
    {
      isValidAmount == IsValidAmount(donationAmount)
    }

    constructor(faucetAddress: string)
      ensures Valid()
      ensures this.faucetAddress == faucetAddress
      ensures donationAmount == "" && !isValidAmount
    {
      this.faucetAddress := faucetAddress;
      donationAmount := "";
      isValidAmount := false;
    }

    /** validateAmount: recompute the flag from a text; the catch branch cannot be taken. */
    method ValidateAmount(value: string) returns (isValid: bool)
      modifies this`isValidAmount
      ensures isValid == IsValidAmount(value)
      ensures isValidAmount == isValid
    {
      isValid := IsValidAmount(value);
      isValidAmount := isValid;
    }

    method HandleAmountChange(value: string)
      modifies this`donationAmount, this`isValidAmount
      ensures Valid()
      ensures donationAmount == value
    {
      donationAmount := value;
      var _ := ValidateAmount(value);
    }

    method HandlePresetClick(amount: string)
      modifies this`donationAmount, this`isValidAmount
      ensures Valid()
      ensures donationAmount == amount
    {
      donationAmount := amount;
      var _ := ValidateAmount(amount);
    }

    /**
     * handleDonate. `amountInWei` is what parseEther(donationAmount) gives,
     * None when it throws; it is only consulted once the gate has passed.
     */
    method HandleDonate(amountInWei: Option<nat>) returns (outcome: DonateOutcome)
      ensures !DonateGate(donationAmount, isValidAmount) ==> outcome == InvalidAmountToast
      ensures DonateGate(donationAmount, isValidAmount) && amountInWei.Some? ==>
                outcome == Submitted(Write(faucetAddress, FundFaucet(amountInWei.value)))
      ensures DonateGate(donationAmount, isValidAmount) && amountInWei.None? ==>
                outcome == SubmitFailedToast
    {
      if !isValidAmount || donationAmount == "" {
        return InvalidAmountToast;
      }
      match amountInWei
      case Some(wei) =>
        outcome := Submitted(Write(faucetAddress, FundFaucet(wei)));
      case None =>
        outcome := SubmitFailedToast;
    }

    /**
     * The effect that watches the receipt: once it is confirmed and a hash
     * exists, thank the donor for the amount in the field, tell the parent,
     * close, and empty the form.
     */
    method OnReceipt(isConfirmed: bool, hasHash: bool) returns (effects: seq<Effect>)
      requires Valid()
      modifies this`donationAmount, this`isValidAmount
      ensures Valid()
      ensures isConfirmed && hasHash ==>
                && effects == [ThankYouToast(old(donationAmount)), NotifyDonationSuccess, CloseModal]
                && donationAmount == "" && !isValidAmount
      ensures !(isConfirmed && hasHash) ==>
                effects == [] && donationAmount == old(donationAmount) && isValidAmount == old(isValidAmount)
    {
      effects := [];
      if isConfirmed && hasHash {
        effects := [ThankYouToast(donationAmount), NotifyDonationSuccess, CloseModal];
        donationAmount := "";
        isValidAmount := false;
      }
    }

    /**
     * The form as rendered from this state: while the flag is in step, donate
     * is enabled exactly for a valid amount with nothing in flight, and the
     * hint shows exactly for non-empty invalid text.
     */
    function Render(isOpen: bool, tx: TxStatus): (r: Option<FormView>)
      reads this
      ensures r.Some? <==> isOpen
      ensures Valid() && isOpen ==>
                && (!r.value.donateDisabled <==> IsValidAmount(donationAmount) && !IsBusy(tx))
                && (r.value.showsAmountError <==> donationAmount != "" && !IsValidAmount(donationAmount))
    {
      RenderForm(isOpen, donationAmount, isValidAmount, tx)
    }
  }
}
