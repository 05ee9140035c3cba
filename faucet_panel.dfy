/**
 * The faucet claim panel: which contract reads run, which of its display
 * states the panel shows, the claim button and its guard, and the
 * one-second countdown tick. The wagmi hooks' results are inputs.
 */
module FaucetPanel {

  import opened Wrappers
  import opened Digits
  import opened NumberParser
  import opened Format
  import opened Transactions

  // ------------------------------------------------------------ configuration

  /** The placeholder that stands for an address nobody has filled in. */
  const Placeholder: string := "0x..."

  /**
   * The faucet address is configured when it is neither empty nor the
   * placeholder. A missing environment variable is the empty string here.
   */
  predicate IsConfigured(contract: string) {
    contract != "" && contract != Placeholder
  }

  /** `address` from useAccount: None while no wallet is connected. */
  predicate IsConnected(address: Option<string>) {
    address.Some? && address.value != ""
  }

  // --------------------------------------------------------- enabled predicates

  /** The two kinds of JavaScript value the `enabled` expressions pass through. */
  datatype JsValue = JsBool(b: bool) | JsString(s: string)

  /** Boolean coercion: false and the empty string are the falsy ones here. */
  predicate Truthy(v: JsValue) {
    match v
    case JsBool(b) => b
    case JsString(s) => s != ""
  }

  /** `a && b` yields a when a is falsy and b otherwise. */
  function JsAnd(a: JsValue, b: JsValue): JsValue {
    if Truthy(a) then b else a
  }

  /** `!!address && FAUCET_CONTRACT_ADDRESS && FAUCET_CONTRACT_ADDRESS !== "0x..."` */
  function PerUserEnabled(address: Option<string>, contract: string): JsValue {
    JsAnd(JsAnd(JsBool(IsConnected(address)), JsString(contract)), JsBool(contract != Placeholder))
  }

  /** `FAUCET_CONTRACT_ADDRESS && FAUCET_CONTRACT_ADDRESS !== "0x..."` */
  function ContractOnlyEnabled(contract: string): JsValue {
    JsAnd(JsString(contract), JsBool(contract != Placeholder))
  }

  datatype ContractRead = CanClaim | GetUserInfo | GetFaucetStats | ClaimAmount

  /**
   * The reads whose `enabled` value is truthy. The per-user reads need a
   * wallet and a configured contract; the statistics and the claim amount
   * need only the contract. Binding an X account plays no part.
   */
  function EnabledReads(address: Option<string>, contract: string): (r: set<ContractRead>)
    ensures CanClaim in r <==> IsConnected(address) && IsConfigured(contract)
    ensures GetUserInfo in r <==> IsConnected(address) && IsConfigured(contract)
    ensures GetFaucetStats in r <==> IsConfigured(contract)
    ensures ClaimAmount in r <==> IsConfigured(contract)
  {
    (if Truthy(PerUserEnabled(address, contract)) then {CanClaim, GetUserInfo} else {})
    + (if Truthy(ContractOnlyEnabled(contract)) then {GetFaucetStats, ClaimAmount} else {})
  }

  // ---------------------------------------------------------------- chain data

  /** getUserInfo(user): the bound X account, last claim time, eligibility and wait in seconds. */
  datatype UserInfo = UserInfo(xAccount: string, lastClaim: nat, canClaimNow: bool, timeUntilNextClaim: nat)

  /** getFaucetStats(): amounts in wei. */
  datatype FaucetStats = FaucetStats(balance: nat, totalClaimedAmount: nat, totalUniqueUsers: nat, registryAddress: string)

  /** What the read hooks have delivered so far; None until a read has answered. */
  datatype ChainData = ChainData(userInfo: Option<UserInfo>, faucetStats: Option<FaucetStats>, claimAmount: Option<nat>)

  // ------------------------------------------------------------------- views

  /** The lower half of the dashboard: the account, the last claim, and the button or the countdown. */
  datatype ClaimSection =
    | BindAccountPrompt
    | LoadingUserInfo
    | ClaimButton(account: string, lastClaimMillis: Option<nat>, disabled: bool, text: string)
    | Cooldown(account: string, lastClaimMillis: Option<nat>, countdown: string)

  datatype View =
    | Loading
    | ConnectWalletPrompt
    | NotDeployedWarning
    | Dashboard(balance: Option<string>, claim: ClaimSection, donationModalOpen: bool)

  /**
   * The claim amount shown on the idle button: the formatted amount, which
   * reads as the nearest thousandth of a MON, or 0.1 while it is missing or zero.
   */
  function ClaimAmountText(claimAmount: Option<nat>): (text: string)
    ensures claimAmount.Some? && claimAmount.value != 0 ==>
              ParseFloat(text) == Finite(NearestThousandth(claimAmount.value) as real / 1000.0)
    ensures claimAmount.None? || claimAmount.value == 0 ==> ParseFloat(text) == Finite(0.1)
  {
    if claimAmount.Some? && claimAmount.value != 0 then FormatMon(claimAmount)
    else
      DefaultClaimAmountReads();
      "0.1"
  }

  /** The claim button's text: the busy label while a claim is in flight, else the amount. */
  function ClaimLabel(claimAmount: Option<nat>, tx: TxStatus): (text: string)
    ensures IsBusy(tx) <==> text == PendingLabel || text == ConfirmingLabel
    ensures text == PendingLabel <==> tx.isPending
    ensures !IsBusy(tx) ==> text == "领取 " + ClaimAmountText(claimAmount) + " MON"
  {
    if IsBusy(tx) then BusyLabel(tx)
    else
      var text := "领取 " + ClaimAmountText(claimAmount) + " MON";
      assert text[0] == '领';
      text
  }

  /** The last claim as a millisecond timestamp, shown only when there was one. */
  function LastClaimShown(info: UserInfo): Option<nat> {
    if info.lastClaim > 0 then Some(info.lastClaim * 1000) else None
  }

  /**
   * The dashboard's claim section, in its own priority: bind prompt, then
   * loading, then the button exactly when the contract says the user may
   * claim now, disabled exactly while a claim is in flight, else the
   * countdown of the polled wait, which reads back as that wait's countdown.
   */
  function SelectClaimSection(isWalletBound: bool, userInfo: Option<UserInfo>, claimAmount: Option<nat>, tx: TxStatus): (c: ClaimSection)
    ensures c.BindAccountPrompt? <==> !isWalletBound
    ensures c.LoadingUserInfo? <==> isWalletBound && userInfo.None?
    ensures c.ClaimButton? <==> isWalletBound && userInfo.Some? && userInfo.value.canClaimNow
    ensures c.Cooldown? <==> isWalletBound && userInfo.Some? && !userInfo.value.canClaimNow
    ensures c.ClaimButton? || c.Cooldown? ==>
              && c.account == userInfo.value.xAccount
              && (c.lastClaimMillis.Some? <==> userInfo.value.lastClaim > 0)
    ensures c.ClaimButton? ==>
              && (c.disabled <==> IsBusy(tx))
              && (c.text == PendingLabel <==> tx.isPending)
              && (c.text == ConfirmingLabel <==> !tx.isPending && tx.isConfirming)
              && c.text == ClaimLabel(claimAmount, tx)
    ensures c.Cooldown? ==>
              && ReadCountdown(c.countdown) == Some(CountdownOf(userInfo.value.timeUntilNextClaim))
              && (c.countdown == ClaimableNowText <==> userInfo.value.timeUntilNextClaim == 0)
  {
    if !isWalletBound then BindAccountPrompt
    else if userInfo.None? then LoadingUserInfo
    else
      var info := userInfo.value;
      if info.canClaimNow then ClaimButton(info.xAccount, LastClaimShown(info), IsBusy(tx), ClaimLabel(claimAmount, tx))
      else Cooldown(info.xAccount, LastClaimShown(info), FormatTime(info.timeUntilNextClaim))
  }

  /** The panel's render: the first of its guards that fails picks the view. */
  function SelectView(mounted: bool, address: Option<string>, contract: string, isWalletBound: bool,
                      data: ChainData, tx: TxStatus, donationModalOpen: bool): (v: View)
    ensures v.Loading? <==> !mounted
    ensures v.ConnectWalletPrompt? <==> mounted && !IsConnected(address)
    ensures v.NotDeployedWarning? <==> mounted && IsConnected(address) && !IsConfigured(contract)
    ensures v.Dashboard? <==> mounted && IsConnected(address) && IsConfigured(contract)
    ensures v.Dashboard? ==>
              && v.claim == SelectClaimSection(isWalletBound, data.userInfo, data.claimAmount, tx)
              && (v.balance.Some? <==> data.faucetStats.Some?)
              && (v.balance.Some? ==> v.balance.value == FormatMon(Some(data.faucetStats.value.balance)))
              && v.donationModalOpen == donationModalOpen
  {
    if !mounted then Loading
    else if !IsConnected(address) then ConnectWalletPrompt
    else if !IsConfigured(contract) then NotDeployedWarning
    else
      var balance := if data.faucetStats.Some? then Some(FormatMon(Some(data.faucetStats.value.balance))) else None;
      Dashboard(balance, SelectClaimSection(isWalletBound, data.userInfo, data.claimAmount, tx), donationModalOpen)
  }

  /**
   * The dashboard appears exactly when the per-user reads are enabled (once
   * mounted), whether or not an X account is bound; the prompts that come
   * before it never have a per-user read running.
   */
  lemma DashboardIffUserReadsEnabled(mounted: bool, address: Option<string>, contract: string, isWalletBound: bool,
                                     data: ChainData, tx: TxStatus, open: bool)
    ensures var v := SelectView(mounted, address, contract, isWalletBound, data, tx, open);
      && (v.Dashboard? <==> mounted && GetUserInfo in EnabledReads(address, contract))
      && (v.Dashboard? <==> mounted && CanClaim in EnabledReads(address, contract))
      && (v.ConnectWalletPrompt? || v.NotDeployedWarning? ==>
            CanClaim !in EnabledReads(address, contract) && GetUserInfo !in EnabledReads(address, contract))
  {
  }

  /** The statistics and the claim amount are read even before a wallet connects. */
  lemma ContractReadsWithoutWallet(contract: string)
    requires IsConfigured(contract)
    ensures EnabledReads(None, contract) == {GetFaucetStats, ClaimAmount}
  {
    assert GetFaucetStats in EnabledReads(None, contract);
    assert ClaimAmount in EnabledReads(None, contract);
  }

  lemma DefaultClaimAmountReads()
    ensures ParseFloat("0.1") == Finite(0.1)
  {
    var text := "0" + "." + "1";
    assert text == "0.1";
    ParseFloatWithFraction("0", "1");
    assert Mantissa("0", "1") == 0.1 by {
      assert DigitsValue("0") == 0 && DigitsValue("1") == 1 && Pow10(1) == 10;
    }
  }

  /** A bound user who must wait 125 seconds sees "2分钟 5秒" under their account. */
  lemma CooldownScenario(contract: string, account: string, tx: TxStatus)
    requires IsConfigured(contract)
    ensures var data := ChainData(Some(UserInfo(account, 0, false, 125)), None, None);
      SelectView(true, Some("0xabc"), contract, true, data, tx, false)
        == Dashboard(None, Cooldown(account, None, "2分钟 5秒"), false)
  {
    FormatTimeMinutesAndSeconds();
  }

  // ---------------------------------------------------------- countdown tick

  /** The interval is installed only once user info has arrived with a positive wait. */
  predicate CountdownTickInstalled(userInfo: Option<UserInfo>) {
    userInfo.Some? && userInfo.value.timeUntilNextClaim > 0
  }

  /**
   * One tick as written: the elapsed time is the difference of two clock
   * readings taken one after the other, the first minus the second, floored
   * to whole seconds; the result is clamped at zero.
   */
  function TickAsWritten(polled: nat, firstNow: int, secondNow: int): (r: nat)
    ensures firstNow <= secondNow ==> r >= polled
    ensures firstNow == secondNow ==> r == polled
    ensures firstNow < secondNow <= firstNow + 1000 ==> r == polled + 1
  {
    var remaining := polled - (firstNow - secondNow) / 1000;
    if remaining > 0 then remaining else 0
  }

  /**
   * The countdown the tick evidently means: the polled wait minus the whole
   * seconds elapsed since it was polled, clamped at zero.
   */
  function IntendedRemaining(polled: nat, polledAt: int, now: int): (r: nat)
    requires polledAt <= now
    ensures r <= polled
    ensures r == 0 <==> now - polledAt >= polled * 1000
  {
    var remaining := polled - (now - polledAt) / 1000;
    if remaining > 0 then remaining else 0
  }

  /** The intended countdown never goes up as time passes. */
  lemma IntendedCountsDown(polled: nat, polledAt: int, t1: int, t2: int)
    requires polledAt <= t1 <= t2
    ensures IntendedRemaining(polled, polledAt, t2) <= IntendedRemaining(polled, polledAt, t1)
  {
    assert (t1 - polledAt) / 1000 <= (t2 - polledAt) / 1000;
  }

  /** After k whole seconds the intended countdown has dropped by k, down to zero. */
  lemma IntendedAfterSeconds(polled: nat, polledAt: int, k: nat)
    ensures IntendedRemaining(polled, polledAt, polledAt + 1000 * k) == if k < polled then polled - k else 0
  {
    assert (1000 * k) / 1000 == k;
  }

  /**
   * As written the countdown never decreases: five seconds after polling 125,
   * the evident intent is 120, while a tick yields 125, or 126 when the two
   * clock readings fall in different milliseconds.
   */
  lemma TickNeverCountsDown(t: int)
    ensures TickAsWritten(125, t, t) == 125
    ensures TickAsWritten(125, t, t + 1) == 126
    ensures IntendedRemaining(125, t, t + 5000) == 120
  {
    IntendedAfterSeconds(125, t, 5);
  }

  // ------------------------------------------------------------------ panel

  /** The panel's own state: the mount flag, the ticking counter and the donation modal flag. */
  class Faucet {
    const contract: string
    var mounted: bool
    var timeRemaining: int
    var isDonationModalOpen: bool

    /** The tick only ever stores a clamped value. */
    ghost predicate Valid()
      reads this
    {
      timeRemaining >= 0
    }

    constructor(contract: string)
      ensures Valid()
      ensures this.contract == contract
      ensures !mounted && timeRemaining == 0 && !isDonationModalOpen
    {
      this.contract := contract;
      mounted := false;
      timeRemaining := 0;
      isDonationModalOpen := false;
    }

    /** The mount effect. */
    method Mount()
      requires Valid()
      modifies this`mounted
      ensures Valid()
      ensures mounted
    {
      mounted := true;
    }

    /** The support button. */
    method OpenDonationModal()
      requires Valid()
      modifies this`isDonationModalOpen
      ensures Valid()
      ensures isDonationModalOpen
    {
      isDonationModalOpen := true;
    }

    /** The modal's onClose. */
    method CloseDonationModal()
      requires Valid()
      modifies this`isDonationModalOpen
      ensures Valid()
      ensures !isDonationModalOpen
    {
      isDonationModalOpen := false;
    }

    /**
     * One run of the interval callback with the two clock readings it takes.
     * The counter never drops below the polled wait while the clock does not
     * run backwards; the rendered panel does not depend on it at all.
     */
    method Tick(userInfo: Option<UserInfo>, firstNow: int, secondNow: int)
      requires CountdownTickInstalled(userInfo)
      modifies this`timeRemaining
      ensures Valid()
      ensures timeRemaining == TickAsWritten(userInfo.value.timeUntilNextClaim, firstNow, secondNow)
      ensures firstNow <= secondNow ==> timeRemaining >= userInfo.value.timeUntilNextClaim
      ensures forall address, isWalletBound, data, tx | old(allocated(address)) && old(allocated(data)) && old(allocated(tx)) ::
                View(address, isWalletBound, data, tx) == old(View(address, isWalletBound, data, tx))
    {
      var remaining := userInfo.value.timeUntilNextClaim - (firstNow - secondNow) / 1000;
      timeRemaining := if remaining > 0 then remaining else 0;
    }

    /** handleClaimTokens: without a wallet nothing happens; otherwise claimTokens() is sent to the faucet. */
    method HandleClaimTokens(address: Option<string>) returns (write: Option<Write>)
      ensures write.Some? <==> IsConnected(address)
      ensures write.Some? ==> write.value == Write(contract, ClaimTokens)
    {
      if !IsConnected(address) {
        return None;
      }
      write := Some(Write(contract, ClaimTokens));
    }

    /** The render, from this state and the hooks' results. */
    function View(address: Option<string>, isWalletBound: bool, data: ChainData, tx: TxStatus): (v: View)
      reads this`mounted, this`isDonationModalOpen
      ensures v.Loading? <==> !mounted
      ensures v.Dashboard? <==> mounted && IsConnected(address) && IsConfigured(contract)
      ensures v.Dashboard? ==> v.donationModalOpen == isDonationModalOpen
    {
      SelectView(mounted, address, contract, isWalletBound, data, tx, isDonationModalOpen)
    }
  }
}
