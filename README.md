# Monad faucet panel and donation form, modelled in Dafny

This project models the rules inside the two React components of the Monad
testnet faucet front end. They are:

- the claim panel, `MonadFaucet`;
- the donation dialog, `DonationModal`.

Everything that is library-owned (the wagmi read, write and receipt hooks,
viem's `parseEther`, the clock) becomes an input. What is left is modelled:

- **Digits**: decimal digit strings. This covers reading a digit string as a
  natural number, the decimal text of a natural number, and the longest digit
  prefix of a text.
- **NumberParser**: JavaScript's `parseFloat`, following section 19.2.4 of
  ECMA-262, over exact reals. It trims leading white space, takes an optional
  sign, recognises `Infinity`, then reads digits, an optional fraction and an
  optional exponent as the longest prefix that reads. It gives NaN when there
  are no digits. It also has the comparisons the form applies to the result.
- **Transactions**: the pending/confirming status both buttons watch, their
  two busy labels, and the two contract calls (`claimTokens`, `fundFaucet`).
- **Format**: `formatTime` (largest non-zero unit plus the next unit) and
  `formatMON` (wei to MON with three decimals, `0` for a missing or zero
  amount). It also has a reader for the countdown text, which shows that
  distinct countdowns never render alike.
- **FaucetPanel**: the `enabled` values of the four contract reads, computed
  through JavaScript's `&&` and truthiness. It also has the panel's priority
  of display states, the claim button's disabled flag and text, the
  `handleClaimTokens` guard, and the one-second tick, both as written and as
  intended. The class `Faucet` holds the component's own state: `mounted`,
  `timeRemaining` and `isDonationModalOpen`.
- **Donation**: the validity predicate on the amount text and the donate gate.
  It also has the disabled flags and the inline hint. The class
  `DonationForm` keeps `isValidAmount == IsValidAmount(donationAmount)`
  through every handler and through the reset after a confirmed donation.

Behaviour worth noting:

- `formatTime` shows the largest non-zero unit and always the unit below it,
  even when that unit is zero (86400 gives `1天 0小时`). It does not show the
  two largest non-zero units.
- The validity predicate has no lower bound beyond zero, so `0.0005` is valid.
- The per-user reads (`canClaim`, `getUserInfo`) do not look at whether an X
  account is bound. They run for any connected wallet.
- The statistics and claim-amount reads run with no wallet at all.
- The countdown never counts down; see Findings.

## Model

| member | source | states |
|---|---|---|
| Digits.NatToStringRoundTrip | app/src/components/monad-faucet.tsx:201-204 | the decimal text of a count reads back as that count |
| NumberParser.ParseFloat | app/src/components/donation-modal.tsx:34 | text that is blank after leading white space reads as NaN; text whose first non-blank character is `-` never reads as greater than zero |
| NumberParser.ParseFloatSign | app/src/components/donation-modal.tsx:34 | after leading white space, `-` negates what follows and `+` leaves it unchanged |
| NumberParser.TrimWhiteSpacePrefix | app/src/components/donation-modal.tsx:34 | leading white space is dropped and the first other character is kept |
| NumberParser.ParseFloatNat | app/src/components/donation-modal.tsx:34 | a whole number followed by anything that cannot continue it reads as that number |
| NumberParser.ParseFloatWithFraction | app/src/components/donation-modal.tsx:34 | `w.f` reads as the exact decimal w + f / 10^len(f) |
| NumberParser.ParseFixedThousandths | app/src/components/monad-faucet.tsx:209 | the three-decimal text of k thousandths reads back as exactly k / 1000 |
| Transactions.BusyLabel | app/src/components/monad-faucet.tsx:305 | a busy button shows the wallet prompt text exactly while pending, else the receipt wait text |
| Format.Decompose | app/src/components/monad-faucet.tsx:196-199 | seconds = 86400·days + 3600·hours + 60·minutes + secs with hours < 24, minutes < 60, secs < 60 |
| Format.DecomposeUnique | app/src/components/monad-faucet.tsx:196-199 | any decomposition with those bounds is the one computed |
| Format.CountdownOf | app/src/components/monad-faucet.tsx:193-204 | non-positive gives the claimable sentinel; under 60 gives the seconds alone; otherwise the largest non-zero unit (days from 86400, hours from 3600, minutes from 60) and the next unit, rounded down to a whole next unit |
| Format.FormatTime | app/src/components/monad-faucet.tsx:193-205 | the sentinel text appears exactly for counts that are not positive, and the text reads back as the count's countdown |
| Format.FormatTimeOneDay | app/src/components/monad-faucet.tsx:201 | 86400 renders as `1天 0小时` |
| Format.FormatTimeDayAndHour | app/src/components/monad-faucet.tsx:201 | 90061 renders as `1天 1小时` |
| Format.FormatTimeHourAndMinute | app/src/components/monad-faucet.tsx:202 | 3661 renders as `1小时 1分钟` |
| Format.FormatTimeMinutesAndSeconds | app/src/components/monad-faucet.tsx:203 | 125 renders as `2分钟 5秒` |
| Format.FormatTimeSecondsOnly | app/src/components/monad-faucet.tsx:204 | 45 renders as `45秒` |
| Format.RenderRoundTrip | app/src/components/monad-faucet.tsx:201-204 | the rendered countdown text reads back as the countdown |
| Format.FormatTimeInjectiveOnCountdowns | app/src/components/monad-faucet.tsx:193-205 | two counts with the same text have the same countdown |
| Format.NearestThousandth | app/src/components/monad-faucet.tsx:209 | the chosen thousandth of a MON is within half a thousandth of the amount, halves rounding up |
| Format.FormatMon | app/src/components/monad-faucet.tsx:207-210 | the text is the bare `0` exactly when the amount is missing or zero; otherwise, read back as a number, it is the nearest thousandth of a MON |
| Format.FormatMonShape | app/src/components/monad-faucet.tsx:209 | a non-zero amount shows as digits without leading zeros, a point and exactly three digits, which together count the nearest thousandths of a MON |
| Format.FormatMonRoundTrip | app/src/components/monad-faucet.tsx:207-210 | an amount in whole thousandths of a MON shows exactly and reads back as itself |
| FaucetPanel.EnabledReads | app/src/components/monad-faucet.tsx:88-127 | `canClaim` and `getUserInfo` run exactly with a wallet and a configured contract; `getFaucetStats` and `CLAIM_AMOUNT` run exactly with a configured contract |
| FaucetPanel.ContractReadsWithoutWallet | app/src/components/monad-faucet.tsx:115-125 | with no wallet, exactly the statistics and claim-amount reads run |
| FaucetPanel.SelectView | app/src/components/monad-faucet.tsx:212-237 | loading exactly when not mounted, then the connect prompt exactly without a wallet, then the warning exactly for an unset or placeholder contract, else the dashboard, whose claim section is the one selected from the user info, whose balance is the formatted statistics balance exactly when statistics arrived, and whose modal flag is the state's |
| FaucetPanel.DashboardIffUserReadsEnabled | app/src/components/monad-faucet.tsx:212-237 | once mounted, the dashboard shows exactly when the per-user reads run, bound or not; the prompts before it never run them |
| FaucetPanel.SelectClaimSection | app/src/components/monad-faucet.tsx:270-335 | bind prompt exactly when unbound, then loading until user info arrives, then the button exactly when the contract allows a claim now, else the countdown; the button is disabled exactly while busy and shows the pending label exactly while pending, the confirming label exactly while only confirming, and otherwise the claim label; the countdown reads back as the polled wait's countdown and is the sentinel only for a zero wait |
| FaucetPanel.ClaimAmountText | app/src/components/monad-faucet.tsx:310 | the idle amount reads as the nearest thousandth of the claim amount, or as 0.1 when it is missing or zero |
| FaucetPanel.ClaimLabel | app/src/components/monad-faucet.tsx:302-311 | the text is a busy label exactly while busy, and the pending label exactly while pending; idle, it is `领取 <amount> MON` with the claim amount text |
| FaucetPanel.CooldownScenario | app/src/components/monad-faucet.tsx:321 | a bound user with a 125-second wait sees the countdown `2分钟 5秒` under their account |
| FaucetPanel.TickAsWritten | app/src/components/monad-faucet.tsx:143-144 | with readings in clock order the result is never below the polled wait; equal readings give the polled wait, readings up to a second apart give one more |
| FaucetPanel.TickNeverCountsDown | app/src/components/monad-faucet.tsx:143 | polling 125 and ticking yields 125 or 126, where 120 is due after five seconds |
| FaucetPanel.IntendedRemaining | app/src/components/monad-faucet.tsx:141-145 | the intended countdown never exceeds the polled wait and is zero exactly once the polled wait has elapsed |
| FaucetPanel.IntendedCountsDown | app/src/components/monad-faucet.tsx:141-145 | the intended countdown never rises as time passes |
| FaucetPanel.IntendedAfterSeconds | app/src/components/monad-faucet.tsx:141-145 | after k whole seconds the intended countdown has dropped by k, down to zero |
| FaucetPanel.Faucet.constructor | app/src/components/monad-faucet.tsx:83-85 | not mounted, nothing remaining, modal closed |
| FaucetPanel.Faucet.Mount | app/src/components/monad-faucet.tsx:135-137 | the mount effect sets the mounted flag and keeps the counter non-negative |
| FaucetPanel.Faucet.OpenDonationModal | app/src/components/monad-faucet.tsx:245 | the support button opens the donation modal |
| FaucetPanel.Faucet.CloseDonationModal | app/src/components/monad-faucet.tsx:341 | the modal's close handler closes it |
| FaucetPanel.Faucet.Tick | app/src/components/monad-faucet.tsx:140-149 | the counter becomes the as-written tick value, never negative and never below the polled wait while the clock runs forwards; what the panel shows is unchanged |
| FaucetPanel.Faucet.HandleClaimTokens | app/src/components/monad-faucet.tsx:174-191 | a claimTokens write to the faucet is issued exactly when a wallet is connected |
| FaucetPanel.Faucet.View | app/src/components/monad-faucet.tsx:212-351 | the component state picks the view: loading exactly before mount, the dashboard exactly once mounted with a wallet and a configured contract, with the donation modal open exactly when the state says so |
| Donation.IsValidAmount | app/src/components/donation-modal.tsx:34-35 | valid exactly when parseFloat reads a finite number in (0, 1000]; the empty text is never valid |
| Donation.ValidWholeAmount | app/src/components/donation-modal.tsx:34-35 | a whole number of MON is valid exactly from 1 to 1000 |
| Donation.ValidThousandths | app/src/components/donation-modal.tsx:34-35 | a three-decimal amount is valid exactly from 0.001 to 1000 |
| Donation.PresetAmountsValid | app/src/components/donation-modal.tsx:23 | every preset amount is valid |
| Donation.NegativeAmountInvalid | app/src/components/donation-modal.tsx:35 | a negative amount is never valid |
| Donation.UpperBoundExamples | app/src/components/donation-modal.tsx:35 | `1000` is valid and `1000.01` is not |
| Donation.LowerBoundExamples | app/src/components/donation-modal.tsx:35 | `0.0005` is valid and `0` is not |
| Donation.UnreadableExamples | app/src/components/donation-modal.tsx:34-35 | the empty text and `abc` are not valid |
| Donation.TrailingTextIgnored | app/src/components/donation-modal.tsx:34 | text after a whole number that cannot continue it does not change validity |
| Donation.DonateGate | app/src/components/donation-modal.tsx:55 | with the flag in step with the text, the donate gate admits exactly the valid amounts |
| Donation.ShowsAmountError | app/src/components/donation-modal.tsx:223 | the hint never shows for the empty field or for an amount the gate admits, and a non-empty amount without the hint passes the gate; with the flag in step, it shows exactly for non-empty invalid text |
| Donation.DonateLabel | app/src/components/donation-modal.tsx:255-263 | the text is a busy label exactly while busy, and the pending label exactly while pending; idle, it is `捐赠 <amount> MON`, with `0` for the empty field |
| Donation.RenderForm | app/src/components/donation-modal.tsx:120-276 | the form renders exactly when open; with the flag in step, close, presets, input and cancel are each disabled exactly while busy, donate is disabled exactly for an invalid amount or while busy and passes the gate when enabled, the hint shows exactly for non-empty invalid text, and the pending label shows exactly while pending |
| Donation.DonationForm.constructor | app/src/components/donation-modal.tsx:19-20 | an empty, invalid amount, in step |
| Donation.DonationForm.ValidateAmount | app/src/components/donation-modal.tsx:32-42 | the flag and the result become the validity of the text |
| Donation.DonationForm.HandleAmountChange | app/src/components/donation-modal.tsx:44-47 | the text becomes the input and the flag stays in step |
| Donation.DonationForm.HandlePresetClick | app/src/components/donation-modal.tsx:49-52 | the same update as an edit, with the preset as the input |
| Donation.DonationForm.HandleDonate | app/src/components/donation-modal.tsx:54-87 | an invalid or empty amount gives the error toast and no write; otherwise fundFaucet with the parsed wei, or the failure toast when parsing fails |
| Donation.DonationForm.OnReceipt | app/src/components/donation-modal.tsx:90-101 | on a confirmed receipt with a hash: thank for the old amount, notify, close, and reset to an empty invalid form; otherwise nothing changes |
| Donation.DonationForm.Render | app/src/components/donation-modal.tsx:120-276 | the form renders exactly when open; in a valid state donate is enabled exactly for a valid amount while idle, and the hint shows exactly for non-empty invalid text |

## Left out

- Markup, styling, icons and the overlay click handler are not modelled. They are display only.
- The wagmi hooks are not modelled. Their results (user info, statistics, claim amount, pending and confirming flags, receipt and hash) are inputs.
- Polling and refetch intervals, and the delayed statistics refetch after a donation, are left out. They are timer scheduling.
- `Donation.DonationForm.OnReceipt`: React's effect re-run rules are not modelled; a confirmed receipt is one call. In the source the success effect also depends on `donationAmount`, `onClose` and `onDonationSuccess` (donation-modal.tsx:101), and the panel passes fresh arrow functions for the last two on every render (monad-faucet.tsx:341-348). While the confirmed `hash` persists, the effect would fire again after the reset, with the empty amount, and again after later edits, closing the dialog each time. The model does not capture these repeats.
- The toasts and `console.error` are left out; they are output only. The claim-success toast's `Number(claimAmount) / 1e18` is left out with them.
- The claim-success and claim-error effects are left out. They only show a toast and refetch the user info.
- The last-claim time is shown as its millisecond timestamp. Its `toLocaleString` text depends on the locale.
- `Format.FormatMon`: computes `toFixed(3)` exactly, rounding half up on the exact amount. It does not model the double rounding of `Number(amount) / 1e18`, the loss of precision above 2^53, or the exponent notation `toFixed` uses from 10^21 MON upward.
- `Format.FormatMon`: takes only missing or non-negative amounts. The read hooks deliver `uint256` values, so negative and NaN inputs cannot occur.
- `Donation.DonationForm.HandleDonate`: viem's `parseEther` is a foreign call. Its result comes in as a parameter, with None when it throws.
- `Donation.DonationForm.ValidateAmount`: the `catch` branch is not modelled because `parseFloat` never throws.
- `FaucetPanel.Faucet.HandleClaimTokens`: a throw from `writeContract` is not modelled. Failures arrive through the hook's `error`.
- An unset faucet address environment variable is modelled as the empty string.
- The `isWalletBound` prop is an input that defaults to false.
- `NumberParser.ParseFloat`: works over exact reals. It does not round to the nearest double, does not overflow to Infinity, and does not distinguish negative zero.
- `Donation.IsValidAmount`: inherits the exact reals. `1e-400` is valid in the model, while JavaScript underflows it to 0 and rejects it. `1000.0000000000000001` is invalid in the model, while JavaScript rounds it to 1000 and accepts it.
- `Format.FormatTime`: counts exactly. The source converts `userInfo[3]` with `Number`, which loses precision above 2^53 seconds.
- `FaucetPanel.Faucet.Tick`: counts exactly. The source's `Number(userInfo[3])` loses precision above 2^53 seconds.

## Findings

| source | as written | input that shows it | evidently intended | confidence | as-written member | corrected member |
|---|---|---|---|---|---|---|
| app/src/components/monad-faucet.tsx:143 | the elapsed time is `Date.now() - Date.now()`, two readings of the same clock, so the tick subtracts zero seconds, or minus one when the readings straddle a millisecond | a polled wait of 125 seconds, ticked five seconds later, gives 125 or 126 | the wait minus the whole seconds elapsed since it was polled, clamped at zero: 120 | not executed | FaucetPanel.TickNeverCountsDown | FaucetPanel.IntendedRemaining |

The panel keeps the as-written tick in `FaucetPanel.Faucet.Tick`, and the
intended countdown is a separate function. The rendered countdown formats the
polled `userInfo[3]` and never reads `timeRemaining`, so neither tick changes
what the panel shows.
