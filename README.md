# nft-market-hours, modelled in Dafny

The nft-market-hours on-chain program keeps one oracle record. The record says whether the US equities market is
open. A permission check elsewhere reads it to allow or refuse NFT transfers. The program has two
instructions:

- `create_oracle` writes the record once, at its derived address.
- `crank_oracle` recomputes the record from the current time. Inside 15 minutes after the 14:30 UTC
  open or the 21:00 UTC close, it also pays the caller a fixed reward of 10,000,000 lamports from a
  reward vault. It pays only if the vault holds strictly more than that.

The model has two modules:

- `MarketClock` (`market_clock.dfy`) holds the two pure time predicates, `IsUsMarketOpen` and
  `IsWithin15MinutesOfMarketOpenOrClose`. They are written with Rust's truncating `/` and `%`
  (`RustDiv`, `RustRem`) on an `i64` timestamp. They are characterised against a calendar reading of
  the timestamp (`DayOfWeekAt`, `TimeOfDay`, floor division in UTC).
- `NftMarketHours` (`nft_market_hours.dfy`) holds the record types, the account state (`Ledger`) and
  the two instructions:
  - the pure step functions `CreateStep` and `CrankStep` return the outcome and the state after the
    call; a failed call returns the state unchanged;
  - the class `MarketHoursProgram` keeps the same accounts as mutable fields, and its methods
    `CreateOracle` and `CrankOracle` are proved to perform exactly those steps;
  - `Run` applies any sequence of calls, and `RunInvariants` states what holds across all of them.

Three things are parameters of the model:

- **Address derivation** is `derive`, a parameter mapping seeds and a bump to an address. Nothing is
  assumed about it, except in `BumpMismatchBlocksPayout`, which assumes different bumps give
  different addresses.
- **The clock** is the `now` argument of each instruction.
- **The bumps** that the runtime finds for `create_oracle` are arguments too.

## Where the code departs from US market hours (the model follows the code)

- **Weekday.** The comments give the US market hours, 9:30 to 16:00 EST, and the US market trades
  Monday to Friday. The code computes `(t / 86400 + 4) % 7`. That numbers Sunday 0 through
  Saturday 6, and the market is closed when the number is 5 or more. So the coded market is closed on
  Friday and Saturday (UTC) and open on Sunday, not Monday to Friday. The model keeps the coded
  behaviour: `IsTradingDayAsCoded` is Sunday to Thursday. This is shown by
  `ClosedOnFridayAndSaturday`, `OpenOnSundaySession` and `FridayClosedSundayOpen`.
- **Before the epoch.** Rust's `%` truncates toward zero. Before 1970 the seconds since midnight are
  therefore zero or negative, so both predicates are false for every negative timestamp
  (`NothingBeforeEpoch`).
- **Vault signing bump.** The vault's address is checked with the record's `vault_bump`
  (`programs/nft-market-hours/src/lib.rs:170`). The transfer is signed with seeds that carry the
  record's `bump` (`programs/nft-market-hours/src/lib.rs:72-76`). The model keeps both.
  `BumpMismatchBlocksPayout` shows the consequence: if different bumps derive different addresses
  and the two bumps differ, then every crank whose payout is due fails as a whole. That crank
  updates nothing and pays nothing.
- **No limit on payouts within a window.** A crank pays whenever it falls inside a payout window
  and the vault holds more than the reward (`programs/nft-market-hours/src/lib.rs:78-96`). Nothing
  records an earlier payout. So repeated cranks inside one 15-minute window can drain the vault, one
  reward each. `CrankTwiceSameInstant` shows that the second crank at the same instant pays again.
  `RepeatedCranksInOneWindow` shows that n cranks at one instant pay exactly n rewards when the
  vault holds more than n rewards. The only bound is the one in `RunInvariants`: at most one reward
  per crank made inside a window.
- **Payout on closed days.** The payout window has no weekday test. For example, a Saturday at
  14:35 UTC pays (`PayoutWindowOnClosedDay`).

## Model

| member | source | states |
|---|---|---|
| MarketClock.RustDiv | programs/nft-market-hours/src/lib.rs:179 | Rust's `/`: the quotient's magnitude is the floor of the operands' magnitudes, and its sign is the product of their signs (truncation toward zero) |
| MarketClock.RustRem | programs/nft-market-hours/src/lib.rs:178 | Rust's `%`: the remainder is smaller in magnitude than the divisor and has the sign of the dividend |
| MarketClock.RustDivRem | programs/nft-market-hours/src/lib.rs:178-179 | truncating `/` and `%` satisfy `a == b * (a / b) + a % b` for every non-zero divisor |
| MarketClock.RustDivRemOfNonNegative | programs/nft-market-hours/src/lib.rs:178-179 | on a non-negative timestamp the truncating `/` and `%` agree with floor division |
| MarketClock.SecondsSinceMidnight | programs/nft-market-hours/src/lib.rs:178 | `t % 86400` is the true time of day for `t >= 0`, and lies in (-86400, 0] before the epoch |
| MarketClock.WeekdayNumber | programs/nft-market-hours/src/lib.rs:179 | the weekday number lies in [-6, 6] |
| MarketClock.WeekdayNumberIsCalendarDay | programs/nft-market-hours/src/lib.rs:179 | for `t >= 0` the weekday number is in [0, 7) and names the UTC calendar day, 0 being Sunday |
| MarketClock.NothingBeforeEpoch | programs/nft-market-hours/src/lib.rs:177-196 | for every negative timestamp both predicates are false |
| MarketClock.IsUsMarketOpen | programs/nft-market-hours/src/lib.rs:177-186 | open iff `t >= 0`, the UTC day is Sunday to Thursday, and the time of day is in [14:30, 21:00), end excluded |
| MarketClock.IsWithin15MinutesOfMarketOpenOrClose | programs/nft-market-hours/src/lib.rs:189-196 | in the window iff `t >= 0` and the time of day is in [14:30, 14:45) or [21:00, 21:15), whatever the weekday |
| MarketClock.ClosedOnFridayAndSaturday | programs/nft-market-hours/src/lib.rs:179-183 | for `t >= 0`, when `(t / 86400) % 7` is 1 or 2, the day is Friday or Saturday and the market is closed |
| MarketClock.OpenOnSundaySession | programs/nft-market-hours/src/lib.rs:179-185 | for `t >= 0`, when `(t / 86400) % 7` is 3, the day is Sunday, and the market is open during the session |
| MarketClock.PayoutWindowsAgainstSession | programs/nft-market-hours/src/lib.rs:185-196 | the opening window is open exactly on Sunday to Thursday; the closing window is never open |
| MarketClock.OnDayAtSecond | programs/nft-market-hours/src/lib.rs:177-196 | at second `s` of epoch day `d`: open iff day `d` is Sunday to Thursday and `s` is in the session; in the window iff `s` is in one of the two windows |
| MarketClock.PayoutWindowIsDaily | programs/nft-market-hours/src/lib.rs:189-196 | for `t >= 0`, adding whole days does not change whether `t` is in the payout window (before the epoch it can: -33900 is outside, 52500 inside) |
| MarketClock.MarketOpenIsWeekly | programs/nft-market-hours/src/lib.rs:177-186 | for `t >= 0`, adding whole weeks does not change whether the market is open |
| MarketClock.MondayAfterOpen | programs/nft-market-hours/src/lib.rs:177-196 | Monday 2024-01-01 14:35 UTC is open and in the payout window |
| MarketClock.SaturdayAfternoon | programs/nft-market-hours/src/lib.rs:177-196 | Saturday 2024-01-06 15:00 UTC is closed and outside both windows |
| MarketClock.WednesdayMidSession | programs/nft-market-hours/src/lib.rs:177-196 | Wednesday 2024-01-03 18:00 UTC is open and outside both windows |
| MarketClock.FridayClosedSundayOpen | programs/nft-market-hours/src/lib.rs:179-185 | Friday 2024-01-05 15:00 UTC is closed; Sunday 2024-01-07 15:00 UTC is open |
| MarketClock.PayoutWindowOnClosedDay | programs/nft-market-hours/src/lib.rs:189-196 | Saturday 14:35 UTC is closed yet in the payout window |
| MarketClock.SessionEndExcluded | programs/nft-market-hours/src/lib.rs:185 | on a Monday, 20:59:59 UTC is open and 21:00:00 UTC is closed |
| NftMarketHours.ValidationAt | programs/nft-market-hours/src/lib.rs:23-38 | transfer is Approved iff the market is open and Rejected otherwise; create, update and burn are Pass |
| NftMarketHours.TransferApprovedInSession | programs/nft-market-hours/src/lib.rs:19-38 | transfer is Approved exactly on Sunday to Thursday in [14:30, 21:00) UTC, after the epoch |
| NftMarketHours.CrankAccountsValid | programs/nft-market-hours/src/lib.rs:161-171 | the crank's account constraints: the record exists, its address derives from "oracle" with the stored `bump`, and the vault's from "reward_vault" and the record's address with the stored `vault_bump`; `CrankStep` fails exactly when these fail, or when a due payout cannot be signed |
| NftMarketHours.PayoutDue | programs/nft-market-hours/src/lib.rs:78-79 | the payout gate: inside a payout window and strictly more than the reward in the vault; `CrankStep` moves lamports exactly when it holds and the call succeeds |
| NftMarketHours.VaultSigns | programs/nft-market-hours/src/lib.rs:72-95 | the vault signs the transfer when "reward_vault", the record's address and the record's `bump` derive the vault's address; a due payout without it fails the whole crank |
| NftMarketHours.CreateStep | programs/nft-market-hours/src/lib.rs:14-45 | succeeds iff no record exists and both addresses derive from their seeds and the bumps found. A failure changes nothing. A success writes the record whole: the validation at `now` and the two bumps. Balances do not change |
| NftMarketHours.CrankStep | programs/nft-market-hours/src/lib.rs:48-99 | succeeds iff the record exists, both addresses check against the stored bumps, and, when the payout is due, the signer seeds derive the vault. A failure changes nothing. A success replaces the whole validation and keeps both bumps. A due payout moves exactly the reward from the vault to the caller; otherwise no balance changes. The lamport total is conserved, and a paying vault keeps more than zero |
| NftMarketHours.CrankTwiceSameInstant | programs/nft-market-hours/src/lib.rs:48-96 | a second crank at the same instant succeeds and stores the same validation with the same bumps; it pays again only if the vault still holds more than the reward |
| NftMarketHours.PayoutGateIsStrict | programs/nft-market-hours/src/lib.rs:78-80 | a vault holding exactly the reward pays nothing; one holding the reward plus one pays the reward inside a window, leaving 1 lamport (the runtime's rent rule is not modelled) |
| NftMarketHours.BumpMismatchBlocksPayout | programs/nft-market-hours/src/lib.rs:70-96 | with injective derivation and `bump != vault_bump`, a crank whose payout is due fails with a missing signature and changes nothing |
| NftMarketHours.CreateThenCrank | programs/nft-market-hours/src/lib.rs:139-171 | after a successful creation the crank's account constraints hold; a crank with no payout due succeeds and stores the validation for its own time |
| NftMarketHours.MondayOpeningCrank | programs/nft-market-hours/src/lib.rs:48-96 | Monday 14:35 UTC with a funded vault: transfer is Approved and the caller gains exactly the reward |
| NftMarketHours.MidDayCranks | programs/nft-market-hours/src/lib.rs:48-96 | Saturday 15:00 UTC stores Rejected, Wednesday 18:00 UTC stores Approved, and neither pays |
| NftMarketHours.RepeatedCranksInOneWindow | programs/nft-market-hours/src/lib.rs:78-96 | n cranks at one instant inside a payout window, with a vault that can sign and holds more than n rewards, pay exactly n rewards: nothing limits payouts within a window |
| NftMarketHours.RunInvariants | programs/nft-market-hours/src/lib.rs:14-99 | over any sequence of calls: a created record keeps its bumps; lamports are conserved; the caller gains a whole number of rewards, at most one per crank made inside a payout window |
| NftMarketHours.MarketHoursProgram.CreateOracle | programs/nft-market-hours/src/lib.rs:14-45 | the outcome and the new fields are exactly `CreateStep` of the old fields |
| NftMarketHours.MarketHoursProgram.CrankOracle | programs/nft-market-hours/src/lib.rs:48-99 | the outcome and the new fields are exactly `CrankStep` of the old fields. When the vault cannot sign, the stored validation is restored, as the runtime discards the transaction |

## Left out

- `client/client.ts` is not part of this model. It is a network client with no logic of its own.
- Logging (`msg!`) is left out: it has no effect on state.
- Reading the clock (`Clock::get()`) becomes the `now` argument. A clock that cannot be read fails the call before anything changes, so it is identical to the call never being made.
- Real address hashing and the bump search are left out. `derive` is an arbitrary function, and the bumps that `create_oracle` receives are arguments.
- Anchor/Borsh serialisation, the account discriminator, account ownership checks and `INIT_SPACE` are left out. An existing record is the `initialized` flag.
- The system program's transfer is left out. The model keeps only the lamport move and the signer-seed check.
- The runtime's rent-state rule is left out. In the runtime, a crank may not leave the rent-exempt vault holding more than zero lamports but less than the rent-exempt minimum; such a crank fails. In the model it succeeds. For example, a crank on a vault holding the reward plus one lamport leaves 1 lamport and succeeds in the model (`PayoutGateIsStrict`); the runtime would reject it.
- The fee payer's lamports, the rent paid at creation and the signer/payer authorisation are left out. The signer's and the vault's `u64` lamport widths are not modelled: balances are unbounded naturals, so a `u64` overflow of the caller's balance is not captured.
- Aliasing of the vault and the caller is left out: the model treats them as two accounts.
- Concurrency and transaction atomicity are left out. The runtime serialises calls and discards a failed one, so each call is one atomic step.
- Daylight saving time is not handled by the program, and the model keeps the fixed UTC offsets.
