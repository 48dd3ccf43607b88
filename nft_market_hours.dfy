/**
 The oracle record of the nft-market-hours program and its two instructions,
 `create_oracle` and `crank_oracle`.

 Each instruction is specified by a pure step function on the accounts it
 touches (CreateStep, CrankStep), which returns the outcome and the state after
 the call; a failed call leaves every account as it was, because the runtime
 discards a failed transaction. The class MarketHoursProgram holds the same
 accounts as mutable fields, and its methods are proved to perform exactly
 those steps.

 Program-derived addressing is a parameter `derive`, the address computed
 from a list of seeds and a bump; nothing is assumed of it unless a lemma says
 so.
 */
module NftMarketHours {
  import opened MarketClock

  /** Rust's `u8`, the type of a bump. */
  type U8 = x: int | 0 <= x < 256

  /** A 32-byte account address. */
  type Pubkey = s: seq<bv8> | |s| == 32 witness seq(32, _ => 0 as bv8)

  datatype Seed = Label(name: string) | Key(key: Pubkey)

  /** Address derivation from seeds and a bump. */
  type Derivation = (seq<Seed>, U8) -> Pubkey

  /** 0.001 SOL. */
  const REWARD_IN_LAMPORTS: nat := 10_000_000

  function OracleSeeds(): seq<Seed> { [Label("oracle")] }

  function VaultSeeds(oracle: Pubkey): seq<Seed> { [Label("reward_vault"), Key(oracle)] }

  datatype ExternalValidationResult = Approved | Rejected | Pass

  /** The versioned validation result; V1 is the only version. */
  datatype OracleValidation = V1(
    transfer: ExternalValidationResult,
    create: ExternalValidationResult,
    update: ExternalValidationResult,
    burn: ExternalValidationResult)

  /** Why an instruction fails: a seeds constraint, `init` on an account in
      use, an oracle account that holds no record, or a transfer the vault
      did not sign. */
  datatype Error =
    | ConstraintSeeds
    | AccountAlreadyInUse
    | AccountNotInitialized
    | MissingRequiredSignature

  datatype Outcome = Success | Failure(error: Error)

  /** What the two instructions read and write: whether the oracle record
      exists, its fields (meaningless while it does not), the reward vault's
      lamports and the crank caller's lamports. */
  datatype Ledger = Ledger(
    initialized: bool,
    validation: OracleValidation,
    bump: U8,
    vaultBump: U8,
    vaultLamports: nat,
    signerLamports: nat)

  /** The validation both instructions store at time `now`. */
  function ValidationAt(now: I64): (v: OracleValidation)
    ensures v.transfer == Approved <==> IsUsMarketOpen(now)
    ensures v.transfer == Rejected <==> !IsUsMarketOpen(now)
    ensures v.create == Pass && v.update == Pass && v.burn == Pass
  {
    if IsUsMarketOpen(now) then V1(Approved, Pass, Pass, Pass)
    else V1(Rejected, Pass, Pass, Pass)
  }

  /** Transfers are approved exactly on Sunday to Thursday inside
      [14:30, 21:00) UTC, after the epoch. */
  lemma TransferApprovedInSession(now: I64)
    ensures ValidationAt(now).transfer == Approved <==>
      now >= 0 && IsTradingDayAsCoded(DayOfWeekAt(now)) && InSession(TimeOfDay(now))
  {
  }

  // ------------------------------------------------------------------
  // create_oracle
  // ------------------------------------------------------------------

  /** `create_oracle` with the accounts `oracleKey` and `vaultKey` and the bumps
      the runtime found for them: the seeds of the record, then `init` (the
      record must not exist), then the seeds of the vault; on success the
      record is written whole. */
  function CreateStep(s: Ledger, derive: Derivation, oracleKey: Pubkey, vaultKey: Pubkey,
                      oracleBump: U8, vaultBump: U8, now: I64): (r: (Outcome, Ledger))
    ensures r.0 == Success <==>
      !s.initialized
      && oracleKey == derive(OracleSeeds(), oracleBump)
      && vaultKey == derive(VaultSeeds(oracleKey), vaultBump)
    ensures s.initialized ==> r.0 != Success
    ensures r.0.Failure? ==> r.1 == s
    ensures r.0 == Success ==>
      r.1.initialized
      && r.1.validation == ValidationAt(now)
      && r.1.bump == oracleBump && r.1.vaultBump == vaultBump
      && r.1.vaultLamports == s.vaultLamports && r.1.signerLamports == s.signerLamports
  {
    if oracleKey != derive(OracleSeeds(), oracleBump) then (Failure(ConstraintSeeds), s)
    else if s.initialized then (Failure(AccountAlreadyInUse), s)
    else if vaultKey != derive(VaultSeeds(oracleKey), vaultBump) then (Failure(ConstraintSeeds), s)
    else (Success, s.(initialized := true, validation := ValidationAt(now),
                      bump := oracleBump, vaultBump := vaultBump))
  }

  // ------------------------------------------------------------------
  // crank_oracle
  // ------------------------------------------------------------------

  /** The account constraints of `CrankOracle`: the record exists, its address
      derives from "oracle" with its `bump`, and the vault's from
      "reward_vault" and the record's address with its `vault_bump`. */
  predicate CrankAccountsValid(s: Ledger, derive: Derivation, oracleKey: Pubkey, vaultKey: Pubkey)
  {
    s.initialized
    && oracleKey == derive(OracleSeeds(), s.bump)
    && vaultKey == derive(VaultSeeds(oracleKey), s.vaultBump)
  }

  /** The payout gate: inside a payout window and strictly more than the
      reward in the vault. */
  predicate PayoutDue(s: Ledger, now: I64)
  {
    IsWithin15MinutesOfMarketOpenOrClose(now) && s.vaultLamports > REWARD_IN_LAMPORTS
  }

  /** The vault signs the transfer when the signer seeds, which carry the
      record's `bump` (not its `vault_bump`), derive the vault's address. */
  predicate VaultSigns(s: Ledger, derive: Derivation, oracleKey: Pubkey, vaultKey: Pubkey)
  {
    derive(VaultSeeds(oracleKey), s.bump) == vaultKey
  }

  /** `crank_oracle` at time `now`: after the account constraints, the whole
      validation is replaced; when the payout is due the vault pays the caller
      exactly the reward, and if the vault cannot sign the whole call fails. */
  function CrankStep(s: Ledger, derive: Derivation, oracleKey: Pubkey, vaultKey: Pubkey,
                     now: I64): (r: (Outcome, Ledger))
    ensures r.0 == Success <==>
      CrankAccountsValid(s, derive, oracleKey, vaultKey)
      && (PayoutDue(s, now) ==> VaultSigns(s, derive, oracleKey, vaultKey))
    ensures r.0.Failure? ==> r.1 == s
    ensures r.0 == Success ==>
      r.1.initialized
      && r.1.validation == ValidationAt(now)
      && r.1.bump == s.bump && r.1.vaultBump == s.vaultBump
    ensures r.0 == Success && PayoutDue(s, now) ==>
      r.1.vaultLamports == s.vaultLamports - REWARD_IN_LAMPORTS
      && r.1.signerLamports == s.signerLamports + REWARD_IN_LAMPORTS
    ensures !PayoutDue(s, now) ==>
      r.1.vaultLamports == s.vaultLamports && r.1.signerLamports == s.signerLamports
    ensures r.1.vaultLamports + r.1.signerLamports == s.vaultLamports + s.signerLamports
    ensures r.1.vaultLamports < s.vaultLamports ==> r.1.vaultLamports > 0
  {
    if !s.initialized then (Failure(AccountNotInitialized), s)
    else if oracleKey != derive(OracleSeeds(), s.bump) then (Failure(ConstraintSeeds), s)
    else if vaultKey != derive(VaultSeeds(oracleKey), s.vaultBump) then (Failure(ConstraintSeeds), s)
    else
      var updated := s.(validation := ValidationAt(now));
      if IsWithin15MinutesOfMarketOpenOrClose(now) && s.vaultLamports > REWARD_IN_LAMPORTS then
        if derive(VaultSeeds(oracleKey), s.bump) != vaultKey then (Failure(MissingRequiredSignature), s)
        else (Success, updated.(vaultLamports := s.vaultLamports - REWARD_IN_LAMPORTS,
                                signerLamports := s.signerLamports + REWARD_IN_LAMPORTS))
      else (Success, updated)
  }

  /** Two cranks at the same instant: the second also succeeds, stores the
      same validation, and pays at most once more, only if the vault still
      holds more than the reward. */
  lemma CrankTwiceSameInstant(s: Ledger, derive: Derivation, oracleKey: Pubkey, vaultKey: Pubkey, now: I64)
    requires CrankStep(s, derive, oracleKey, vaultKey, now).0 == Success
    ensures var s1 := CrankStep(s, derive, oracleKey, vaultKey, now).1;
      var r2 := CrankStep(s1, derive, oracleKey, vaultKey, now);
      r2.0 == Success
      && r2.1.validation == s1.validation
      && r2.1.bump == s.bump && r2.1.vaultBump == s.vaultBump
      && (PayoutDue(s1, now) <==> PayoutDue(s, now) && s.vaultLamports > 2 * REWARD_IN_LAMPORTS)
  {
    var s1 := CrankStep(s, derive, oracleKey, vaultKey, now).1;
    assert CrankAccountsValid(s1, derive, oracleKey, vaultKey);
    assert VaultSigns(s1, derive, oracleKey, vaultKey) == VaultSigns(s, derive, oracleKey, vaultKey);
    if !PayoutDue(s, now) {
      assert s1.vaultLamports == s.vaultLamports;
    }
  }

  /** The gate is strict: a vault holding exactly the reward pays nothing, one
      holding one lamport more pays the reward inside a payout window. */
  lemma PayoutGateIsStrict(s: Ledger, derive: Derivation, oracleKey: Pubkey, vaultKey: Pubkey, now: I64)
    requires CrankAccountsValid(s, derive, oracleKey, vaultKey)
    requires VaultSigns(s, derive, oracleKey, vaultKey)
    ensures s.vaultLamports == REWARD_IN_LAMPORTS ==>
      var r := CrankStep(s, derive, oracleKey, vaultKey, now);
      r.0 == Success && r.1.vaultLamports == s.vaultLamports && r.1.signerLamports == s.signerLamports
    ensures s.vaultLamports == REWARD_IN_LAMPORTS + 1 && IsWithin15MinutesOfMarketOpenOrClose(now) ==>
      var r := CrankStep(s, derive, oracleKey, vaultKey, now);
      r.0 == Success && r.1.vaultLamports == 1
      && r.1.signerLamports == s.signerLamports + REWARD_IN_LAMPORTS
  {
  }

  /** The signer seeds use `bump` while the vault is checked against
      `vault_bump`: when different bumps give different addresses and the two
      bumps differ, every crank whose payout is due fails, so the vault never
      pays. */
  lemma BumpMismatchBlocksPayout(s: Ledger, derive: Derivation, oracleKey: Pubkey, vaultKey: Pubkey, now: I64)
    requires forall b1: U8, b2: U8 :: derive(VaultSeeds(oracleKey), b1) == derive(VaultSeeds(oracleKey), b2) ==> b1 == b2
    requires s.bump != s.vaultBump
    requires CrankAccountsValid(s, derive, oracleKey, vaultKey)
    requires PayoutDue(s, now)
    ensures CrankStep(s, derive, oracleKey, vaultKey, now) == (Failure(MissingRequiredSignature), s)
  {
    assert derive(VaultSeeds(oracleKey), s.vaultBump) == vaultKey;
    assert derive(VaultSeeds(oracleKey), s.bump) != vaultKey;
  }

  /** A cranking call right after creation passes the account constraints
      with the bumps the creation stored, and reports the market at the
      crank's own time. */
  lemma CreateThenCrank(s: Ledger, derive: Derivation, oracleKey: Pubkey, vaultKey: Pubkey,
                        oracleBump: U8, vaultBump: U8, created: I64, now: I64)
    requires CreateStep(s, derive, oracleKey, vaultKey, oracleBump, vaultBump, created).0 == Success
    ensures var s1 := CreateStep(s, derive, oracleKey, vaultKey, oracleBump, vaultBump, created).1;
      CrankAccountsValid(s1, derive, oracleKey, vaultKey)
      && (!PayoutDue(s1, now) ==> CrankStep(s1, derive, oracleKey, vaultKey, now).0 == Success)
      && (CrankStep(s1, derive, oracleKey, vaultKey, now).0 == Success ==>
            CrankStep(s1, derive, oracleKey, vaultKey, now).1.validation == ValidationAt(now))
  {
  }

  /** Monday 2024-01-01 14:35 UTC with a funded vault: the crank approves
      transfers and pays the caller exactly the reward. */
  lemma MondayOpeningCrank(s: Ledger, derive: Derivation, oracleKey: Pubkey, vaultKey: Pubkey)
    requires CrankAccountsValid(s, derive, oracleKey, vaultKey)
    requires VaultSigns(s, derive, oracleKey, vaultKey)
    requires s.vaultLamports > REWARD_IN_LAMPORTS
    ensures var r := CrankStep(s, derive, oracleKey, vaultKey, 1704119700);
      r.0 == Success && r.1.validation.transfer == Approved
      && r.1.signerLamports == s.signerLamports + REWARD_IN_LAMPORTS
  {
    MondayAfterOpen();
  }

  /** Saturday 15:00 and Wednesday 18:00 UTC: transfers rejected on the one,
      approved on the other, and no payout on either whatever the vault holds. */
  lemma MidDayCranks(s: Ledger, derive: Derivation, oracleKey: Pubkey, vaultKey: Pubkey)
    requires CrankAccountsValid(s, derive, oracleKey, vaultKey)
    ensures var r := CrankStep(s, derive, oracleKey, vaultKey, 1704553200);
      r.0 == Success && r.1.validation.transfer == Rejected
      && r.1.vaultLamports == s.vaultLamports && r.1.signerLamports == s.signerLamports
    ensures var r := CrankStep(s, derive, oracleKey, vaultKey, 1704304800);
      r.0 == Success && r.1.validation.transfer == Approved
      && r.1.vaultLamports == s.vaultLamports && r.1.signerLamports == s.signerLamports
  {
    SaturdayAfternoon();
    WednesdayMidSession();
  }

  // ------------------------------------------------------------------
  // Any sequence of calls
  // ------------------------------------------------------------------

  datatype Call = CreateCall(oracleBump: U8, vaultBump: U8, at: I64) | CrankCall(now: I64)

  function Apply(s: Ledger, derive: Derivation, oracleKey: Pubkey, vaultKey: Pubkey, c: Call): Ledger
  {
    match c
    case CreateCall(ob, vb, at) => CreateStep(s, derive, oracleKey, vaultKey, ob, vb, at).1
    case CrankCall(now) => CrankStep(s, derive, oracleKey, vaultKey, now).1
  }

  /** The state after the calls, in order; each call is one atomic step. */
  function Run(s: Ledger, derive: Derivation, oracleKey: Pubkey, vaultKey: Pubkey, calls: seq<Call>): Ledger
    decreases |calls|
  {
    if calls == [] then s
    else Run(Apply(s, derive, oracleKey, vaultKey, calls[0]), derive, oracleKey, vaultKey, calls[1..])
  }

  /** The cranks among `calls` made inside a payout window. */
  function WindowCranks(calls: seq<Call>): nat
    decreases |calls|
  {
    if calls == [] then 0
    else (if calls[0].CrankCall? && IsWithin15MinutesOfMarketOpenOrClose(calls[0].now) then 1 else 0)
         + WindowCranks(calls[1..])
  }

  /** Over any sequence of calls: a created record stays created with the
      bumps fixed at creation; lamports only move between the vault and the
      caller; the caller gains whole rewards, at most one per crank made
      inside a payout window. */
  lemma {:induction false} RunInvariants(s: Ledger, derive: Derivation, oracleKey: Pubkey, vaultKey: Pubkey,
                                         calls: seq<Call>)
    ensures var e := Run(s, derive, oracleKey, vaultKey, calls);
      (s.initialized ==> e.initialized && e.bump == s.bump && e.vaultBump == s.vaultBump)
      && e.vaultLamports + e.signerLamports == s.vaultLamports + s.signerLamports
      && e.signerLamports >= s.signerLamports
      && (e.signerLamports - s.signerLamports) % REWARD_IN_LAMPORTS == 0
      && e.signerLamports - s.signerLamports <= REWARD_IN_LAMPORTS * WindowCranks(calls)
    decreases |calls|
  {
    if calls != [] {
      var s1 := Apply(s, derive, oracleKey, vaultKey, calls[0]);
      RunInvariants(s1, derive, oracleKey, vaultKey, calls[1..]);
      var e := Run(s1, derive, oracleKey, vaultKey, calls[1..]);
      assert e == Run(s, derive, oracleKey, vaultKey, calls);
      var gain := s1.signerLamports - s.signerLamports;
      assert gain == 0 || gain == REWARD_IN_LAMPORTS;
      assert gain == REWARD_IN_LAMPORTS ==>
        calls[0].CrankCall? && IsWithin15MinutesOfMarketOpenOrClose(calls[0].now);
      assert WindowCranks(calls) == WindowCranks([calls[0]]) + WindowCranks(calls[1..]);
      assert e.signerLamports - s.signerLamports == gain + (e.signerLamports - s1.signerLamports);
    }
  }

  /** Nothing limits the payouts inside one window: n cranks at the same
      instant inside a payout window, with more than n rewards in a vault that
      can sign, each pay the reward, n rewards in all. */
  lemma {:induction false} RepeatedCranksInOneWindow(s: Ledger, derive: Derivation, oracleKey: Pubkey,
                                                     vaultKey: Pubkey, now: I64, n: nat)
    requires CrankAccountsValid(s, derive, oracleKey, vaultKey)
    requires VaultSigns(s, derive, oracleKey, vaultKey)
    requires IsWithin15MinutesOfMarketOpenOrClose(now)
    requires s.vaultLamports > n * REWARD_IN_LAMPORTS
    ensures var e := Run(s, derive, oracleKey, vaultKey, seq(n, _ => CrankCall(now)));
      e.vaultLamports == s.vaultLamports - n * REWARD_IN_LAMPORTS
      && e.signerLamports == s.signerLamports + n * REWARD_IN_LAMPORTS
    decreases n
  {
    var calls := seq(n, _ => CrankCall(now));
    if n > 0 {
      var s1 := Apply(s, derive, oracleKey, vaultKey, calls[0]);
      assert s1 == CrankStep(s, derive, oracleKey, vaultKey, now).1;
      assert calls[1..] == seq(n - 1, _ => CrankCall(now));
      RepeatedCranksInOneWindow(s1, derive, oracleKey, vaultKey, now, n - 1);
    }
  }

  // ------------------------------------------------------------------
  // The accounts as mutable state
  // ------------------------------------------------------------------

  /** The oracle record, its reward vault and the crank caller, at the fixed
      addresses `oracleKey` and `vaultKey`. */
  class MarketHoursProgram {
    const derive: Derivation
    const oracleKey: Pubkey
    const vaultKey: Pubkey
    var initialized: bool
    var validation: OracleValidation
    var bump: U8
    var vaultBump: U8
    var vaultBalance: nat
    var signerBalance: nat

    function State(): Ledger
      reads this
    {
      Ledger(initialized, validation, bump, vaultBump, vaultBalance, signerBalance)
    }

    /** No record yet; the vault is pre-funded with `vaultBalance`. */
    constructor (derive: Derivation, oracleKey: Pubkey, vaultKey: Pubkey, vaultBalance: nat, signerBalance: nat)
      ensures this.derive == derive && this.oracleKey == oracleKey && this.vaultKey == vaultKey
      ensures !initialized
      ensures this.vaultBalance == vaultBalance && this.signerBalance == signerBalance
    {
      this.derive, this.oracleKey, this.vaultKey := derive, oracleKey, vaultKey;
      initialized := false;
      validation := V1(Rejected, Pass, Pass, Pass);
      bump, vaultBump := 0, 0;
      this.vaultBalance, this.signerBalance := vaultBalance, signerBalance;
    }

    /** `create_oracle` at time `now`, with the bumps found for the two
      addresses. */
    method CreateOracle(oracleBump: U8, vaultBump: U8, now: I64) returns (outcome: Outcome)
      modifies this
      ensures (outcome, State()) == CreateStep(old(State()), derive, oracleKey, vaultKey, oracleBump, vaultBump, now)
    {
      if oracleKey != derive(OracleSeeds(), oracleBump) {
        return Failure(ConstraintSeeds);
      }
      if initialized {
        return Failure(AccountAlreadyInUse);
      }
      if vaultKey != derive(VaultSeeds(oracleKey), vaultBump) {
        return Failure(ConstraintSeeds);
      }
      var isMarketOpen := IsUsMarketOpen(now);
      validation := if isMarketOpen then V1(Approved, Pass, Pass, Pass)
                    else V1(Rejected, Pass, Pass, Pass);
      bump := oracleBump;
      this.vaultBump := vaultBump;
      initialized := true;
      outcome := Success;
    }

    /** `crank_oracle` at time `now`. */
    method CrankOracle(now: I64) returns (outcome: Outcome)
      modifies this
      ensures (outcome, State()) == CrankStep(old(State()), derive, oracleKey, vaultKey, now)
    {
      if !initialized {
        return Failure(AccountNotInitialized);
      }
      if oracleKey != derive(OracleSeeds(), bump) || vaultKey != derive(VaultSeeds(oracleKey), vaultBump) {
        return Failure(ConstraintSeeds);
      }
      var isMarketOpen := IsUsMarketOpen(now);
      var previous := validation;
      if isMarketOpen {
        validation := V1(Approved, Pass, Pass, Pass);
      } else {
        validation := V1(Rejected, Pass, Pass, Pass);
      }
      var rewardVaultLamports := vaultBalance;
      if IsWithin15MinutesOfMarketOpenOrClose(now) && rewardVaultLamports > REWARD_IN_LAMPORTS {
        if derive(VaultSeeds(oracleKey), bump) != vaultKey {
          // the transaction is discarded, and the validation with it
          validation := previous;
          return Failure(MissingRequiredSignature);
        }
        vaultBalance := vaultBalance - REWARD_IN_LAMPORTS;
        signerBalance := signerBalance + REWARD_IN_LAMPORTS;
      }
      outcome := Success;
    }
  }
}
