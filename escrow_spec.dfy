/** The escrow program stated on values: the escrow record, the account checks
    each instruction runs before its body, the ledger effect of each body as a
    composition of token instructions, and what those effects do to the backing
    invariant "the record's vault holds exactly the sum of its unpaid milestones". */
module EscrowSpec {
  import opened Chain
  import opened Token

  /** The address that owns every vault after `initialize`: the program address
      derived from the fixed seed "authority". Only the program can sign for it. */
  const AUTHORITY: Pubkey := AuthorityPda

  /** The five milestone amounts (`[u64; 5]`). A zero slot is paid or was never funded. */
  type Milestones = s: seq<U64> | |s| == 5 witness [0, 0, 0, 0, 0]

  /** The data of an escrow record (`EscrowState`). */
  datatype EscrowRecord = EscrowRecord(
    randomSeed: U64,
    initializerKey: Pubkey,
    initializerDepositTokenAccount: Pubkey,
    initializerAmount: Milestones)

  /** Why an instruction aborts. The account checks of the program report every
      failed `constraint` alike; they are told apart here by the check that failed. */
  datatype Error =
    | NotInitialized          // a record or token account the instruction reads does not exist
    | AlreadyInUse            // an account the instruction creates already exists
    | SeedsMismatch           // an account is not at the address its seeds derive
    | InsufficientDeposit     // the deposit account holds less than the five amounts
    | InitializerMismatch     // the signer is not the stored initializer
    | DepositMismatch         // the deposit account is not the stored one
    | EmptyMilestone          // the milestone slot is zero
    | IndexOutOfRange         // the milestone index is 5 or more
    | ArithmeticOverflow      // the sum of the five amounts exceeds u64
    | TokenFailure(cause: TokenError)
    // Errors of the corrected checks only (see ApproveChecked, CancelChecked):
    | VaultMismatch           // the vault is not the one derived from the record's seed
    | AuthorityMismatch       // the signing authority is not the program's vault authority
    | ReceiverIsProgramHeld   // the receiving account belongs to the vault authority

  function Sum(s: seq<U64>): nat
  {
    if s == [] then 0 else s[0] + Sum(s[1..])
  }

  /** The sum is the five-term sum the program writes out. */
  lemma SumFive(s: Milestones)
    ensures Sum(s) == s[0] as nat + s[1] + s[2] + s[3] + s[4]
  {
    assert Sum(s[4..]) == s[4] by { assert s[4..][1..] == []; }
    assert Sum(s[3..]) == s[3] as nat + s[4] by { assert s[3..][1..] == s[4..]; }
    assert Sum(s[2..]) == s[2] as nat + s[3] + s[4] by { assert s[2..][1..] == s[3..]; }
    assert Sum(s[1..]) == s[1] as nat + s[2] + s[3] + s[4] by { assert s[1..][1..] == s[2..]; }
  }

  /** Zeroing one slot lowers the sum by exactly that slot's amount. */
  lemma {:induction false} SumZeroSlot(s: seq<U64>, i: nat)
    requires i < |s|
    ensures s[i] <= Sum(s)
    ensures Sum(s[i := 0]) + s[i] == Sum(s)
  {
    if i == 0 {
      assert s[i := 0][1..] == s[1..];
    } else {
      SumZeroSlot(s[1..], i - 1);
      assert s[i := 0][1..] == s[1..][i - 1 := 0];
    }
  }

  /** The vault of the record with seed `seed`. */
  function VaultOf(rec: EscrowRecord): Pubkey
  {
    VaultPda(rec.randomSeed)
  }

  /** The conservation invariant of one record: its vault exists, is held by the
      program authority, and holds exactly the sum of the unpaid milestones; the
      deposit account is not a vault. */
  ghost predicate Backed(a: Accounts, rec: EscrowRecord)
  {
    VaultOf(rec) in a &&
    a[VaultOf(rec)].owner == AUTHORITY &&
    a[VaultOf(rec)].amount == Sum(rec.initializerAmount) &&
    !rec.initializerDepositTokenAccount.VaultPda?
  }

  /** Every vault that exists is held by the program authority. No instruction of
      the program hands a vault to anyone else. */
  ghost predicate VaultsHeld(a: Accounts)
  {
    forall k :: k in a && k.VaultPda? ==> a[k].owner == AUTHORITY
  }

  // ---------------------------------------------------------------- initialize

  /** The account checks of `initialize`, in the order the accounts are declared:
      the vault is created at ["vault", seed], the deposit account must hold at
      least the five amounts (their sum overflowing u64 aborts), and the record is
      created at ["state", seed]. */
  function InitializeCheck(a: Accounts, address: Pubkey, inUse: bool, vault: Pubkey, deposit: Pubkey,
                           seed: U64, amounts: Milestones): (r: Outcome<Error>)
    ensures r.Pass? <==>
      vault == VaultPda(seed) && vault !in a && deposit in a && Sum(amounts) <= a[deposit].amount &&
      address == StatePda(seed) && !inUse
  {
    if vault != VaultPda(seed) then Fail(SeedsMismatch)
    else if vault in a then Fail(AlreadyInUse)
    else if deposit !in a then Fail(NotInitialized)
    else if Sum(amounts) > U64_MAX then Fail(ArithmeticOverflow)
    else if a[deposit].amount < Sum(amounts) then Fail(InsufficientDeposit)
    else if address != StatePda(seed) then Fail(SeedsMismatch)
    else if inUse then Fail(AlreadyInUse)
    else Pass
  }

  /** The token instructions of `initialize`: create the vault owned by the
      initializer, hand it to the program authority, move `amount` into it. */
  function InitializeLedger(a: Accounts, vault: Pubkey, mint: Pubkey, initializer: Pubkey,
                            deposit: Pubkey, amount: U64): Result<Accounts, TokenError>
  {
    match ApplyInitialize(a, vault, mint, initializer)
    case Err(e) => Err(e)
    case Ok(a1) =>
      match ApplySetAuthority(a1, vault, initializer, AUTHORITY)
      case Err(e) => Err(e)
      case Ok(a2) => ApplyTransfer(a2, deposit, vault, amount, initializer)
  }

  /** Once the checks pass, `initialize` succeeds exactly when the initializer owns
      the deposit account and it is of the vault's mint; it then debits the sum of
      the five amounts from the deposit account and credits it to a new vault held
      by the program authority. */
  lemma InitializeFunds(a: Accounts, initializer: Pubkey, mint: Pubkey, vault: Pubkey, deposit: Pubkey, amount: U64)
    requires vault !in a && deposit in a && amount <= a[deposit].amount
    ensures
      var r := InitializeLedger(a, vault, mint, initializer, deposit, amount);
      (r.Ok? <==> a[deposit].owner == initializer && a[deposit].mint == mint) &&
      (r.Ok? ==>
        r.value == a[deposit := a[deposit].(amount := a[deposit].amount - amount)]
                    [vault := TokenAccount(mint, AUTHORITY, amount)])
  {
  }

  /** The first two instructions of `initialize` cannot fail once the vault address
      is unused: they leave an empty vault held by the program authority, so that
      `initialize`'s token effect is the transfer into it. */
  lemma VaultCreated(a: Accounts, initializer: Pubkey, mint: Pubkey, vault: Pubkey) returns (a2: Accounts)
    requires vault !in a
    ensures a2 == a[vault := TokenAccount(mint, AUTHORITY, 0)]
    ensures forall deposit, amount :: InitializeLedger(a, vault, mint, initializer, deposit, amount) ==
                                     ApplyTransfer(a2, deposit, vault, amount, initializer)
  {
    var a1 := a[vault := TokenAccount(mint, initializer, 0)];
    assert ApplyInitialize(a, vault, mint, initializer) == Ok(a1);
    a2 := a1[vault := TokenAccount(mint, AUTHORITY, 0)];
    assert ApplySetAuthority(a1, vault, initializer, AUTHORITY) == Ok(a2);
  }

  /** `initialize`'s token instructions create and destroy no token. */
  lemma InitializeConservesTotal(a: Accounts, vault: Pubkey, mint: Pubkey, initializer: Pubkey, deposit: Pubkey, amount: U64)
    requires InitializeLedger(a, vault, mint, initializer, deposit, amount).Ok?
    ensures Total(InitializeLedger(a, vault, mint, initializer, deposit, amount).value) == Total(a)
  {
    var a1 := ApplyInitialize(a, vault, mint, initializer).value;
    var a2 := ApplySetAuthority(a1, vault, initializer, AUTHORITY).value;
    InitializeConserves(a, vault, mint, initializer);
    SetAuthorityConserves(a1, vault, initializer, AUTHORITY);
    TransferConserves(a2, deposit, vault, amount, initializer);
  }

  /** A successful `initialize` leaves the new record backed, provided every vault
      was held by the program authority before and the initializer is not that
      authority (a signer never is). */
  lemma InitializeEstablishesBacking(a: Accounts, address: Pubkey, inUse: bool, initializer: Pubkey, mint: Pubkey,
                                     vault: Pubkey, deposit: Pubkey, seed: U64, amounts: Milestones)
    requires InitializeCheck(a, address, inUse, vault, deposit, seed, amounts).Pass?
    requires VaultsHeld(a) && initializer != AUTHORITY
    requires a[deposit].owner == initializer && a[deposit].mint == mint
    ensures Sum(amounts) <= U64_MAX
    ensures
      var b := InitializeLedger(a, vault, mint, initializer, deposit, Sum(amounts)).value;
      VaultsHeld(b) && Backed(b, EscrowRecord(seed, initializer, deposit, amounts))
  {
  }

  // ---------------------------------------------------------------- approve

  /** The account checks of `approve`, in the order they are written: the deposit
      account and the record exist (`created`: a program account is at the
      record's address), the deposit account and the signer are the stored ones,
      and the indexed slot (which must exist) is not zero. */
  function ApproveCheck(a: Accounts, created: bool, rec: EscrowRecord, signer: Pubkey, deposit: Pubkey, idx: U64): (r: Outcome<Error>)
    ensures r.Pass? <==>
      deposit in a && created && deposit == rec.initializerDepositTokenAccount && signer == rec.initializerKey &&
      idx < 5 && rec.initializerAmount[idx] > 0
  {
    if deposit !in a || !created then Fail(NotInitialized)
    else if rec.initializerDepositTokenAccount != deposit then Fail(DepositMismatch)
    else if rec.initializerKey != signer then Fail(InitializerMismatch)
    else if idx >= 5 then Fail(IndexOutOfRange)
    else if rec.initializerAmount[idx] == 0 then Fail(EmptyMilestone)
    else Pass
  }

  /** Paying a slot out of the record's own vault to another account keeps the
      record backed once the slot is zeroed. */
  lemma ApprovePreservesBacking(a: Accounts, rec: EscrowRecord, idx: nat, receiver: Pubkey)
    requires Backed(a, rec) && idx < 5 && receiver != VaultOf(rec)
    requires ApplyTransfer(a, VaultOf(rec), receiver, rec.initializerAmount[idx], AUTHORITY).Ok?
    ensures Backed(ApplyTransfer(a, VaultOf(rec), receiver, rec.initializerAmount[idx], AUTHORITY).value,
                   rec.(initializerAmount := rec.initializerAmount[idx := 0]))
  {
    SumZeroSlot(rec.initializerAmount, idx);
  }

  /** A backed record pays a slot whenever the receiver is another account of the
      vault's mint with room for the amount: the vault always covers a slot. */
  lemma ApproveRuns(a: Accounts, rec: EscrowRecord, idx: nat, receiver: Pubkey)
    requires Backed(a, rec) && idx < 5
    requires receiver in a && receiver != VaultOf(rec) && a[receiver].mint == a[VaultOf(rec)].mint
    requires a[receiver].amount + rec.initializerAmount[idx] <= U64_MAX
    ensures ApplyTransfer(a, VaultOf(rec), receiver, rec.initializerAmount[idx], AUTHORITY).Ok?
  {
    SumZeroSlot(rec.initializerAmount, idx);
  }

  /** No transfer changes an owner, so every vault stays held. */
  lemma TransferKeepsVaultsHeld(a: Accounts, source: Pubkey, dest: Pubkey, amount: U64, authority: Pubkey)
    requires VaultsHeld(a) && ApplyTransfer(a, source, dest, amount, authority).Ok?
    ensures VaultsHeld(ApplyTransfer(a, source, dest, amount, authority).value)
  {
  }

  /** A transfer that touches neither end of the vault of `rec` leaves `rec` backed. */
  lemma TransferKeepsBacking(a: Accounts, rec: EscrowRecord, source: Pubkey, dest: Pubkey, amount: U64, authority: Pubkey)
    requires Backed(a, rec) && VaultOf(rec) != source && VaultOf(rec) != dest
    requires ApplyTransfer(a, source, dest, amount, authority).Ok?
    ensures Backed(ApplyTransfer(a, source, dest, amount, authority).value, rec)
  {
  }

  // ---------------------------------------------------------------- cancel

  /** The account checks of `cancel`: the record exists, the signer and the
      deposit account are the stored ones. */
  function CancelCheck(created: bool, rec: EscrowRecord, signer: Pubkey, deposit: Pubkey): (r: Outcome<Error>)
    ensures r.Pass? <==> created && signer == rec.initializerKey && deposit == rec.initializerDepositTokenAccount
  {
    if !created then Fail(NotInitialized)
    else if rec.initializerKey != signer then Fail(InitializerMismatch)
    else if rec.initializerDepositTokenAccount != deposit then Fail(DepositMismatch)
    else Pass
  }

  /** The token instructions of `cancel`: move `amount` from the vault back to the
      deposit account, then close the vault, both signed by `authority` (the
      `vault_authority` account the caller supplies). */
  function CancelLedger(a: Accounts, vault: Pubkey, deposit: Pubkey, amount: U64, authority: Pubkey): Result<Accounts, TokenError>
  {
    match ApplyTransfer(a, vault, deposit, amount, authority)
    case Err(e) => Err(e)
    case Ok(a1) => ApplyClose(a1, vault, authority)
  }

  /** Cancelling a backed record through its own vault returns every unpaid token
      to the deposit account and removes the vault; it cannot fail as long as the
      deposit account still exists, is of the vault's mint and has room. */
  lemma CancelRefunds(a: Accounts, rec: EscrowRecord)
    requires Backed(a, rec)
    requires rec.initializerDepositTokenAccount in a
    requires a[rec.initializerDepositTokenAccount].mint == a[VaultOf(rec)].mint
    requires a[rec.initializerDepositTokenAccount].amount + Sum(rec.initializerAmount) <= U64_MAX
    ensures
      var d := rec.initializerDepositTokenAccount;
      var r := CancelLedger(a, VaultOf(rec), d, Sum(rec.initializerAmount), AUTHORITY);
      r.Ok? && r.value == (a - {VaultOf(rec)})[d := a[d].(amount := a[d].amount + Sum(rec.initializerAmount))] &&
      Total(r.value) == Total(a)
  {
    var v, d := VaultOf(rec), rec.initializerDepositTokenAccount;
    var sum := a[v].amount;
    var a1 := ApplyTransfer(a, v, d, sum, AUTHORITY).value;
    TransferConserves(a, v, d, sum, AUTHORITY);
    CloseConserves(a1, v, AUTHORITY);
    assert a1 - {v} == (a - {v})[d := a[d].(amount := a[d].amount + sum)];
  }

  /** Whenever `cancel`'s token instructions succeed, the vault is gone, the
      deposit account gained the amount, no token was created or destroyed and
      every vault left is still held by the program authority. */
  lemma CancelLedgerEffect(a: Accounts, vault: Pubkey, deposit: Pubkey, amount: U64, authority: Pubkey)
    requires CancelLedger(a, vault, deposit, amount, authority).Ok?
    ensures
      var b := CancelLedger(a, vault, deposit, amount, authority).value;
      vault !in b && Total(b) == Total(a) &&
      (vault != deposit ==> deposit in a && deposit in b && b[deposit].amount == a[deposit].amount + amount) &&
      (VaultsHeld(a) ==> VaultsHeld(b))
  {
    var a1 := ApplyTransfer(a, vault, deposit, amount, authority).value;
    TransferConserves(a, vault, deposit, amount, authority);
    CloseConserves(a1, vault, authority);
    if VaultsHeld(a) {
      TransferKeepsVaultsHeld(a, vault, deposit, amount, authority);
    }
  }

  // ---------------------------------------------------------------- findings

  /** As written, `approve` pays out of whatever vault it is handed, and every vault
      is held by the same authority. Paying a slot of record A out of the vault of
      record B leaves A's vault holding more than A's unpaid slots and B's vault
      holding less than B's. */
  lemma ForeignVaultApproveBreaksBacking(a: Accounts, recA: EscrowRecord, recB: EscrowRecord, idx: nat, receiver: Pubkey)
    requires Backed(a, recA) && Backed(a, recB) && recA.randomSeed != recB.randomSeed
    requires idx < 5 && recA.initializerAmount[idx] > 0
    requires receiver != VaultOf(recA) && receiver != VaultOf(recB)
    requires ApplyTransfer(a, VaultOf(recB), receiver, recA.initializerAmount[idx], AUTHORITY).Ok?
    ensures
      var b := ApplyTransfer(a, VaultOf(recB), receiver, recA.initializerAmount[idx], AUTHORITY).value;
      !Backed(b, recA.(initializerAmount := recA.initializerAmount[idx := 0])) && !Backed(b, recB)
  {
    SumZeroSlot(recA.initializerAmount, idx);
  }

  /** As written, `approve` lets the receiving account be the vault itself. The
      transfer then moves nothing, the slot is still zeroed, and the vault keeps
      tokens no slot accounts for: a later `cancel` of the record through its vault
      cannot close it. */
  lemma SelfPayStrandsFunds(a: Accounts, rec: EscrowRecord, idx: nat)
    requires Backed(a, rec) && idx < 5 && rec.initializerAmount[idx] > 0
    ensures ApplyTransfer(a, VaultOf(rec), VaultOf(rec), rec.initializerAmount[idx], AUTHORITY) == Ok(a)
    ensures
      var paid := rec.initializerAmount[idx := 0];
      !Backed(a, rec.(initializerAmount := paid)) &&
      Sum(paid) <= U64_MAX &&
      CancelLedger(a, VaultOf(rec), rec.initializerDepositTokenAccount, Sum(paid), AUTHORITY).Err?
  {
    SumZeroSlot(rec.initializerAmount, idx);
  }

  /** As written, `cancel` also takes whatever vault it is handed. Cancelling record
      A through the vault of record B, when B's vault holds exactly A's unpaid sum,
      refunds A out of B's vault and closes it, while A's own vault stays full. */
  lemma ForeignVaultCancelClosesVictimVault(a: Accounts, recA: EscrowRecord, recB: EscrowRecord)
    requires Backed(a, recA) && Backed(a, recB) && recA.randomSeed != recB.randomSeed
    requires Sum(recA.initializerAmount) == Sum(recB.initializerAmount)
    requires recA.initializerDepositTokenAccount in a
    requires a[recA.initializerDepositTokenAccount].mint == a[VaultOf(recB)].mint
    requires a[recA.initializerDepositTokenAccount].amount + Sum(recA.initializerAmount) <= U64_MAX
    ensures
      var r := CancelLedger(a, VaultOf(recB), recA.initializerDepositTokenAccount, Sum(recA.initializerAmount), AUTHORITY);
      r.Ok? && !Backed(r.value, recB) && r.value[VaultOf(recA)] == a[VaultOf(recA)]
  {
  }

  /** As written, `cancel` also takes whatever `vault_authority` it is handed. The
      initializer can pass an account of their own that holds the unpaid sum as the
      "vault" and sign for it themselves: the refund moves their own tokens to the
      deposit account, that account is closed, and the record is closed, while the
      real vault still holds every unpaid token and no record is left to release it. */
  lemma SignerVaultCancelStrandsVault(a: Accounts, rec: EscrowRecord, decoy: Pubkey)
    requires Backed(a, rec) && Sum(rec.initializerAmount) > 0 && rec.initializerKey != AUTHORITY
    requires decoy in a && decoy != rec.initializerDepositTokenAccount
    requires a[decoy].owner == rec.initializerKey && a[decoy].amount == Sum(rec.initializerAmount)
    requires rec.initializerDepositTokenAccount in a
    requires a[rec.initializerDepositTokenAccount].mint == a[decoy].mint
    requires a[rec.initializerDepositTokenAccount].amount + Sum(rec.initializerAmount) <= U64_MAX
    ensures
      var r := CancelLedger(a, decoy, rec.initializerDepositTokenAccount, Sum(rec.initializerAmount), rec.initializerKey);
      r.Ok? && decoy !in r.value && VaultOf(rec) in r.value &&
      r.value[VaultOf(rec)] == a[VaultOf(rec)] && r.value[VaultOf(rec)].amount > 0
  {
  }

  /** As written, `cancel` refunds the sum of the unpaid slots rather than what the
      vault holds, and anyone holding the mint can transfer into a vault (the token
      program needs only the sender's signature). After one such transfer the vault
      holds more than the slots, the refund leaves it non-empty, and closing it
      fails: the record can no longer be cancelled. */
  lemma DonationBlocksCancel(a: Accounts, rec: EscrowRecord, donor: Pubkey, owner: Pubkey, n: U64)
    requires Backed(a, rec) && n > 0 && donor != VaultOf(rec)
    requires ApplyTransfer(a, donor, VaultOf(rec), n, owner).Ok?
    ensures
      var b := ApplyTransfer(a, donor, VaultOf(rec), n, owner).value;
      !Backed(b, rec) &&
      CancelLedger(b, VaultOf(rec), rec.initializerDepositTokenAccount, Sum(rec.initializerAmount), AUTHORITY).Err?
  {
  }

  /** The corrected checks of `approve`: those of the program, then the vault must
      be the record's own, the authority the program's, and the receiving account
      must not be one the vault authority holds. */
  function ApproveCheckBound(a: Accounts, created: bool, rec: EscrowRecord, signer: Pubkey, deposit: Pubkey,
                             vault: Pubkey, authority: Pubkey, receiver: Pubkey, idx: U64): (r: Outcome<Error>)
    ensures r.Pass? <==>
      ApproveCheck(a, created, rec, signer, deposit, idx).Pass? && vault == VaultOf(rec) && authority == AUTHORITY &&
      (receiver !in a || a[receiver].owner != AUTHORITY)
    ensures ApproveCheck(a, created, rec, signer, deposit, idx).Fail? ==> r == ApproveCheck(a, created, rec, signer, deposit, idx)
  {
    var e := ApproveCheck(a, created, rec, signer, deposit, idx);
    if e.Fail? then e
    else if vault != VaultOf(rec) then Fail(VaultMismatch)
    else if authority != AUTHORITY then Fail(AuthorityMismatch)
    else if receiver in a && a[receiver].owner == AUTHORITY then Fail(ReceiverIsProgramHeld)
    else Pass
  }

  /** Under the corrected checks a payout keeps the paying record backed, if it
      was, and every other backed record backed. */
  lemma BoundApproveKeepsAllBacked(a: Accounts, rec: EscrowRecord, idx: nat, receiver: Pubkey, other: EscrowRecord)
    requires idx < 5
    requires receiver !in a || a[receiver].owner != AUTHORITY
    requires ApplyTransfer(a, VaultOf(rec), receiver, rec.initializerAmount[idx], AUTHORITY).Ok?
    ensures
      var b := ApplyTransfer(a, VaultOf(rec), receiver, rec.initializerAmount[idx], AUTHORITY).value;
      (Backed(a, rec) ==> Backed(b, rec.(initializerAmount := rec.initializerAmount[idx := 0]))) &&
      (Backed(a, other) && other.randomSeed != rec.randomSeed ==> Backed(b, other))
  {
    if Backed(a, rec) {
      ApprovePreservesBacking(a, rec, idx, receiver);
    }
    if Backed(a, other) && other.randomSeed != rec.randomSeed {
      TransferKeepsBacking(a, other, VaultOf(rec), receiver, rec.initializerAmount[idx], AUTHORITY);
    }
  }

  /** The corrected checks of `cancel`: those of the program, then the vault must be
      the record's own and the authority the program's. */
  function CancelCheckBound(created: bool, rec: EscrowRecord, signer: Pubkey, deposit: Pubkey, vault: Pubkey,
                            authority: Pubkey): (r: Outcome<Error>)
    ensures r.Pass? <==> CancelCheck(created, rec, signer, deposit).Pass? && vault == VaultOf(rec) && authority == AUTHORITY
    ensures CancelCheck(created, rec, signer, deposit).Fail? ==> r == CancelCheck(created, rec, signer, deposit)
  {
    var e := CancelCheck(created, rec, signer, deposit);
    if e.Fail? then e
    else if vault != VaultOf(rec) then Fail(VaultMismatch)
    else if authority != AUTHORITY then Fail(AuthorityMismatch)
    else Pass
  }

  /** The corrected refund of `cancel` sweeps the vault: it returns everything the
      vault holds, so it succeeds whenever the vault is the program's and the
      deposit account is of its mint and has room, whatever was sent into the vault
      from outside. On a backed record it is exactly the program's refund. */
  lemma SweepRefunds(a: Accounts, rec: EscrowRecord)
    requires VaultOf(rec) in a && a[VaultOf(rec)].owner == AUTHORITY
    requires !rec.initializerDepositTokenAccount.VaultPda? && rec.initializerDepositTokenAccount in a
    requires a[rec.initializerDepositTokenAccount].mint == a[VaultOf(rec)].mint
    requires a[rec.initializerDepositTokenAccount].amount + a[VaultOf(rec)].amount <= U64_MAX
    ensures
      var v, d := VaultOf(rec), rec.initializerDepositTokenAccount;
      var r := CancelLedger(a, v, d, a[v].amount, AUTHORITY);
      r.Ok? && r.value == (a - {v})[d := a[d].(amount := a[d].amount + a[v].amount)]
    ensures Backed(a, rec) ==> a[VaultOf(rec)].amount == Sum(rec.initializerAmount)
  {
  }

  /** Under the corrected checks cancelling a record, whose deposit account is not a
      vault, leaves every other backed record backed. */
  lemma BoundCancelKeepsOthersBacked(a: Accounts, rec: EscrowRecord, other: EscrowRecord, amount: U64)
    requires !rec.initializerDepositTokenAccount.VaultPda?
    requires Backed(a, other) && other.randomSeed != rec.randomSeed
    requires CancelLedger(a, VaultOf(rec), rec.initializerDepositTokenAccount, amount, AUTHORITY).Ok?
    ensures Backed(CancelLedger(a, VaultOf(rec), rec.initializerDepositTokenAccount, amount, AUTHORITY).value, other)
  {
  }
}
