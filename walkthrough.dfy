/** The life of two escrows as the program's own test suite drives them, on
    concrete accounts: a deposit account of 500 tokens, five milestones of
    50, 150, 200, 50 and 50, two payouts to the taker, and a second escrow
    that is cancelled after the deposit account is topped up again. */
module Walkthrough {
  import opened Chain
  import opened Token
  import opened EscrowSpec
  import opened Escrow

  const MINT: Pubkey := Key(0)
  const INITIALIZER: Pubkey := Key(1)
  const TAKER: Pubkey := Key(2)
  const DEPOSIT: Pubkey := Key(10)
  const TAKER_ACCOUNT: Pubkey := Key(11)

  function Plan(): Milestones
  {
    [50, 150, 200, 50, 50]
  }

  /** The accounts before the first escrow: the initializer's deposit account of
      500 tokens and the taker's empty account, both of the same mint. */
  function Start(): Accounts
  {
    map[DEPOSIT := TokenAccount(MINT, INITIALIZER, 500), TAKER_ACCOUNT := TokenAccount(MINT, TAKER, 0)]
  }

  /** Create an escrow with seed `seed` from the deposit account, as the
      initializer, and return the record. */
  method Open(programs: ProgramAccounts, ledger: Ledger, seed: U64) returns (escrow: EscrowState, r: Outcome<Error>)
    requires VaultPda(seed) !in ledger.accounts && DEPOSIT in ledger.accounts && StatePda(seed) !in programs.inUse
    requires ledger.accounts[DEPOSIT] == TokenAccount(MINT, INITIALIZER, 500)
    modifies programs, ledger
    ensures fresh(escrow) && fresh(escrow.initializerAmount) && escrow.Valid()
    ensures r == Pass && escrow.address == StatePda(seed) && programs.inUse == old(programs.inUse) + {StatePda(seed)}
    ensures escrow.View() == EscrowRecord(seed, INITIALIZER, DEPOSIT, Plan())
    ensures ledger.accounts ==
      old(ledger.accounts)[DEPOSIT := TokenAccount(MINT, INITIALIZER, 0)][VaultPda(seed) := TokenAccount(MINT, AUTHORITY, 500)]
  {
    escrow := new EscrowState(StatePda(seed));
    SumFive(Plan());
    assert InitializeCheck(ledger.accounts, escrow.address, false, VaultPda(seed), DEPOSIT, seed, Plan()).Pass?;
    InitializeFunds(ledger.accounts, INITIALIZER, MINT, VaultPda(seed), DEPOSIT, 500);
    r := Initialize(programs, ledger, escrow, INITIALIZER, MINT, VaultPda(seed), DEPOSIT, seed, Plan());
  }

  /** One `approve` of slot `idx` of an escrow the initializer opened from the
      deposit account: the slot's amount moves from the vault to the taker's
      account and the slot becomes zero. */
  method Pay(programs: ProgramAccounts, ledger: Ledger, escrow: EscrowState, vault: Pubkey, idx: U64)
    requires escrow.Valid() && escrow.address in programs.inUse
    requires escrow.initializerKey == INITIALIZER && escrow.initializerDepositTokenAccount == DEPOSIT
    requires idx < 5 && escrow.initializerAmount[idx] > 0
    requires DEPOSIT in ledger.accounts && vault in ledger.accounts && TAKER_ACCOUNT in ledger.accounts && vault != TAKER_ACCOUNT
    requires ledger.accounts[vault].mint == MINT && ledger.accounts[vault].owner == AUTHORITY
    requires ledger.accounts[TAKER_ACCOUNT].mint == MINT
    requires escrow.initializerAmount[idx] <= ledger.accounts[vault].amount
    requires ledger.accounts[TAKER_ACCOUNT].amount + escrow.initializerAmount[idx] <= U64_MAX
    modifies ledger, escrow.initializerAmount
    ensures ledger.accounts ==
      old(ledger.accounts)[vault := TokenAccount(MINT, AUTHORITY, old(ledger.accounts[vault].amount - escrow.initializerAmount[idx]))]
                          [TAKER_ACCOUNT := old(ledger.accounts[TAKER_ACCOUNT].(amount := ledger.accounts[TAKER_ACCOUNT].amount + escrow.initializerAmount[idx]))]
    ensures escrow.initializerAmount[..] == old(escrow.initializerAmount[..])[idx := 0]
  {
    assert ApproveCheck(ledger.accounts, true, escrow.View(), INITIALIZER, DEPOSIT, idx).Pass?;
    var r := Approve(programs, ledger, escrow, INITIALIZER, TAKER_ACCOUNT, DEPOSIT, vault, AUTHORITY, idx);
  }

  /** The first escrow: after `approve(0)` the taker holds 50 tokens and slot 0 is
      zero; after `approve(1)` the taker holds 200 and the vault the remaining 300. */
  method PayTwoMilestones() returns (afterFirst: U64, afterSecond: U64, vaultLeft: U64, slots: seq<U64>)
    ensures afterFirst == 50 && afterSecond == 200 && vaultLeft == 300
    ensures slots == [0, 0, 200, 50, 50]
  {
    var programs := new ProgramAccounts({});
    var ledger := new Ledger(Start());
    var escrow, r := Open(programs, ledger, 1);
    var vault := VaultPda(1);
    Pay(programs, ledger, escrow, vault, 0);
    afterFirst := ledger.accounts[TAKER_ACCOUNT].amount;
    Pay(programs, ledger, escrow, vault, 1);
    afterSecond := ledger.accounts[TAKER_ACCOUNT].amount;
    vaultLeft := ledger.accounts[vault].amount;
    slots := escrow.initializerAmount[..];
  }

  /** The second escrow: the deposit account is refilled to 500, a second escrow
      takes all 500 into its vault, and `cancel` returns them and removes the vault. */
  method OpenAndCancel() returns (refunded: U64, vaultGone: bool, recordOpen: bool)
    ensures refunded == 500 && vaultGone && !recordOpen
  {
    var first := map[DEPOSIT := TokenAccount(MINT, INITIALIZER, 500), TAKER_ACCOUNT := TokenAccount(MINT, TAKER, 200),
                     VaultPda(1) := TokenAccount(MINT, AUTHORITY, 300)];
    var programs := new ProgramAccounts({StatePda(1)});
    var ledger := new Ledger(first);
    var escrow, r := Open(programs, ledger, 2);
    ghost var a := ledger.accounts;
    CancelRefunds(a, escrow.View());
    r := Cancel(programs, ledger, escrow, INITIALIZER, DEPOSIT, VaultPda(2), AUTHORITY);
    assert r.Pass?;
    refunded := ledger.accounts[DEPOSIT].amount;
    vaultGone := VaultPda(2) !in ledger.accounts;
    recordOpen := escrow.address in programs.inUse;
  }
}
