/** The escrow program's instructions as methods that change the accounts in
    place: the set of addresses at which the program's own accounts exist, the
    administrator record, the escrow record with its five-slot array, and the
    token ledger. Each method first runs the account checks of its instruction
    (which abort with nothing changed), then performs the body; if a token
    instruction in the body fails, every change the body made is undone, as the
    runtime reverts a failed instruction. */
module Escrow {
  import opened Chain
  import opened Token
  import opened EscrowSpec

  /** The addresses at which an account of the escrow program exists: the
      administrator record and the escrow records. Creating an account at an
      address already in the set fails, as `init` does; closing one removes it. */
  class ProgramAccounts {
    var inUse: set<Pubkey>

    constructor (initial: set<Pubkey>)
      ensures inUse == initial
    {
      inUse := initial;
    }
  }

  /** The data of the administrator record (`Admin`) at the address it would occupy. */
  class AdminRecord {
    const address: Pubkey
    var admin1: Pubkey
    var admin2: Pubkey

    constructor (address: Pubkey)
      ensures this.address == address
    {
      this.address := address;
      admin1, admin2 := address, address;
    }
  }

  /** The data of an escrow record (`EscrowState`) at the address it would occupy.
      Whether a record exists there is recorded in `ProgramAccounts`. */
  class EscrowState {
    const address: Pubkey
    var randomSeed: U64
    var initializerKey: Pubkey
    var initializerDepositTokenAccount: Pubkey
    const initializerAmount: array<U64>

    ghost predicate Valid()
    {
      initializerAmount.Length == 5
    }

    /** The record's data as a value. */
    function View(): EscrowRecord
      reads this, initializerAmount
      requires Valid()
    {
      EscrowRecord(randomSeed, initializerKey, initializerDepositTokenAccount, initializerAmount[..])
    }

    constructor (address: Pubkey)
      ensures Valid() && this.address == address && fresh(initializerAmount)
    {
      this.address := address;
      randomSeed := 0;
      initializerKey, initializerDepositTokenAccount := address, address;
      initializerAmount := new U64[5](_ => 0);
    }

    /** Write every field of the record. */
    method Store(record: EscrowRecord)
      requires Valid()
      modifies this, initializerAmount
      ensures Valid() && View() == record
    {
      randomSeed := record.randomSeed;
      initializerKey := record.initializerKey;
      initializerDepositTokenAccount := record.initializerDepositTokenAccount;
      forall i | 0 <= i < 5 {
        initializerAmount[i] := record.initializerAmount[i];
      }
    }
  }

  /** `init_admin`: create the administrator record at the fixed address derived
      from "admin" and store the two administrator keys in it. */
  method InitAdmin(programs: ProgramAccounts, admin: AdminRecord, admin1: Pubkey, admin2: Pubkey) returns (r: Outcome<Error>)
    modifies programs, admin
    ensures admin.address != AdminPda ==> r == Fail(SeedsMismatch)
    ensures admin.address == AdminPda && AdminPda in old(programs.inUse) ==> r == Fail(AlreadyInUse)
    ensures r.Pass? <==> admin.address == AdminPda && AdminPda !in old(programs.inUse)
    ensures r.Pass? ==>
      programs.inUse == old(programs.inUse) + {AdminPda} && admin.admin1 == admin1 && admin.admin2 == admin2
    ensures r.Fail? ==> unchanged(programs, admin)
  {
    if admin.address != AdminPda {
      return Fail(SeedsMismatch);
    }
    if AdminPda in programs.inUse {
      return Fail(AlreadyInUse);
    }
    programs.inUse := programs.inUse + {AdminPda};
    admin.admin1 := admin1;
    admin.admin2 := admin2;
    r := Pass;
  }

  /** `init_admin` succeeds at most once: the record lives at one fixed address,
      whichever record object a second call is handed. */
  method InitAdminTwice(programs: ProgramAccounts, admin: AdminRecord, again: AdminRecord,
                        admin1: Pubkey, admin2: Pubkey, other1: Pubkey, other2: Pubkey)
    returns (first: Outcome<Error>, second: Outcome<Error>)
    modifies programs, admin, again
    ensures !(first.Pass? && second.Pass?)
    ensures first.Pass? ==>
      second == Fail(AlreadyInUse) || (again.address != AdminPda && second == Fail(SeedsMismatch))
    ensures first.Pass? ==> AdminPda in programs.inUse && admin.admin1 == admin1 && admin.admin2 == admin2
  {
    first := InitAdmin(programs, admin, admin1, admin2);
    second := InitAdmin(programs, again, other1, other2);
  }

  /** `initialize`: create the vault and the record, store the initializer, the
      deposit account, the seed and the five amounts, hand the vault to the program
      authority and move the sum of the five amounts into it. */
  method Initialize(programs: ProgramAccounts, ledger: Ledger, escrow: EscrowState, initializer: Pubkey, mint: Pubkey,
                    vault: Pubkey, deposit: Pubkey, randomSeed: U64, initializerAmount: Milestones)
    returns (r: Outcome<Error>)
    requires escrow.Valid()
    modifies programs, ledger, escrow, escrow.initializerAmount
    ensures escrow.Valid()
    ensures InitializeCheck(old(ledger.accounts), escrow.address, escrow.address in old(programs.inUse),
                            vault, deposit, randomSeed, initializerAmount).Fail? ==>
      r == InitializeCheck(old(ledger.accounts), escrow.address, escrow.address in old(programs.inUse),
                           vault, deposit, randomSeed, initializerAmount)
    ensures InitializeCheck(old(ledger.accounts), escrow.address, escrow.address in old(programs.inUse),
                            vault, deposit, randomSeed, initializerAmount).Pass? ==>
      Sum(initializerAmount) <= U64_MAX &&
      (r.Pass? <==> InitializeLedger(old(ledger.accounts), vault, mint, initializer, deposit, Sum(initializerAmount)).Ok?)
    ensures r.Pass? ==>
      programs.inUse == old(programs.inUse) + {escrow.address} &&
      escrow.View() == EscrowRecord(randomSeed, initializer, deposit, initializerAmount) &&
      Sum(initializerAmount) <= U64_MAX &&
      ledger.accounts == InitializeLedger(old(ledger.accounts), vault, mint, initializer, deposit, Sum(initializerAmount)).value
    ensures r.Fail? ==>
      programs.inUse == old(programs.inUse) && ledger.accounts == old(ledger.accounts) &&
      escrow.View() == old(escrow.View())
  {
    r := InitializeCheck(ledger.accounts, escrow.address, escrow.address in programs.inUse,
                         vault, deposit, randomSeed, initializerAmount);
    if r.Fail? {
      return;
    }
    var saved := ledger.accounts;
    var savedInUse, savedRecord := programs.inUse, escrow.View();

    // The vault is created owned by the initializer, then handed to the program
    // authority; after the checks neither step can fail.
    var t := ledger.InitializeAccount(vault, mint, initializer);
    assert t.Pass?;
    programs.inUse := programs.inUse + {escrow.address};
    escrow.Store(EscrowRecord(randomSeed, initializer, deposit, initializerAmount));
    t := ledger.SetAuthority(vault, initializer, AUTHORITY);
    assert t.Pass?;
    ghost var created := VaultCreated(saved, initializer, mint, vault);
    assert ledger.accounts == created;
    var amount: U64 := Sum(escrow.initializerAmount[..]);
    t := ledger.Transfer(deposit, vault, amount, initializer);
    if t.Fail? {
      ledger.accounts := saved;
      programs.inUse := savedInUse;
      escrow.Store(savedRecord);
      return Fail(TokenFailure(t.error));
    }
  }

  /** `approve(milestone_idx)`: pay the indexed slot out of the vault to the
      receiving account, signed by the `vault_authority` the caller supplies, and
      zero the slot. */
  method Approve(programs: ProgramAccounts, ledger: Ledger, escrow: EscrowState, signer: Pubkey, receiver: Pubkey,
                 deposit: Pubkey, vault: Pubkey, authority: Pubkey, idx: U64) returns (r: Outcome<Error>)
    requires escrow.Valid()
    modifies ledger, escrow.initializerAmount
    ensures ApproveCheck(old(ledger.accounts), escrow.address in programs.inUse, old(escrow.View()), signer, deposit, idx).Fail? ==>
      r == ApproveCheck(old(ledger.accounts), escrow.address in programs.inUse, old(escrow.View()), signer, deposit, idx)
    ensures r.Pass? ==>
      deposit in old(ledger.accounts) && escrow.address in programs.inUse &&
      deposit == escrow.initializerDepositTokenAccount && signer == escrow.initializerKey &&
      idx < 5 && old(escrow.initializerAmount[idx]) > 0
    ensures ApproveCheck(old(ledger.accounts), escrow.address in programs.inUse, old(escrow.View()), signer, deposit, idx).Pass? ==>
      (r.Pass? <==> ApplyTransfer(old(ledger.accounts), vault, receiver, old(escrow.initializerAmount[idx]), authority).Ok?)
    ensures r.Pass? ==>
      ledger.accounts == ApplyTransfer(old(ledger.accounts), vault, receiver, old(escrow.initializerAmount[idx]), authority).value &&
      escrow.initializerAmount[..] == old(escrow.initializerAmount[..])[idx := 0]
    ensures r.Pass? && vault == VaultOf(old(escrow.View())) && receiver != vault && old(Backed(ledger.accounts, escrow.View())) ==>
      Backed(ledger.accounts, escrow.View())
    ensures old(VaultsHeld(ledger.accounts)) ==> VaultsHeld(ledger.accounts)
    ensures r.Fail? ==> ledger.accounts == old(ledger.accounts) && unchanged(escrow.initializerAmount)
  {
    r := ApproveCheck(ledger.accounts, escrow.address in programs.inUse, escrow.View(), signer, deposit, idx);
    if r.Fail? {
      return;
    }
    ghost var a := ledger.accounts;
    ghost var rec := escrow.View();
    var t := ledger.Transfer(vault, receiver, escrow.initializerAmount[idx], authority);
    if t.Fail? {
      return Fail(TokenFailure(t.error));
    }
    escrow.initializerAmount[idx] := 0;
    assert escrow.View() == rec.(initializerAmount := rec.initializerAmount[idx := 0]);
    if vault == VaultOf(rec) && receiver != vault && Backed(a, rec) {
      assert authority == AUTHORITY;
      ApprovePreservesBacking(a, rec, idx as nat, receiver);
    }
    if VaultsHeld(a) {
      TransferKeepsVaultsHeld(a, vault, receiver, rec.initializerAmount[idx], authority);
    }
  }

  /** A slot is paid at most once: a second `approve` of the same slot aborts. */
  method ApproveTwice(programs: ProgramAccounts, ledger: Ledger, escrow: EscrowState, signer: Pubkey, receiver: Pubkey,
                      deposit: Pubkey, vault: Pubkey, authority: Pubkey, idx: U64)
    returns (first: Outcome<Error>, second: Outcome<Error>)
    requires escrow.Valid()
    modifies ledger, escrow.initializerAmount
    ensures first.Pass? ==> second == Fail(EmptyMilestone)
  {
    first := Approve(programs, ledger, escrow, signer, receiver, deposit, vault, authority, idx);
    second := Approve(programs, ledger, escrow, signer, receiver, deposit, vault, authority, idx);
  }

  /** `cancel`: return the sum of the remaining slots from the vault to the deposit
      account and close the vault, both signed by the `vault_authority` the caller
      supplies, and close the record. */
  method Cancel(programs: ProgramAccounts, ledger: Ledger, escrow: EscrowState, signer: Pubkey, deposit: Pubkey,
                vault: Pubkey, authority: Pubkey) returns (r: Outcome<Error>)
    requires escrow.Valid()
    modifies programs, ledger
    ensures CancelCheck(escrow.address in old(programs.inUse), escrow.View(), signer, deposit).Fail? ==>
      r == CancelCheck(escrow.address in old(programs.inUse), escrow.View(), signer, deposit)
    ensures r.Pass? ==>
      escrow.address in old(programs.inUse) && signer == escrow.initializerKey &&
      deposit == escrow.initializerDepositTokenAccount
    ensures CancelCheck(escrow.address in old(programs.inUse), escrow.View(), signer, deposit).Pass? ==>
      (r.Pass? <==> Sum(escrow.initializerAmount[..]) <= U64_MAX &&
                    CancelLedger(old(ledger.accounts), vault, deposit, Sum(escrow.initializerAmount[..]), authority).Ok?)
    ensures r.Pass? ==>
      programs.inUse == old(programs.inUse) - {escrow.address} && vault !in ledger.accounts &&
      ledger.accounts == CancelLedger(old(ledger.accounts), vault, deposit, Sum(escrow.initializerAmount[..]), authority).value
    ensures r.Fail? ==> ledger.accounts == old(ledger.accounts) && unchanged(programs)
  {
    r := CancelCheck(escrow.address in programs.inUse, escrow.View(), signer, deposit);
    if r.Fail? {
      return;
    }
    var total := Sum(escrow.initializerAmount[..]);
    if total > U64_MAX {
      return Fail(ArithmeticOverflow);
    }
    var saved := ledger.accounts;
    var t := ledger.Transfer(vault, deposit, total, authority);
    if t.Fail? {
      return Fail(TokenFailure(t.error));
    }
    t := ledger.CloseAccount(vault, authority);
    if t.Fail? {
      ledger.accounts := saved;
      return Fail(TokenFailure(t.error));
    }
    programs.inUse := programs.inUse - {escrow.address};
  }

  /** `approve` with the corrected checks: the vault must be the record's own, the
      authority the program's, and the receiving account must not be held by the
      vault authority. A payout then keeps this record and every other record backed. */
  method ApproveChecked(programs: ProgramAccounts, ledger: Ledger, escrow: EscrowState, signer: Pubkey, receiver: Pubkey,
                        deposit: Pubkey, vault: Pubkey, authority: Pubkey, idx: U64) returns (r: Outcome<Error>)
    requires escrow.Valid()
    modifies ledger, escrow.initializerAmount
    ensures ApproveCheckBound(old(ledger.accounts), escrow.address in programs.inUse, old(escrow.View()),
                              signer, deposit, vault, authority, receiver, idx).Fail? ==>
      r == ApproveCheckBound(old(ledger.accounts), escrow.address in programs.inUse, old(escrow.View()),
                             signer, deposit, vault, authority, receiver, idx)
    ensures r.Pass? ==>
      vault == VaultOf(old(escrow.View())) && authority == AUTHORITY && idx < 5 &&
      ApplyTransfer(old(ledger.accounts), vault, receiver, old(escrow.initializerAmount[idx]), AUTHORITY).Ok? &&
      ledger.accounts == ApplyTransfer(old(ledger.accounts), vault, receiver, old(escrow.initializerAmount[idx]), AUTHORITY).value &&
      escrow.initializerAmount[..] == old(escrow.initializerAmount[..])[idx := 0]
    ensures old(Backed(ledger.accounts, escrow.View())) ==> Backed(ledger.accounts, escrow.View())
    ensures forall other :: old(Backed(ledger.accounts, other)) && other.randomSeed != escrow.randomSeed ==>
      Backed(ledger.accounts, other)
    ensures r.Fail? ==> ledger.accounts == old(ledger.accounts) && unchanged(escrow.initializerAmount)
  {
    ghost var a := ledger.accounts;
    ghost var rec := escrow.View();
    r := ApproveCheckBound(ledger.accounts, escrow.address in programs.inUse, escrow.View(),
                           signer, deposit, vault, authority, receiver, idx);
    if r.Fail? {
      return;
    }
    r := Approve(programs, ledger, escrow, signer, receiver, deposit, vault, authority, idx);
    if r.Pass? {
      forall other | Backed(a, other) && other.randomSeed != rec.randomSeed
        ensures Backed(ledger.accounts, other)
      {
        BoundApproveKeepsAllBacked(a, rec, idx as nat, receiver, other);
      }
    }
  }

  /** `cancel` with the corrected checks that the vault is the record's own and the
      authority the program's, refunding everything the vault holds rather than the
      sum of the slots. It then cannot be blocked by tokens sent into the vault from
      outside, and leaves every other backed record backed. */
  method CancelChecked(programs: ProgramAccounts, ledger: Ledger, escrow: EscrowState, signer: Pubkey, deposit: Pubkey,
                       vault: Pubkey, authority: Pubkey) returns (r: Outcome<Error>)
    requires escrow.Valid()
    modifies programs, ledger
    ensures CancelCheckBound(escrow.address in old(programs.inUse), escrow.View(), signer, deposit, vault, authority).Fail? ==>
      r == CancelCheckBound(escrow.address in old(programs.inUse), escrow.View(), signer, deposit, vault, authority)
    ensures r.Pass? ==>
      vault == VaultOf(escrow.View()) && authority == AUTHORITY && vault in old(ledger.accounts) &&
      CancelLedger(old(ledger.accounts), vault, deposit, old(ledger.accounts)[vault].amount, AUTHORITY).Ok? &&
      ledger.accounts == CancelLedger(old(ledger.accounts), vault, deposit, old(ledger.accounts)[vault].amount, AUTHORITY).value &&
      programs.inUse == old(programs.inUse) - {escrow.address}
    ensures
      CancelCheckBound(escrow.address in old(programs.inUse), escrow.View(), signer, deposit, vault, authority).Pass? &&
      vault in old(ledger.accounts) && old(ledger.accounts)[vault].owner == AUTHORITY &&
      !deposit.VaultPda? && deposit in old(ledger.accounts) &&
      old(ledger.accounts)[deposit].mint == old(ledger.accounts)[vault].mint &&
      old(ledger.accounts)[deposit].amount + old(ledger.accounts)[vault].amount <= U64_MAX ==>
      r.Pass?
    ensures !escrow.initializerDepositTokenAccount.VaultPda? ==>
      forall other :: old(Backed(ledger.accounts, other)) && other.randomSeed != escrow.randomSeed ==>
        Backed(ledger.accounts, other)
    ensures r.Fail? ==> ledger.accounts == old(ledger.accounts) && unchanged(programs)
  {
    r := CancelCheckBound(escrow.address in programs.inUse, escrow.View(), signer, deposit, vault, authority);
    if r.Fail? {
      return;
    }
    if vault !in ledger.accounts {
      return Fail(NotInitialized);
    }
    ghost var rec := escrow.View();
    var saved := ledger.accounts;
    var balance := ledger.accounts[vault].amount;
    if !deposit.VaultPda? && deposit in saved && saved[deposit].mint == saved[vault].mint &&
       saved[deposit].amount + balance <= U64_MAX && saved[vault].owner == AUTHORITY {
      SweepRefunds(saved, rec);
    }
    var t := ledger.Transfer(vault, deposit, balance, authority);
    if t.Pass? {
      t := ledger.CloseAccount(vault, authority);
    }
    if t.Fail? {
      ledger.accounts := saved;
      return Fail(TokenFailure(t.error));
    }
    assert ledger.accounts == CancelLedger(saved, vault, deposit, balance, authority).value;
    programs.inUse := programs.inUse - {escrow.address};
    if !rec.initializerDepositTokenAccount.VaultPda? {
      forall other | Backed(saved, other) && other.randomSeed != rec.randomSeed
        ensures Backed(ledger.accounts, other)
      {
        BoundCancelKeepsOthersBacked(saved, rec, other, balance);
      }
    }
  }
}
