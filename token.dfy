/** The token ledger the escrow program moves funds through, stated at its
    interface: a map from account address to (mint, owner, balance), and the four
    token-program instructions the escrow handlers invoke (create an account,
    transfer, change the owner, close). Each instruction is a pure function on the
    map, which either yields the new map or names the reason it aborts; the class
    `Ledger` holds the map and applies the instructions to it in place. */
module Token {
  import opened Chain

  /** One token account: which mint its tokens belong to, who may move them, how many it holds. */
  datatype TokenAccount = TokenAccount(mint: Pubkey, owner: Pubkey, amount: U64)

  type Accounts = map<Pubkey, TokenAccount>

  datatype TokenError =
    | UninitializedAccount   // an account the instruction names does not exist
    | AccountInUse           // an account to be created already exists
    | InsufficientFunds
    | MintMismatch
    | OwnerMismatch
    | Overflow               // the destination balance would exceed u64
    | NonZeroBalance         // only an empty token account can be closed

  /** The number of tokens held across all accounts, of every mint. */
  ghost function Total(a: Accounts): nat
    decreases |a|
  {
    if a == map[] then 0
    else
      var k :| k in a;
      assert |a - {k}| < |a| by { assert (a - {k}).Keys == a.Keys - {k}; }
      a[k].amount + Total(a - {k})
  }

  /** Whatever account `Total` picks first, the sum is the same. */
  lemma {:induction false} TotalRemove(a: Accounts, k: Pubkey)
    requires k in a
    ensures Total(a) == a[k].amount + Total(a - {k})
    decreases |a|
  {
    var j :| j in a && Total(a) == a[j].amount + Total(a - {j});
    if j != k {
      var rest := a - {j} - {k};
      assert rest == a - {k} - {j};
      assert (a - {j}).Keys == a.Keys - {j};
      assert (a - {k}).Keys == a.Keys - {k};
      TotalRemove(a - {j}, k);
      TotalRemove(a - {k}, j);
    }
  }

  /** Replacing one account changes the total by the difference of the two balances. */
  lemma TotalUpdate(a: Accounts, k: Pubkey, v: TokenAccount)
    requires k in a
    ensures Total(a[k := v]) + a[k].amount == Total(a) + v.amount
  {
    TotalRemove(a, k);
    TotalRemove(a[k := v], k);
    assert a[k := v] - {k} == a - {k};
  }

  /** Adding a new account adds its balance to the total. */
  lemma TotalInsert(a: Accounts, k: Pubkey, v: TokenAccount)
    requires k !in a
    ensures Total(a[k := v]) == Total(a) + v.amount
  {
    TotalRemove(a[k := v], k);
    assert a[k := v] - {k} == a;
  }

  /** Create an empty token account of `mint` owned by `owner` at the unused address `account`. */
  function ApplyInitialize(a: Accounts, account: Pubkey, mint: Pubkey, owner: Pubkey): (r: Result<Accounts, TokenError>)
    ensures r.Ok? <==> account !in a
    ensures r.Ok? ==> r.value.Keys == a.Keys + {account}
    ensures r.Ok? ==> r.value[account] == TokenAccount(mint, owner, 0)
    ensures r.Ok? ==> forall k :: k in a ==> r.value[k] == a[k]
  {
    if account in a then Err(AccountInUse)
    else Ok(a[account := TokenAccount(mint, owner, 0)])
  }

  /** Move `amount` tokens from `source` to `dest`, signed by `authority`, which must own `source`.
      A transfer of an account to itself checks the same conditions and changes nothing. */
  function ApplyTransfer(a: Accounts, source: Pubkey, dest: Pubkey, amount: U64, authority: Pubkey): (r: Result<Accounts, TokenError>)
    ensures r.Ok? <==>
      source in a && dest in a && amount <= a[source].amount && a[source].mint == a[dest].mint &&
      a[source].owner == authority && (source == dest || a[dest].amount + amount <= U64_MAX)
    ensures r.Ok? ==> r.value.Keys == a.Keys
    ensures r.Ok? && source == dest ==> r.value == a
    ensures r.Ok? && source != dest ==>
      r.value[source] == a[source].(amount := a[source].amount - amount) &&
      r.value[dest] == a[dest].(amount := a[dest].amount + amount)
    ensures r.Ok? ==> forall k :: k in a && k != source && k != dest ==> r.value[k] == a[k]
  {
    if source !in a || dest !in a then Err(UninitializedAccount)
    else if a[source].amount < amount then Err(InsufficientFunds)
    else if a[source].mint != a[dest].mint then Err(MintMismatch)
    else if a[source].owner != authority then Err(OwnerMismatch)
    else if source == dest then Ok(a)
    else if a[dest].amount + amount > U64_MAX then Err(Overflow)
    else
      var from := a[source].(amount := a[source].amount - amount);
      var to := a[dest].(amount := a[dest].amount + amount);
      Ok(a[source := from][dest := to])
  }

  /** Make `newOwner` the owner of `account`, signed by its current owner. */
  function ApplySetAuthority(a: Accounts, account: Pubkey, current: Pubkey, newOwner: Pubkey): (r: Result<Accounts, TokenError>)
    ensures r.Ok? <==> account in a && a[account].owner == current
    ensures r.Ok? ==> r.value.Keys == a.Keys
    ensures r.Ok? ==> r.value[account] == a[account].(owner := newOwner)
    ensures r.Ok? ==> forall k :: k in a && k != account ==> r.value[k] == a[k]
  {
    if account !in a then Err(UninitializedAccount)
    else if a[account].owner != current then Err(OwnerMismatch)
    else Ok(a[account := a[account].(owner := newOwner)])
  }

  /** Remove the empty account `account`, signed by its owner. */
  function ApplyClose(a: Accounts, account: Pubkey, authority: Pubkey): (r: Result<Accounts, TokenError>)
    ensures r.Ok? <==> account in a && a[account].amount == 0 && a[account].owner == authority
    ensures r.Ok? ==> r.value == a - {account}
  {
    if account !in a then Err(UninitializedAccount)
    else if a[account].amount != 0 then Err(NonZeroBalance)
    else if a[account].owner != authority then Err(OwnerMismatch)
    else Ok(a - {account})
  }

  /** No instruction creates or destroys tokens. */
  lemma InitializeConserves(a: Accounts, account: Pubkey, mint: Pubkey, owner: Pubkey)
    requires ApplyInitialize(a, account, mint, owner).Ok?
    ensures Total(ApplyInitialize(a, account, mint, owner).value) == Total(a)
  {
    TotalInsert(a, account, TokenAccount(mint, owner, 0));
  }

  lemma TransferConserves(a: Accounts, source: Pubkey, dest: Pubkey, amount: U64, authority: Pubkey)
    requires ApplyTransfer(a, source, dest, amount, authority).Ok?
    ensures Total(ApplyTransfer(a, source, dest, amount, authority).value) == Total(a)
  {
    if source != dest {
      var from := a[source].(amount := a[source].amount - amount);
      var to := a[dest].(amount := a[dest].amount + amount);
      TotalUpdate(a, source, from);
      TotalUpdate(a[source := from], dest, to);
    }
  }

  lemma SetAuthorityConserves(a: Accounts, account: Pubkey, current: Pubkey, newOwner: Pubkey)
    requires ApplySetAuthority(a, account, current, newOwner).Ok?
    ensures Total(ApplySetAuthority(a, account, current, newOwner).value) == Total(a)
  {
    TotalUpdate(a, account, a[account].(owner := newOwner));
  }

  lemma CloseConserves(a: Accounts, account: Pubkey, authority: Pubkey)
    requires ApplyClose(a, account, authority).Ok?
    ensures Total(ApplyClose(a, account, authority).value) == Total(a)
  {
    TotalRemove(a, account);
  }

  /** The token program's accounts, changed in place by the instructions. An
      instruction that aborts leaves every account as it was. */
  class Ledger {
    var accounts: Accounts

    constructor (initial: Accounts)
      ensures accounts == initial
    {
      accounts := initial;
    }

    method InitializeAccount(account: Pubkey, mint: Pubkey, owner: Pubkey) returns (r: Outcome<TokenError>)
      modifies this
      ensures r.Pass? <==> ApplyInitialize(old(accounts), account, mint, owner).Ok?
      ensures r.Pass? ==> accounts == ApplyInitialize(old(accounts), account, mint, owner).value
      ensures r.Fail? ==> r.error == ApplyInitialize(old(accounts), account, mint, owner).error && accounts == old(accounts)
    {
      var res := ApplyInitialize(accounts, account, mint, owner);
      if res.Err? {
        return Fail(res.error);
      }
      accounts := res.value;
      r := Pass;
    }

    method Transfer(source: Pubkey, dest: Pubkey, amount: U64, authority: Pubkey) returns (r: Outcome<TokenError>)
      modifies this
      ensures r.Pass? <==> ApplyTransfer(old(accounts), source, dest, amount, authority).Ok?
      ensures r.Pass? ==> accounts == ApplyTransfer(old(accounts), source, dest, amount, authority).value
      ensures r.Fail? ==> r.error == ApplyTransfer(old(accounts), source, dest, amount, authority).error && accounts == old(accounts)
    {
      var res := ApplyTransfer(accounts, source, dest, amount, authority);
      if res.Err? {
        return Fail(res.error);
      }
      accounts := res.value;
      r := Pass;
    }

    method SetAuthority(account: Pubkey, current: Pubkey, newOwner: Pubkey) returns (r: Outcome<TokenError>)
      modifies this
      ensures r.Pass? <==> ApplySetAuthority(old(accounts), account, current, newOwner).Ok?
      ensures r.Pass? ==> accounts == ApplySetAuthority(old(accounts), account, current, newOwner).value
      ensures r.Fail? ==> r.error == ApplySetAuthority(old(accounts), account, current, newOwner).error && accounts == old(accounts)
    {
      var res := ApplySetAuthority(accounts, account, current, newOwner);
      if res.Err? {
        return Fail(res.error);
      }
      accounts := res.value;
      r := Pass;
    }

    method CloseAccount(account: Pubkey, authority: Pubkey) returns (r: Outcome<TokenError>)
      modifies this
      ensures r.Pass? <==> ApplyClose(old(accounts), account, authority).Ok?
      ensures r.Pass? ==> accounts == ApplyClose(old(accounts), account, authority).value
      ensures r.Fail? ==> r.error == ApplyClose(old(accounts), account, authority).error && accounts == old(accounts)
    {
      var res := ApplyClose(accounts, account, authority);
      if res.Err? {
        return Fail(res.error);
      }
      accounts := res.value;
      r := Pass;
    }
  }
}
