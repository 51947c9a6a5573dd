/** Values shared by the token ledger and the escrow program: account addresses,
    the 64-bit unsigned amounts the program stores, and the result types its
    operations return. */
module Chain {

  const U64_MAX: nat := 0xFFFF_FFFF_FFFF_FFFF

  /** An unsigned 64-bit amount (`u64`). */
  type U64 = x: nat | x <= U64_MAX

  /** An account address. `Key` is an ordinary address (a wallet, a token account
      created from a key pair, a mint); the other constructors are the addresses the
      escrow program derives from fixed seeds, which no key pair can sign for:
      the escrow record at seeds ["state", seed], its vault at ["vault", seed],
      the administrator record at ["admin"] and the vault authority at ["authority"].
      Distinct constructors give distinct addresses, which is what the derivation
      guarantees in practice. */
  datatype Pubkey =
    | Key(id: nat)
    | StatePda(stateSeed: U64)
    | VaultPda(vaultSeed: U64)
    | AdminPda
    | AuthorityPda

  /** The outcome of a computation that can abort. */
  datatype Result<+T, +E> = Ok(value: T) | Err(error: E)

  /** The outcome of an operation that changes state and returns nothing else. */
  datatype Outcome<+E> = Pass | Fail(error: E)
}
