/**
 * The vault's data shapes and fixed constants: the single vault authority, the
 * stablecoin mint, the address-derivation seeds and the token's 6 decimals.
 */
module VaultTypes {

  /** A ledger account address, compared by value (`PublicKey.equals`). */
  datatype PublicKey = PublicKey(base58: string)

  /** The one vault authority; only it may run owner-only operations. */
  const VaultAuthority := PublicKey("DWpFeAKWzFdTQFxUHzsTDCdXU1ouKoxypfMvLAYSbyT")
  /** The devnet stablecoin mint. */
  const UsdcMint := PublicKey("4zMMC9srt5Ri5X14GAgXhaHii3GnPAEERYPJgZJDncDU")

  /** Seeds of the three program-derived vault addresses. */
  const VaultMetadataSeed := "vault_metadata"
  const VaultUsdcSeed := "vault_usdc"
  const YusdcMintSeed := "yusdc_mint"

  const UsdcDecimals: nat := 6
  /** Base units per whole token, 10^6. */
  const LamportsPerUsdc: nat := 1000000

  /** The vault metadata account as the ledger stores it: integer base units. */
  datatype RawMetadata = RawMetadata(
    authority: PublicKey,
    usdcBalance: nat,
    yusdcSupply: nat,
    yusdcMint: PublicKey,
    vaultUsdc: PublicKey,
    lastDepositTime: int)

  /** The vault as the front end shows it: balances in whole tokens. */
  datatype VaultInfo = VaultInfo(
    authority: PublicKey,
    usdcBalance: real,
    yusdcSupply: real,
    yusdcMint: PublicKey,
    vaultUsdc: PublicKey,
    lastDepositTime: int)

  /** The connected wallet's balances in whole tokens. */
  datatype UserBalances = UserBalances(usdcBalance: real, yusdcBalance: real)

  const ZeroBalances := UserBalances(0.0, 0.0)
}
