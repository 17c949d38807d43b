# Optimism deposit transactions — a Dafny model

This project models the deposit transaction kind of an OP-Stack execution
client (go-ethereum's `core/types/tx_optimism_deposit_tx.go`). A deposit
enters the chain from the parent chain instead of being signed by a user key.
It still offers every operation that other transaction kinds offer, but most
of them are fixed:

- the type tag is always `0x7E`;
- the chain id, fee cap, tip cap, gas price and effective gas price are zero;
- the nonce is zero and there is no effective nonce;
- the signature is the zero triple, and setting a signature does nothing;
- asking for a signing hash is a usage error.

The sender is stored in the record, and `Transaction.From` reads it straight
from an envelope of the deposit kind.

Files:

- `wrappers.dfy` (module `Wrappers`): `Option` stands for a nil-able pointer.
  `Result` stands for an operation that panics instead of returning.
- `common.dfy` (module `Common`): `Hash` (32 bytes), `Address` (20 bytes) and
  `uint64`. `BigInt` is a mutable integer cell reached through a pointer, like
  `*big.Int`. `CopyBytes` copies a byte buffer.
- `tx_optimism_deposit_tx.dfy` (module `Types`): the record as the class
  `OptimismDepositTx`, its deep copy, the accessors, and the envelope
  `Transaction` with its sender extraction.

The record is a class because the source updates it in place. `Copy` fills in
a new record and writes into new integer cells. `EffectiveGasPrice` writes
into the caller's cell. `View()` reads a record as a value (`DepositFields`),
and `CopyOf` says, on values, what a copy holds. `Copy` is proved to produce
exactly `CopyOf` of its source. It also leaves the source untouched and shares
no object with it.

## Model

| member | source | states |
|---|---|---|
| `Common.BigInt.constructor` | core/types/tx_optimism_deposit_tx.go:75-77 | `new(big.Int)` is a cell holding zero |
| `Common.BigInt.Set` | core/types/tx_optimism_deposit_tx.go:61-64 | `Set` overwrites the receiver with the argument's value (also when both are the same cell) and returns the receiver itself |
| `Common.CopyBytes` | core/types/tx_optimism_deposit_tx.go:58 | the payload copy is a newly allocated buffer holding the same bytes in the same order |
| `Types.OptimismDepositTx.constructor` | core/types/tx_optimism_deposit_tx.go:29-46 | a record holds the eight fields as given; `To`, `Mint` and `Value` may be absent |
| `Types.CopyOf` | core/types/tx_optimism_deposit_tx.go:49-67 | a copy's value is always present: the source's value if it has one, otherwise zero; every other field, including an absent `To` or `Mint`, is the source's |
| `Types.NilValueCopiesAsZero` | core/types/tx_optimism_deposit_tx.go:53-65 | a copy cannot tell a nil value from a zero one: every record with a nil value differs from the same record with a zero value, yet both have the same copy; meanwhile an absent recipient or mint is never confused with a present one |
| `Types.OptimismDepositTx.Copy` | core/types/tx_optimism_deposit_tx.go:49-67 | the copy is a new record with the same source hash, sender, gas, system flag and recipient (absent stays absent); its payload buffer is newly allocated and holds the same bytes; `Mint` is absent iff the source's is, otherwise a new cell with the same amount; `Value` is a new cell holding the source's amount, or zero when the source's is nil; the copy shares no object with the source; the source reads as before; as values the copy is `CopyOf` the source |
| `Types.ModifyCopy` | core/types/tx_optimism_deposit_tx.go:48-67 | after a copy's gas, value cell, mint cell and first payload byte are changed in place, the copy holds exactly those new values on top of what it copied, and the source record reads exactly as before |
| `Types.ModifySource` | core/types/tx_optimism_deposit_tx.go:48-67 | after the source's gas, value cell and first payload byte are changed in place (and nothing else may change), the copy still holds exactly what it copied, and the source holds exactly the new values on top of what it held; a source whose mint cell is its value cell sees the new value as its mint too |
| `Types.OptimismDepositTx.TxType` | core/types/tx_optimism_deposit_tx.go:70 | the type tag is `0x7E` for every record |
| `Types.OptimismDepositTx.ChainId` | core/types/tx_optimism_deposit_tx.go:71 | the chain id is zero for every record |
| `Types.OptimismDepositTx.AccessList` | core/types/tx_optimism_deposit_tx.go:72 | the access list is empty for every record |
| `Types.AccessorsReadFields` | core/types/tx_optimism_deposit_tx.go:73-82 | `Data`, `Gas`, `Value`, `From`, `To` and `IsSystemTx` report the record's own fields; `Data` hands out the record's own buffer, not a copy, and `Value` its own cell, which may be nil |
| `Types.OptimismDepositTx.GasFeeCap` | core/types/tx_optimism_deposit_tx.go:75 | the fee cap is zero, in a new cell on every call |
| `Types.OptimismDepositTx.GasTipCap` | core/types/tx_optimism_deposit_tx.go:76 | the tip cap is zero, in a new cell on every call |
| `Types.OptimismDepositTx.GasPrice` | core/types/tx_optimism_deposit_tx.go:77 | the gas price is zero, in a new cell on every call |
| `Types.OptimismDepositTx.Nonce` | core/types/tx_optimism_deposit_tx.go:79 | the nonce is zero for every record |
| `Types.OptimismDepositTx.EffectiveGasPrice` | core/types/tx_optimism_deposit_tx.go:84-86 | whatever the base fee (even nil), the caller's cell `dst` is set to zero and returned; nothing else changes |
| `Types.OptimismDepositTx.EffectiveNonce` | core/types/tx_optimism_deposit_tx.go:88 | the effective nonce is absent for every record |
| `Types.OptimismDepositTx.SigHash` | core/types/tx_optimism_deposit_tx.go:90-92 | asking for the signing hash fails with "deposit cannot be signed" for every chain id; it never yields a hash |
| `Types.OptimismDepositTx.RawSignatureValues` | core/types/tx_optimism_deposit_tx.go:94-96 | the signature triple is (0, 0, 0) for every record |
| `Types.OptimismDepositTx.SetSignatureValues` | core/types/tx_optimism_deposit_tx.go:98-100 | setting any signature changes nothing: the record and everything it points to read as before |
| `Types.Transaction.Type` | core/types/tx_optimism_deposit_tx.go:115 | an envelope holding a deposit has type tag `0x7E`; an envelope of any other kind has that kind's own tag |
| `Types.Transaction.From` | core/types/tx_optimism_deposit_tx.go:114-119 | sender extraction succeeds exactly when the envelope holds a deposit, and then yields that deposit's `From`; an envelope whose tag is not `0x7E` fails with the usage error, never with a default address |

## Left out

- `encode` and `decode` (core/types/tx_optimism_deposit_tx.go:102-108) only hand the record to the RLP library. That library is not part of this model. So the wire format, the `rlp:"nil"` absence markers on `To` and `Mint`, and the round-trip property are not modelled.
- `common.Big0` is a single shared package-level integer. `ChainId` and `RawSignatureValues` return the value 0 instead of a pointer to that shared cell, so aliasing through it is not modelled. `GasFeeCap`, `GasTipCap` and `GasPrice` do return new cells, as the source does.
- `big.Int` is modelled as a cell holding an unbounded `int`. Its internal representation is not modelled.
- `To` is held as an optional address value. So `copyAddressPtr` is the identity, and sharing the pointed-to address between two records is not modelled.
- A nil `Data` slice and an empty one are not told apart. Both are a buffer of length 0.
- `EffectiveGasPrice` takes a non-null `dst`. A nil `dst` makes the source panic with a nil dereference, which is not modelled.
- The `Transaction` envelope holds only its inner record. Its caches (hash, size, sender) and every other operation are not part of this model. Other transaction kinds are reduced to their type tag. The model assumes that they do not expose a `from()` accessor. If the tag of such an envelope were `0x7E`, the type assertion at core/types/tx_optimism_deposit_tx.go:118 would panic; this is modelled as the `NoSenderAccessor` error.
- Panics are modelled as `Failure` results carrying a `UsageError`.
