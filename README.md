# Omnibets weather contract, modelled in Dafny

The omnibets NEAR contract (`near_contracts/src/lib.rs`) is a temperature oracle that guards an
MPC signer. It keeps four fields: `temperature` and `cutoff_temperature` in hundredths of a
degree, the `weatherman` account that alone reports temperatures, and a `maturity` deadline in
nanoseconds. The owner is the contract's own account, and only the owner moves the cutoff or the
deadline. Two release gates, `liquidate` and `mature`, take the hex text of an RLP-encoded EVM
transaction. Each gate classifies the text as public when it contains a whitelisted method
signature; a non-public request needs the owner. The gate then decodes the hex, hashes it with
Keccak-256 and hands a `SignRequest {payload, path, key_version}` to the signer. `liquidate`
releases only before maturity and only while the temperature is strictly above the cutoff.

Files:

- `types.dfy` (module `Types`): `uint8`/`uint32`/`uint64` ranges, `AccountId`, the 32-byte
  `Digest`, and `Option`/`Result`/`Outcome`.
- `hex.dfy` (module `Hex`): base16 decoding (section 8 of RFC 4648) as the `hex` crate performs
  it, and its inverse `Encode`. The `hex` crate is not part of this model's source. `Decode`
  follows the crate: an odd length is refused before any character is read, then the first
  non-digit (either letter case) is reported with its position.
- `classifier.dfy` (module `Classifier`): `str::find` and the whitelist loop that sets `public`.
- `contract.dfy` (module `NearContract`): the class `Contract` with its fields, constructors,
  getters, setters and gates; the lemmas about it; and the discrepancy of `mature`. The getters
  `get_temperature`, `get_cutoff_temperature`, `get_maturity_date` and `get_weatherman` are the
  functions `GetTemperature`, `GetCutoffTemperature`, `GetMaturityDate` and `GetWeatherman`,
  each returning its field.

The runtime is explicit. `Env(predecessor, current, blockTimestamp)` stands for
`env::predecessor_account_id`, `env::current_account_id` and `env::block_timestamp`.
Keccak-256 is the argument `keccak256: seq<uint8> -> Digest`. It is a total function, so it is
deterministic and always yields 32 bytes. A panic is a `Failure`/`Fail` value that carries a
`Panic`: the `require!`/`assert_eq!` message, or the hex error that `unwrap` panics on. A setter
changes nothing when it fails. `Liquidate` and `Mature` have no `modifies` clause, so they change
no field at all.

Choices where the source does not compile:

- `set_maturity_date` assigns `self.maturity_date` (lib.rs:95), but the field is `maturity`. The
  model writes `maturity`.
- `u256` is not a Rust type. The deadline is a `nat`. The block timestamp is a `uint64`.
- In `mature`, lib.rs:193 names an undefined `is_matured`, and that branch only prints. The
  model's `Mature` therefore has no time gate (see Findings). `MatureGated` adds the gate and is
  marked in the code as an assumption.

The in-file tests disagree with the code in two places, and the model follows the code. First,
the test at lib.rs:321-331 expects the message "Only the weatherman can set the cutoff
temperature", but the code says "Only the owner can set the cutoff temperature". Second,
lib.rs:316-318 moves the cutoff as the weatherman, which the owner check rejects.
`CutoffScenario` in `contract.dfy` replays that test with the owner making that call, and it
asserts that the weatherman's attempt fails.

## Model

| member | source | states |
|---|---|---|
| `NearContract.Contract.New` | near_contracts/src/lib.rs:50-59 | a new contract has temperature 0, the given cutoff and weatherman, and the default maturity |
| `NearContract.Contract.Default` | near_contracts/src/lib.rs:27-36 | the default contract has temperature 0, cutoff 3000, weatherman "weatherman.near" and the default maturity |
| `NearContract.Contract.SetTemperature` | near_contracts/src/lib.rs:78-85 | succeeds iff the caller is the weatherman; on success the temperature is the new value with no bound check; on failure it panics with the weatherman message and the temperature keeps its old value; cutoff and maturity never change |
| `NearContract.Contract.SetMaturityDate` | near_contracts/src/lib.rs:88-96 | succeeds iff the caller is the contract's own account; only `maturity` changes, to any value including 0; a failure panics with the owner message and changes nothing |
| `NearContract.Contract.SetCutoffTemperature` | near_contracts/src/lib.rs:99-107 | succeeds iff the caller is the contract's own account; only the cutoff changes, to any value including 0; a failure panics with the owner message and changes nothing |
| `NearContract.Contract.IsAboveCutoff` | near_contracts/src/lib.rs:111-113 | the predicate itself: the temperature is strictly greater than the cutoff; the two rows below state what it does at the gate and after a setter |
| `NearContract.LiquidateAtCutoffIsRefused` | near_contracts/src/lib.rs:150-152 | an authorized, decodable `liquidate` before maturity with the temperature equal to the cutoff fails with "Temperature is below the cutoff" |
| `NearContract.LoweringCutoffMakesAbove` | near_contracts/src/lib.rs:99-113 | after the owner sets the cutoff below the current temperature, the contract is above the cutoff |
| `NearContract.Contract.IsMatured` | near_contracts/src/lib.rs:119-121 | the predicate itself: the block time is at or past the deadline |
| `NearContract.MaturityIsMonotone` | near_contracts/src/lib.rs:119-121 | with the deadline fixed, a contract matured at time t is matured at every later time |
| `Classifier.Find` | near_contracts/src/lib.rs:131 | `find` returns a position iff the pattern occurs in the text, and the position it returns is the first occurrence |
| `Classifier.ClassifyPayload` | near_contracts/src/lib.rs:129-134 | after the scan, `public` holds iff some whitelist entry occurs as a contiguous substring of the payload text |
| `Classifier.WhitelistEntryIsHex` | near_contracts/src/lib.rs:6 | the one whitelist entry is 32 hex digits, decodes, and spells 16 bytes |
| `Classifier.PublicWhateverSurrounds` | near_contracts/src/lib.rs:129-134 | a public payload stays public with any text before or after it, so the signature also counts inside data or off a byte boundary |
| `Classifier.ClassificationIsTextual` | near_contracts/src/lib.rs:129-134 | the whitelist entry and its spelling with an upper-case `A` decode to the same bytes, yet only the lower-case text is public |
| `Hex.Decode` | near_contracts/src/lib.rs:145 | an odd length gives `OddLength`; otherwise decoding succeeds iff every character is a hex digit and yields one byte per digit pair; a failure names the first non-digit and its position |
| `Hex.DecodeEncode` | near_contracts/src/lib.rs:145 | decoding the hex text of any byte string gives back those bytes |
| `Hex.DecodeSeesOnlyDigitValues` | near_contracts/src/lib.rs:145 | two texts that agree position by position on digit values decode to the same bytes |
| `NearContract.Contract.Liquidate` | near_contracts/src/lib.rs:125-164 | releases a request iff (public or owner), the hex decodes, the contract is not matured and the temperature is above the cutoff; the request carries keccak256 of the decoded bytes with `path` and `key_version` unchanged; failures come in the order authorization, decode, matured, below cutoff, each with its own panic; no field changes |
| `NearContract.Contract.Mature` | near_contracts/src/lib.rs:167-206 | as written, releases a request iff (public or owner) and the hex decodes, with the same request; failures come in the order authorization, then decode; temperature, cutoff and block time play no part; no field changes |
| `NearContract.MatureReleasesBeforeMaturity` | near_contracts/src/lib.rs:191-195 | at block time 0, long before the default deadline, the owner's `mature` call still releases a request |
| `NearContract.Contract.MatureGated` | near_contracts/src/lib.rs:191-195 | an assumed variant of `mature` that also rejects with "Contract is not matured" before the deadline: it releases iff (public or owner), the hex decodes and the contract is matured |
| `NearContract.GatedReleasesAreExclusive` | near_contracts/src/lib.rs:150 | at one block time, `Liquidate` and the gated `mature` never both release a request |

## Left out

- The MPC cross-contract call, `MPC_CONTRACT_ACCOUNT_ID`, `GAS`, `ATTACHED_DEPOSIT` and `COST` are promise plumbing outside the contract's decision. A gate returns the `SignRequest` it would send.
- Keccak-256 internals are not modelled. The hash is the argument `keccak256`, and only its determinism and its 32-byte result are used.
- The NEAR macros (`#[near]`, `#[init]`, `#[private]` on `new`) and serde serialisation are runtime plumbing. In particular, the restriction that only the contract itself may call `new` is not modelled.
- The commented-out `create_maket` (lib.rs:208-249) is not modelled. The same holds for the unused `owner` and `deposit` locals and the `println!` at lib.rs:194.
- `src/app.ts` (CLI, environment variables, address derivation, network sends) and `near_contracts/tests/test_basics.rs` (sandbox deployment) are I/O and are not modelled.
- Hex.Decode: payload text is a sequence of characters, not UTF-8 bytes. Success, failure and the decoded bytes agree with the byte-level decoder. For a payload with non-ASCII characters, the reported error kind, character or position can differ.
- Classifier.Find: returns a character position where Rust returns a byte position. The gates use only whether a position exists, and that agrees for the ASCII whitelist entry.
- A panic carries only the message given in the source, not the full text that `assert_eq!` or `unwrap` prints.
- The clock's monotonicity belongs to the runtime. `MaturityIsMonotone` states what follows from it.

## Findings

| source | as written | input that shows it | evidently intended | confidence | as-written member | corrected member |
|---|---|---|---|---|---|---|
| near_contracts/src/lib.rs:191-195 | the maturity "check" in `mature` only prints; nothing is rejected before the deadline, and the condition names an undefined `is_matured` | the owner calls `mature` with payload "" at block time 0, before `DEFAULT_MATURITY`: a signing request is released | reject until `self.is_matured()`, as the comment "check if the market is already matured" and the sibling `liquidate` gate suggest | low; not executed, and the line does not compile as written | `NearContract.MatureReleasesBeforeMaturity` (about `NearContract.Contract.Mature`) | `NearContract.Contract.MatureGated` |
