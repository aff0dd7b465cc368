# Consensus hooks of the nomic peg chain, in Dafny

This project models the ABCI application `App` of the peg chain
(`chain/chain/src/main.rs`). It is the layer between the consensus engine and
the chain's key-value store, and it is built around one reserved store key,
`b"validators"`, which holds the serialised validator set (public key →
voting power).

- `init_chain` turns the engine's genesis validator list into a map with one
  `insert` per entry, so the last listing of a key wins. It writes the map
  under the reserved key and then calls the application's `initialize`.
- `check_tx` and `deliver_tx` run the same pipeline:
  1. decode the transaction bytes;
  2. read the validator map, which panics when the map is missing or corrupt;
  3. call the executor `run` with the store and a mutable validator map;
  4. only when `run` succeeds, write the map back.

  A decode failure or an execution failure is a recoverable error (`bail!`).
- `write_validators` and `read_validators` are the put/get pair on the
  reserved key. Both `.expect` their serialisation, so a failure in either one
  is a panic.

Three outcomes are kept apart: `Ok`, `Err` (recoverable, from `bail!`) and
`Fatal` (an `.expect` panic). The store is a `Store` object whose `entries`
map the hooks update in place. Each hook method is tied to a function over
the entries (`InitChainStep`, `ProcessTx`), and the lemmas are stated about
those functions.

The code that the hooks call but that is not in this file is a parameter of
type `Collaborators`:

- the serde_json serialiser and deserialiser of the validator map;
- the transaction deserialiser;
- `nomic_chain::state_machine::run`;
- `nomic_chain::state_machine::initialize`.

The model makes these assumptions. The first three are `requires` clauses of
the lemmas that need them; the last two are built into the model's types.

- `CodecRoundTrips`: bytes produced by the serialiser decode back to the same
  map. Assumed by `ReadAfterWrite`, `WriteRepairsRegistry`,
  `InitChainRecordsRequest`, `InitChainSucceedsWithTotalSerialiser` and
  `AcceptedTxPersistsValidators`.
- `KeepsValidatorsKey(c.initialize)`: `initialize` leaves the reserved key as
  it found it. Assumed by `InitChainRecordsRequest` and
  `InitChainSucceedsWithTotalSerialiser`.
- `EncodesEveryMap`: the serialiser produces bytes for every map. Assumed
  only by `InitChainSucceedsWithTotalSerialiser`, the intended half of the
  finding below.
- The serialiser's output depends only on the map's contents, because
  `encodeValidators` is a function of the map. `Written` and `HooksAgree`
  rely on this (see "## Left out").
- `store.put` always succeeds, because `Store.Put` cannot fail.
  `ReadAfterWrite`, `WriteRepairsRegistry`, `AcceptedTxPersistsValidators`,
  `InitChainRecordsRequest` and `InitChainSucceedsWithTotalSerialiser` rely on
  this (see "## Left out").

Modules:

- `ChainTypes`: bytes, `u64`/`i64`, the reserved key, outcomes, collaborators;
- `KvStore`: the store handle;
- `Registry`: `read_validators` / `write_validators`;
- `Genesis`: the genesis validator loop;
- `App`: the hooks.

The model follows the code on four points where a different design is
conceivable:

- `check_tx` writes through its store handle exactly as `deliver_tx` does,
  and the hook itself rolls nothing back. Which store the host passes it is
  outside this model.
- The validator map is a `HashMap` serialised by serde_json. No canonical key
  order is promised, so none is asserted.
- A missing or corrupt registry panics. It is not returned as an error value.
- Zero-power validators are kept. A negative `i64` power is reinterpreted by
  `as u64` as a large unsigned power.

## Model

| member | source | states |
|---|---|---|
| `KvStore.Store.Put` | chain/chain/src/main.rs:78 | `store.put` sets one entry and keeps every other entry |
| `Registry.ReadValidators` | chain/chain/src/main.rs:80-89 | the read yields a map exactly when the reserved key is present and its bytes decode; a missing key is the "not written" panic, undecodable bytes the "Failed to deserialize" panic |
| `Registry.Written` | chain/chain/src/main.rs:75-79 | writing succeeds exactly when serialisation does, and then the reserved key holds the encoding; a serialisation failure is a panic that changes nothing; no key other than the reserved one ever changes |
| `Registry.WriteValidators` | chain/chain/src/main.rs:75-79 | the store method does exactly what `Written` describes |
| `Registry.ReadAfterWrite` | chain/chain/src/main.rs:75-89 | with a round-tripping codec, reading after a successful write returns the map written |
| `Registry.WriteRepairsRegistry` | chain/chain/src/main.rs:75-89 | a successful write leaves a readable registry and adds no key besides the reserved one |
| `Genesis.AsU64` | chain/chain/src/main.rs:25 | `power as u64` gives the unsigned value congruent to the `i64` power modulo 2^64, and a non-negative power unchanged |
| `Genesis.FromListKeys` | chain/chain/src/main.rs:22-27 | the genesis map's keys are exactly the public keys in the request |
| `Genesis.FromListLast` | chain/chain/src/main.rs:22-27 | each public key maps to the converted power of its last listing (insert overwrites) |
| `Genesis.FromListSourced` | chain/chain/src/main.rs:22-27 | every entry of the genesis map comes from the last listing of its key |
| `Genesis.BuildValidatorMap` | chain/chain/src/main.rs:22-27 | the insert loop yields a map whose keys are the request's public keys, each with the power of its last listing |
| `Genesis.TwoValidatorGenesis` | chain/chain/src/main.rs:22-27 | two distinct validators with powers 70 and 30 give exactly the map {a: 70, b: 30} |
| `Genesis.DuplicateListing` | chain/chain/src/main.rs:22-27 | a key listed twice keeps its second power, and a power of -1 becomes 2^64 - 1 |
| `App.InitChainStep` | chain/chain/src/main.rs:17-33 | `init_chain` succeeds exactly when the genesis map serialises; `initialize` then runs on a store that already holds that map; otherwise the panic happens before any write |
| `App.InitChain` | chain/chain/src/main.rs:17-33 | the hook method does exactly what `InitChainStep` describes |
| `App.InitChainRecordsRequest` | chain/chain/src/main.rs:22-30 | after a successful `init_chain`, if `initialize` keeps the reserved key, the registry reads back the request's map: its keys are the listed public keys, each with the power of its last listing |
| `App.GenesisPanicsWithStringKeyedSerialiser` | chain/chain/src/main.rs:75-77 | a serialiser that round-trips but encodes only the empty map (string keys only) makes `init_chain` panic for a single genesis validator |
| `App.InitChainSucceedsWithTotalSerialiser` | chain/chain/src/main.rs:17-33 | with a round-tripping serialiser that encodes every map, `init_chain` always succeeds and the registry reads back the request's map |
| `App.ProcessTx` | chain/chain/src/main.rs:35-72 | a missing or corrupt registry is fatal and changes nothing, even for malformed bytes (the read happens before the decode is inspected); malformed bytes give an error and leave the store unchanged; a failed `run` gives an error, and the store is as `run` left it, with no write-back; a successful `run` writes back the map as `run` left it |
| `App.ExecuteTx` | chain/chain/src/main.rs:35-72 | the shared pipeline method does exactly what `ProcessTx` describes |
| `App.CheckTx` | chain/chain/src/main.rs:35-52 | `check_tx` does what `ProcessTx` describes |
| `App.DeliverTx` | chain/chain/src/main.rs:54-72 | `deliver_tx` does what `ProcessTx` describes |
| `App.HooksAgree` | chain/chain/src/main.rs:35-72 | `check_tx` and `deliver_tx` leave the same store and end in the same kind of outcome; a fatal outcome is identical |
| `App.AcceptedTxPersistsValidators` | chain/chain/src/main.rs:40-44 | an accepted transaction had a readable registry and decodable bytes; afterwards the registry reads back exactly the map `run` produced |
| `App.RejectedTxSkipsWriteBack` | chain/chain/src/main.rs:36-50 | a rejected transaction had a readable registry, and the validator map is never written back: the store is the pre-hook store (malformed bytes) or the store `run` left (failed execution) |

## Left out

- `cli/src/wallet.rs`: key-file I/O, random key generation, secp256k1 public-key derivation and P2WSH address encoding through foreign libraries. It has no logic of its own to verify.
- `main` and `ABCIStateMachine::listen` (lines 91-96): the network server.
- Signatory-set ordering and custody-script construction: `nomic_signatory_set` is not part of this model.
- The internals of `run`, `initialize`, the transaction format and the serde_json byte format: these are function parameters, constrained only by the assumptions listed above. A failed serialisation is kept as the `Fatal` outcome of `Written`; see "## Findings" for when serde_json reaches it.
- The first `.expect` in `read_validators` (line 83): a store read error. The model's store `get` cannot fail, so only the missing-key and decode panics are modelled.
- A failing `store.put` (line 78): the source discards whatever `put` returns. It uses neither `?` nor `.expect`, although the `Result` of `get` is `.expect`ed at lines 82-83. If the store's `put` can fail, `write_validators` would drop the error silently, and the hooks would answer `Ok` with the registry unwritten. The model's `Store.Put` cannot fail, so the read-back lemmas hold only for a store whose put always succeeds.
- `commit`: handled by the store and the consensus engine.
- `HashMap` iteration order: serde_json writes the map's entries in the map's iteration order (lines 76-78). That order depends on a per-map random hash seed, so the bytes stored under `b"validators"` depend on it too. The model assumes a serialiser whose output depends only on the map's contents. `Written` ("the reserved key holds the encoding") and `HooksAgree` ("both hooks leave the same store") rest on that assumption. Without it they hold only up to the byte order of the stored map.
- The `execution_result` returned by `run` on success is discarded by the source and is not modelled.

## Findings

| source | as written | input that shows it | evidently intended | confidence | as-written member | corrected member |
|---|---|---|---|---|---|---|
| chain/chain/src/main.rs:75-77 | `serde_json::to_vec` is called on a `HashMap<Vec<u8>, u64>` and `.expect`ed. serde_json's map-key serialiser accepts string-like keys only and rejects a `Vec<u8>` key because it is a sequence | `init_chain` with one genesis validator: the serialisation fails and line 77 panics | every validator map serialises, so `init_chain` succeeds and the registry reads back the request's map | not executed; a reading of serde_json's key rules | `App.GenesisPanicsWithStringKeyedSerialiser` | `App.InitChainSucceedsWithTotalSerialiser` |
