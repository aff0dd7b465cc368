/**
 * Values shared by the consensus hooks of the peg chain: byte strings, the
 * fixed-width integers the hooks convert between, the reserved store key, the
 * three outcomes a hook can end in, and the collaborators the hooks call but
 * whose code lies outside this model.
 */
module ChainTypes {

  /** One byte of a key, a value or a wire transaction. */
  newtype Byte = x: int | 0 <= x < 0x100

  type Bytes = seq<Byte>

  const TwoTo64: int := 0x1_0000_0000_0000_0000

  /** Rust's `u64`. */
  type U64 = x: int | 0 <= x < TwoTo64

  /** Rust's `i64`, the type of a validator's power in an ABCI request. */
  type I64 = x: int | -0x8000_0000_0000_0000 <= x < 0x8000_0000_0000_0000

  /** The contents of the key-value store. */
  type Entries = map<Bytes, Bytes>

  /** A validator set: public key bytes to voting power. */
  type ValidatorMap = map<Bytes, U64>

  /** The reserved key `b"validators"`, spelt out byte by byte. */
  const ValidatorsKey: Bytes := [118, 97, 108, 105, 100, 97, 116, 111, 114, 115]

  /** An application transaction; its shape belongs to the executor. */
  type Transaction

  /** What the hooks hand to the executor; the only variant used is a transaction. */
  datatype Action = ActionTransaction(tx: Transaction)

  datatype Option<T> = None | Some(value: T)

  /**
   * How a hook ends: `Ok`, a recoverable `Err` (a `bail!`), or `Fatal`
   * (an `.expect` that panics and takes the node down).
   */
  datatype Response = Ok | Err(reason: string) | Fatal(reason: string)

  /** A hook's response together with the store it leaves behind. */
  datatype Step = Step(response: Response, store: Entries)

  /**
   * What the executor reports: whether it succeeded, the store as it left it,
   * and the validator map as it left it (it receives the map by `&mut`).
   */
  datatype Execution = Execution(succeeded: bool, store: Entries, validators: ValidatorMap)

  /**
   * The code the hooks call but that is not part of this model:
   * the validator-map serialiser and deserialiser, the transaction
   * deserialiser, the executor `run` and the genesis `initialize`.
   */
  datatype Collaborators = Collaborators(
    encodeValidators: ValidatorMap -> Option<Bytes>,
    decodeValidators: Bytes -> Option<ValidatorMap>,
    decodeTx: Bytes -> Option<Transaction>,
    run: (Entries, Action, ValidatorMap) -> Execution,
    initialize: Entries -> Entries)

  /** The one thing assumed of the serialiser: what it encodes decodes back. */
  ghost predicate CodecRoundTrips(c: Collaborators) {
    forall v: ValidatorMap :: c.encodeValidators(v).Some? ==>
      c.decodeValidators(c.encodeValidators(v).value) == Some(v)
  }
}
