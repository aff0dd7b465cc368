/**
 * The consensus hooks of the `App` application: `init_chain`, `check_tx` and
 * `deliver_tx`. Each hook is a method on the store handle; each is tied to a
 * function over the store's entries that says what the hook leaves behind.
 */
module App {
  import opened ChainTypes
  import opened KvStore
  import opened Registry
  import opened Genesis

  /** Which of the two transaction hooks is running; it only shows in error text. */
  datatype Hook = CheckTxHook | DeliverTxHook

  function HookName(h: Hook): string
  {
    match h
    case CheckTxHook => "check_tx"
    case DeliverTxHook => "deliver_tx"
  }

  function DeserializeError(h: Hook): string
  {
    "error deserializing tx (" + HookName(h) + ")"
  }

  function ExecuteError(h: Hook): string
  {
    "error executing tx (" + HookName(h) + ")"
  }

  /** A store transformer that leaves the reserved key as it found it. */
  ghost predicate KeepsValidatorsKey(initialize: Entries -> Entries)
  {
    forall e :: ValidatorsKey in e ==>
      ValidatorsKey in initialize(e) && initialize(e)[ValidatorsKey] == e[ValidatorsKey]
  }

  /**
   * What `init_chain` leaves behind: the request's map is written under the
   * reserved key, and then `initialize` runs on that store. A serialisation
   * panic stops the hook before anything is written or initialised.
   */
  function InitChainStep(entries: Entries, req: seq<RequestValidator>, c: Collaborators): (r: Step)
    ensures r.response.Ok? <==> c.encodeValidators(FromList(req)).Some?
    ensures !r.response.Ok? ==> r == Step(Fatal(UnencodableMap), entries)
    // initialize receives the store that already holds the genesis map
    ensures r.response.Ok? ==> r.store == c.initialize(entries[ValidatorsKey := c.encodeValidators(FromList(req)).value])
  {
    var written := Written(entries, FromList(req), c);
    if written.response.Ok? then Step(Ok, c.initialize(written.store)) else written
  }

  /**
   * What `check_tx` and `deliver_tx` leave behind. The validator map is read
   * before the decoded transaction is inspected, so a missing or corrupt
   * registry is fatal even for malformed bytes. A malformed transaction and a
   * failed execution are recoverable errors that do not write the registry;
   * after a successful execution the map as `run` left it is written back.
   */
  function ProcessTx(entries: Entries, txBytes: Bytes, c: Collaborators, hook: Hook): (r: Step)
    ensures ReadValidators(entries, c).Corrupt? ==> r == Step(Fatal(ReadValidators(entries, c).reason), entries)
    ensures ValidatorsKey !in entries ==> r == Step(Fatal(MissingMap), entries)
    ensures r.response.Err? <==>
              ReadValidators(entries, c).Loaded? &&
              (c.decodeTx(txBytes).None? ||
               !c.run(entries, ActionTransaction(c.decodeTx(txBytes).value), ReadValidators(entries, c).validators).succeeded)
    ensures ReadValidators(entries, c).Loaded? && c.decodeTx(txBytes).None? ==>
              r == Step(Err(DeserializeError(hook)), entries)
    ensures ReadValidators(entries, c).Loaded? && c.decodeTx(txBytes).Some? ==>
              var exec := c.run(entries, ActionTransaction(c.decodeTx(txBytes).value), ReadValidators(entries, c).validators);
              && (!exec.succeeded ==> r == Step(Err(ExecuteError(hook)), exec.store))
              && (exec.succeeded ==> r == Written(exec.store, exec.validators, c))
  {
    match ReadValidators(entries, c)
    case Corrupt(reason) => Step(Fatal(reason), entries)
    case Loaded(validators) =>
      match c.decodeTx(txBytes)
      case None => Step(Err(DeserializeError(hook)), entries)
      case Some(tx) =>
        var exec := c.run(entries, ActionTransaction(tx), validators);
        if exec.succeeded then Written(exec.store, exec.validators, c)
        else Step(Err(ExecuteError(hook)), exec.store)
  }

  /** `App::init_chain`. */
  method InitChain(store: Store, req: seq<RequestValidator>, c: Collaborators) returns (r: Response)
    modifies store
    ensures Step(r, store.entries) == InitChainStep(old(store.entries), req, c)
  {
    var validators := BuildValidatorMap(req);
    r := WriteValidators(store, validators, c);
    if r.Fatal? {
      return;
    }
    // `initialize` updates the store in place
    store.entries := c.initialize(store.entries);
    r := Ok;
  }

  /** The pipeline that `check_tx` and `deliver_tx` both run. */
  method ExecuteTx(store: Store, txBytes: Bytes, c: Collaborators, hook: Hook) returns (r: Response)
    modifies store
    ensures Step(r, store.entries) == ProcessTx(old(store.entries), txBytes, c, hook)
  {
    var tx := c.decodeTx(txBytes);
    var loaded := ReadValidators(store.entries, c);
    if loaded.Corrupt? {
      r := Fatal(loaded.reason);
      return;
    }
    var validators := loaded.validators;
    match tx
    case None =>
      r := Err(DeserializeError(hook));
    case Some(t) =>
      // `run` updates the store in place and the validator map through `&mut`
      var exec := c.run(store.entries, ActionTransaction(t), validators);
      store.entries := exec.store;
      validators := exec.validators;
      if exec.succeeded {
        r := WriteValidators(store, validators, c);
      } else {
        r := Err(ExecuteError(hook));
      }
  }

  /** `App::check_tx`. */
  method CheckTx(store: Store, txBytes: Bytes, c: Collaborators) returns (r: Response)
    modifies store
    ensures Step(r, store.entries) == ProcessTx(old(store.entries), txBytes, c, CheckTxHook)
  {
    r := ExecuteTx(store, txBytes, c, CheckTxHook);
  }

  /** `App::deliver_tx`. */
  method DeliverTx(store: Store, txBytes: Bytes, c: Collaborators) returns (r: Response)
    modifies store
    ensures Step(r, store.entries) == ProcessTx(old(store.entries), txBytes, c, DeliverTxHook)
  {
    r := ExecuteTx(store, txBytes, c, DeliverTxHook);
  }

  /**
   * After `init_chain`, if `initialize` leaves the reserved key alone, the
   * registry reads back exactly the request's validators: its keys are the
   * listed public keys and each has the power of its last listing.
   */
  lemma InitChainRecordsRequest(entries: Entries, req: seq<RequestValidator>, c: Collaborators)
    requires CodecRoundTrips(c)
    requires KeepsValidatorsKey(c.initialize)
    ensures InitChainStep(entries, req, c).response.Ok? ==>
              ReadValidators(InitChainStep(entries, req, c).store, c) == Loaded(FromList(req))
    ensures InitChainStep(entries, req, c).response.Ok? ==>
              var read := ReadValidators(InitChainStep(entries, req, c).store, c).validators;
              && read.Keys == PubKeys(req)
              && forall i :: LastListing(req, i) ==> req[i].pubKey in read && read[req[i].pubKey] == AsU64(req[i].power)
  {
    var m := FromList(req);
    ReadAfterWrite(entries, m, c);
    FromListKeys(req);
    forall i | LastListing(req, i) ensures req[i].pubKey in m && m[req[i].pubKey] == AsU64(req[i].power) {
      FromListLast(req, i);
    }
  }

  /** A serialiser that produces bytes for every validator map. */
  ghost predicate EncodesEveryMap(c: Collaborators)
  {
    forall v: ValidatorMap :: c.encodeValidators(v).Some?
  }

  /** The bytes `{}`: the only validator map a string-keyed JSON writer can produce here. */
  const EmptyObject: Bytes := [123, 125]

  /**
   * A serialiser that rejects every key that is not a string, so every
   * non-empty map of byte-vector keys; the other collaborators are inert.
   */
  function StringKeyedSerialiser(): Collaborators
  {
    Collaborators(
      v => if v == map[] then Some(EmptyObject) else None,
      b => if b == EmptyObject then Some(map[]) else None,
      b => None,
      (e, a, v) => Execution(false, e, v),
      e => e)
  }

  /**
   * As written: a serialiser that round-trips yet accepts only string keys
   * makes `init_chain` panic for a single genesis validator.
   */
  lemma GenesisPanicsWithStringKeyedSerialiser(entries: Entries, pk: Bytes, power: I64)
    ensures CodecRoundTrips(StringKeyedSerialiser())
    ensures InitChainStep(entries, [RequestValidator(pk, power)], StringKeyedSerialiser()) ==
              Step(Fatal(UnencodableMap), entries)
  {
    var req := [RequestValidator(pk, power)];
    assert req[..0] == [];
    assert pk in FromList(req);
  }

  /**
   * As intended: with a serialiser that encodes every map, `init_chain`
   * always succeeds and records the request's validators.
   */
  lemma InitChainSucceedsWithTotalSerialiser(entries: Entries, req: seq<RequestValidator>, c: Collaborators)
    requires CodecRoundTrips(c)
    requires EncodesEveryMap(c)
    requires KeepsValidatorsKey(c.initialize)
    ensures InitChainStep(entries, req, c).response.Ok?
    ensures ReadValidators(InitChainStep(entries, req, c).store, c) == Loaded(FromList(req))
  {
    InitChainRecordsRequest(entries, req, c);
  }

  /**
   * `check_tx` and `deliver_tx` leave the same store and end in the same kind
   * of outcome; only the text of a recoverable error names the hook. This
   * holds by construction here, since both run `ExecuteTx`; it reflects that
   * the two hook bodies in the source match except for their `bail!` texts.
   */
  lemma HooksAgree(entries: Entries, txBytes: Bytes, c: Collaborators)
    ensures ProcessTx(entries, txBytes, c, CheckTxHook).store == ProcessTx(entries, txBytes, c, DeliverTxHook).store
    ensures ProcessTx(entries, txBytes, c, CheckTxHook).response.Ok? <==> ProcessTx(entries, txBytes, c, DeliverTxHook).response.Ok?
    ensures ProcessTx(entries, txBytes, c, CheckTxHook).response.Err? <==> ProcessTx(entries, txBytes, c, DeliverTxHook).response.Err?
    ensures ProcessTx(entries, txBytes, c, CheckTxHook).response.Fatal? ==>
              ProcessTx(entries, txBytes, c, CheckTxHook).response == ProcessTx(entries, txBytes, c, DeliverTxHook).response
  {
  }

  /**
   * An accepted transaction leaves a readable registry holding exactly the
   * map `run` produced.
   */
  lemma AcceptedTxPersistsValidators(entries: Entries, txBytes: Bytes, c: Collaborators, hook: Hook)
    requires CodecRoundTrips(c)
    requires ProcessTx(entries, txBytes, c, hook).response.Ok?
    ensures ReadValidators(entries, c).Loaded? && c.decodeTx(txBytes).Some?
    ensures ReadValidators(ProcessTx(entries, txBytes, c, hook).store, c) ==
              Loaded(c.run(entries, ActionTransaction(c.decodeTx(txBytes).value), ReadValidators(entries, c).validators).validators)
  {
    var exec := c.run(entries, ActionTransaction(c.decodeTx(txBytes).value), ReadValidators(entries, c).validators);
    ReadAfterWrite(exec.store, exec.validators, c);
  }

  /**
   * A rejected transaction never has its validator map written back: the
   * store is the one before the hook (malformed bytes) or the one `run`
   * left (failed execution).
   */
  lemma RejectedTxSkipsWriteBack(entries: Entries, txBytes: Bytes, c: Collaborators, hook: Hook)
    requires ProcessTx(entries, txBytes, c, hook).response.Err?
    ensures ReadValidators(entries, c).Loaded?
    ensures c.decodeTx(txBytes).None? ==> ProcessTx(entries, txBytes, c, hook).store == entries
    ensures c.decodeTx(txBytes).Some? ==>
              ProcessTx(entries, txBytes, c, hook).store ==
              c.run(entries, ActionTransaction(c.decodeTx(txBytes).value), ReadValidators(entries, c).validators).store
  {
  }
}
