/**
 * The validator registry: `write_validators` and `read_validators`, a put/get
 * pair on the reserved key `b"validators"`. A failure in either one is a
 * panic (`.expect`), so both report `Fatal` rather than `Err`.
 */
module Registry {
  import opened ChainTypes
  import opened KvStore

  const MissingMap: string := "Validator map was not written to store"
  const UndecodableMap: string := "Failed to deserialize validator bytes"
  const UnencodableMap: string := "Failed to serialize validator map on init_chain"

  /** What `read_validators` yields: the decoded map, or the panic it raises. */
  datatype Loaded = Loaded(validators: ValidatorMap) | Corrupt(reason: string)

  /**
   * `read_validators`: fetch the reserved key and decode it. It panics when
   * the key is absent and when its bytes do not decode as a map.
   */
  function ReadValidators(entries: Entries, c: Collaborators): (r: Loaded)
    ensures r.Loaded? <==> ValidatorsKey in entries && c.decodeValidators(entries[ValidatorsKey]).Some?
    ensures r.Loaded? ==> c.decodeValidators(entries[ValidatorsKey]) == Some(r.validators)
    ensures ValidatorsKey !in entries ==> r == Corrupt(MissingMap)
    ensures ValidatorsKey in entries && c.decodeValidators(entries[ValidatorsKey]).None? ==>
              r == Corrupt(UndecodableMap)
  {
    if ValidatorsKey !in entries then Corrupt(MissingMap)
    else
      match c.decodeValidators(entries[ValidatorsKey])
      case None => Corrupt(UndecodableMap)
      case Some(v) => Loaded(v)
  }

  /**
   * The effect of `write_validators`: serialise the map and put it under the
   * reserved key. Serialisation failure panics before the put.
   */
  function Written(entries: Entries, v: ValidatorMap, c: Collaborators): (r: Step)
    ensures r.response.Ok? <==> c.encodeValidators(v).Some?
    ensures r.response.Ok? ==> ValidatorsKey in r.store && r.store[ValidatorsKey] == c.encodeValidators(v).value
    ensures !r.response.Ok? ==> r == Step(Fatal(UnencodableMap), entries)
    // only the reserved key can change
    ensures r.store - {ValidatorsKey} == entries - {ValidatorsKey}
  {
    match c.encodeValidators(v)
    case None => Step(Fatal(UnencodableMap), entries)
    case Some(bytes) => Step(Ok, entries[ValidatorsKey := bytes])
  }

  /** `write_validators` on the store handle, as a single `put`. */
  method WriteValidators(store: Store, v: ValidatorMap, c: Collaborators) returns (r: Response)
    modifies store
    ensures Step(r, store.entries) == Written(old(store.entries), v, c)
  {
    var bytes := c.encodeValidators(v);
    if bytes.None? {
      r := Fatal(UnencodableMap);
      return;
    }
    store.Put(ValidatorsKey, bytes.value);
    r := Ok;
  }

  /** Reading back what was written gives the same map (given a round-tripping codec). */
  lemma ReadAfterWrite(entries: Entries, v: ValidatorMap, c: Collaborators)
    requires CodecRoundTrips(c)
    ensures Written(entries, v, c).response.Ok? ==> ReadValidators(Written(entries, v, c).store, c) == Loaded(v)
  {
  }

  /** A write that succeeds makes a missing or corrupt registry readable again. */
  lemma WriteRepairsRegistry(entries: Entries, v: ValidatorMap, c: Collaborators)
    requires CodecRoundTrips(c)
    requires c.encodeValidators(v).Some?
    ensures ReadValidators(Written(entries, v, c).store, c).Loaded?
    ensures Written(entries, v, c).store.Keys == entries.Keys + {ValidatorsKey}
  {
    ReadAfterWrite(entries, v, c);
  }
}
