/** The store handle the hooks receive by `&mut`: a byte-keyed map updated in place. */
module KvStore {
  import opened ChainTypes

  class Store {
    var entries: Entries

    constructor (initial: Entries)
      ensures entries == initial
    {
      entries := initial;
    }

    /** `store.put(key, value)`: one entry is set, every other entry is kept. */
    method Put(key: Bytes, value: Bytes)
      modifies this
      ensures entries == old(entries)[key := value]
    {
      entries := entries[key := value];
    }
  }
}
