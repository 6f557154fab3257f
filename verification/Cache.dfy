/** The Redis cache manager: JSON values by key, with failures swallowed and counted. */
module Cache {
  import opened Prelude

  /** What Redis holds under a key: text that decodes to a value, or text that does not decode. */
  datatype Payload<V> = Decodes(value: V) | Undecodable

  function Without<K, V>(m: map<K, V>, key: K): map<K, V> {
    map k | k in m && k != key :: m[k]
  }

  /** The cache manager: Redis entries by key, and its two failure counters. */
  class CacheManager<K(==), V(==)> {
    var entries: map<K, Payload<V>>
    var consecutiveFailures: nat
    var deserializationErrors: nat

    constructor ()
      ensures entries == map[] && consecutiveFailures == 0 && deserializationErrors == 0
    {
      entries, consecutiveFailures, deserializationErrors := map[], 0, 0;
    }

    /** `reached`: Redis answered the read; `cleaned`: it answered the delete of an entry that did not decode. */
    method Get(key: K, reached: bool, cleaned: bool) returns (found: Option<V>)
      modifies this
      ensures found == if reached && key in old(entries) && old(entries)[key].Decodes?
                       then Some(old(entries)[key].value) else None
      ensures entries == if reached && cleaned && key in old(entries) && old(entries)[key].Undecodable?
                         then Without(old(entries), key) else old(entries)
      ensures consecutiveFailures ==
              if !reached then old(consecutiveFailures) + 1
              else if key !in old(entries) then old(consecutiveFailures)
              else if old(entries)[key].Decodes? || cleaned then 0
              else old(consecutiveFailures) + 1
      ensures deserializationErrors ==
              old(deserializationErrors) + if reached && key in old(entries) && old(entries)[key].Undecodable? then 1
                  else 0
    {
      found := None;
      if !reached {
        consecutiveFailures := consecutiveFailures + 1;
      } else if key in entries {
        match entries[key]
        case Decodes(value) =>
          consecutiveFailures := 0;
          found := Some(value);
        case Undecodable =>
          deserializationErrors := deserializationErrors + 1;
          var _ := Delete(key, cleaned);
      }
    }

    method Set(key: K, value: V, stored: bool) returns (ok: bool)
      modifies this
      ensures ok == stored
      ensures entries == if stored then old(entries)[key := Decodes(value)] else old(entries)
      ensures consecutiveFailures == if stored then 0 else old(consecutiveFailures) + 1
      ensures deserializationErrors == old(deserializationErrors)
    {
      ok := stored;
      if stored {
        entries := entries[key := Decodes(value)];
        consecutiveFailures := 0;
      } else {
        consecutiveFailures := consecutiveFailures + 1;
      }
    }

    method Delete(key: K, reached: bool) returns (ok: bool)
      modifies this
      ensures ok == reached
      ensures entries == if reached then Without(old(entries), key) else old(entries)
      ensures consecutiveFailures == if reached then 0 else old(consecutiveFailures) + 1
      ensures deserializationErrors == old(deserializationErrors)
    {
      ok := reached;
      if reached {
        entries := Without(entries, key);
        consecutiveFailures := 0;
      } else {
        consecutiveFailures := consecutiveFailures + 1;
      }
    }
  }
}
