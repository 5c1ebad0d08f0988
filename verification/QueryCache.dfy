/** The process-wide result cache: lookups with lazy eviction, and invalidation by table. */
module QueryCache {
  import opened Values
  import opened CacheKeys

  /** `kind` stands for the type that the value was stored as. */
  datatype Entry<V> = Entry(value: V, kind: nat, expiresAt: nat)

  /** The entries whose key does not start with the table's prefix. */
  function Retained<V>(m: map<string, Entry<V>>, table: string): map<string, Entry<V>> {
    map k | k in m && !(table + ":" <= k) :: m[k]
  }

  class Cache<V> {
    var entries: map<string, Entry<V>>

    constructor ()
      ensures entries == map[]
    {
      entries := map[];
    }

    /**
     * An entry is served while its expiry lies ahead, to those who ask for the type it was stored as. One that has
     * expired is removed on the way; one of another type stays.
     */
    method Get(key: string, kind: nat, now: nat) returns (hit: Option<V>)
      modifies this
      ensures hit.Some? <==> key in old(entries) && now < old(entries)[key].expiresAt && old(entries)[key].kind == kind
      ensures hit.Some? ==> hit.value == old(entries)[key].value
      ensures entries == if key in old(entries) && old(entries)[key].expiresAt <= now then old(entries) - {key} else old(entries)
    {
      if key !in entries {
        return None;
      }
      if entries[key].expiresAt <= now {
        entries := entries - {key};
        return None;
      }
      var stored := entries[key];
      if stored.kind != kind {
        return None;
      }
      return Some(stored.value);
    }

    method Put(key: string, value: V, kind: nat, now: nat, ttl: nat)
      modifies this
      ensures entries == old(entries)[key := Entry(value, kind, now + ttl)]
    {
      entries := entries[key := Entry(value, kind, now + ttl)];
    }

    method InvalidateTable(table: string)
      modifies this
      ensures entries == Retained(old(entries), table)
    {
      entries := map k | k in entries && !(table + ":" <= k) :: entries[k];
    }

    method Clear()
      modifies this
      ensures entries == map[]
    {
      entries := map[];
    }
  }

  /** Invalidating a table removes exactly the entries made for it, and leaves the others as they were. */
  lemma {:induction false} InvalidatesExactly<V>(m: map<string, Entry<V>>, table: string, t: string, sql: string, ps: seq<SqlValue>)
    requires ':' !in table && ':' !in t
    ensures var key := MakeKey(t, sql, ps);
            && (key in Retained(m, table) <==> key in m && t != table)
            && (key in Retained(m, table) ==> Retained(m, table)[key] == m[key])
  {
    hide MakeKey;
    PrefixIff(table, t, sql, ps);
  }
}
