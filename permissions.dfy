/** Permission levels: a `permissions` table of levels keyed by permission
    name, with a cache in front of it. A permission that is asked for and
    not yet stored is created at the level the caller gives as default. */
module Permissions {

  class PermissionStore {
    var table: map<string, int>
    var cache: map<string, int>

    /** A cached level is the level in the table. */
    ghost predicate Valid()
      reads this
    {
      forall p :: p in cache ==> p in table && cache[p] == table[p]
    }

    constructor (table: map<string, int>)
      ensures Valid() && this.table == table && cache == map[]
    {
      this.table := table;
      cache := map[];
    }

    /** `create`: inserts a new row. */
    method Create(permission: string, level: int)
      requires Valid() && permission !in table
      modifies this
      ensures Valid()
      ensures table == old(table)[permission := level] && cache == old(cache)
    {
      table := table[permission := level];
    }

    /** `get`: a cached level is returned as it is; otherwise the row is read
        (or created at `default`) and its level cached. */
    method Get(permission: string, default: int) returns (level: int)
      requires Valid()
      modifies this
      ensures Valid()
      ensures level == (if permission in old(table) then old(table)[permission] else default)
      ensures permission in old(cache) ==> table == old(table) && cache == old(cache)
      ensures permission in old(table) ==> table == old(table)
      ensures permission !in old(table) ==> table == old(table)[permission := default]
      ensures cache == old(cache)[permission := level]
    {
      if permission in cache {
        return cache[permission];
      }
      if permission !in table {
        Create(permission, default);
      }
      cache := cache[permission := table[permission]];
      level := table[permission];
    }

    /** `set`: the cache is written first, then the row is created or
        overwritten. */
    method Set(permission: string, level: int)
      requires Valid()
      modifies this
      ensures Valid()
      ensures table == old(table)[permission := level]
      ensures cache == old(cache)[permission := level]
    {
      cache := cache[permission := level];
      if permission !in table {
        table := table[permission := level];
      }
      table := table[permission := level];
    }

    /** A cache entry expires. */
    method Evict(permission: string)
      requires Valid()
      modifies this
      ensures Valid()
      ensures table == old(table) && cache == old(cache) - {permission}
    {
      cache := cache - {permission};
    }
  }

  /** `get` after `set` answers the level set, whatever the default; a
      second `get` answers the same. */
  method SetThenGet(store: PermissionStore, permission: string, level: int, default: int)
    returns (first: int, second: int)
    requires store.Valid()
    modifies store
    ensures store.Valid()
    ensures first == level && second == level
    ensures store.table == old(store.table)[permission := level]
  {
    store.Set(permission, level);
    first := store.Get(permission, default);
    store.Evict(permission);
    second := store.Get(permission, default);
  }
}
