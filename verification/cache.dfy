/**
 The CVE cache of src/cveapi/cache.rs. The Rust code keeps it in a global
 `static mut Option<HashMap>`; here that global is an explicit state value,
 `None` before initialisation, and each operation takes the state and (for
 the mutating ones) returns the new state.
 */
module Cache {
  import opened Wrappers
  import opened Models

  type CveCache = Option<map<string, Vulnerability>>

  /** The state before `init_cve_cache` has run. */
  const UNINITIALISED: CveCache := None

  /** `init_cve_cache`: create an empty table unless one exists already. */
  function Init(c: CveCache): (r: CveCache)
    ensures r.Some?
    ensures c.Some? ==> r == c
    ensures c.None? ==> r.value == map[]
  {
    if c.None? then Some(map[]) else c
  }

  /** `get_from_cache`: the entry for `id`, if the cache exists and has one. */
  function Get(c: CveCache, id: string): (r: Option<Vulnerability>)
    ensures r.Some? <==> c.Some? && id in c.value
    ensures r.Some? ==> r.value == c.value[id]
  {
    if c.Some? && id in c.value then Some(c.value[id]) else None
  }

  /** `add_to_cache`: insert or overwrite the entry for `id`; without a cache, nothing happens. */
  function Add(c: CveCache, id: string, v: Vulnerability): (r: CveCache)
    ensures c.None? ==> r.None?
    ensures c.Some? ==> r.Some? && r.value.Keys == c.value.Keys + {id}
  {
    if c.Some? then Some(c.value[id := v]) else c
  }

  /** Initialising twice is initialising once. */
  lemma InitIdempotent(c: CveCache)
    ensures Init(Init(c)) == Init(c)
  {
  }

  /** Initialising never loses an entry. */
  lemma InitKeepsEntries(c: CveCache, id: string)
    requires Get(c, id).Some?
    ensures Get(Init(c), id) == Get(c, id)
  {
  }

  /** Before initialisation, reads miss and writes are dropped. */
  lemma UninitialisedInert(id: string, v: Vulnerability)
    ensures Get(UNINITIALISED, id).None?
    ensures Add(UNINITIALISED, id, v) == UNINITIALISED
    ensures Get(Add(UNINITIALISED, id, v), id).None?
  {
  }

  /** Once initialised, a written entry reads back. */
  lemma GetAfterAdd(c: CveCache, id: string, v: Vulnerability)
    requires c.Some?
    ensures Get(Add(c, id, v), id) == Some(v)
  {
  }

  /** Writing one key leaves every other key's entry as it was. */
  lemma AddLeavesOthers(c: CveCache, id: string, other: string, v: Vulnerability)
    requires other != id
    ensures Get(Add(c, id, v), other) == Get(c, other)
  {
  }

  /** A later write of the same key wins. */
  lemma AddOverwrites(c: CveCache, id: string, v1: Vulnerability, v2: Vulnerability)
    ensures Add(Add(c, id, v1), id, v2) == Add(c, id, v2)
  {
    if c.Some? {
      assert c.value[id := v1][id := v2] == c.value[id := v2];
    }
  }
}
