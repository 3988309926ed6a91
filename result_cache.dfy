/** The per-instance result cache `resultsCached`, shared by both directions
    of a transformer: keyed by `getCacheHash($id)`, holding the entity a
    successful lookup found. Failed lookups are never cached. */
module ResultCache {
  import opened Php
  import opened Doctrine

  /** What `getCacheHash` digests: the builder's object hash, the root alias,
      the identifier field and `(string)$id`. The md5 of their JSON encoding
      is taken to be injective, so the tuple itself stands for the hash. */
  datatype CacheKey = CacheKey(builder: nat, rootAlias: string, identifier: string, key: string)

  type Cache = map<CacheKey, Entity>

  /** `getCacheHash($id)` for a scalar `$id`. */
  function Hash(builder: nat, rootAlias: string, identifier: string, id: Value): CacheKey
    requires IsScalar(id)
  {
    CacheKey(builder, rootAlias, identifier, StringForm(id))
  }

  /** Within one transformer (fixed builder, alias and identifier) two keys
      share a cache entry exactly when their string forms are equal: `2` and
      `"2"` share one, `"2"` and `"02"` do not. */
  lemma HashByStringForm(builder: nat, rootAlias: string, identifier: string, x: Value, y: Value)
    requires IsScalar(x) && IsScalar(y)
    ensures Hash(builder, rootAlias, identifier, x) == Hash(builder, rootAlias, identifier, y)
        <==> StringForm(x) == StringForm(y)
  {
  }

  /** `after` keeps every entry of `before` unchanged. */
  ghost predicate Extends(before: Cache, after: Cache) {
    before.Keys <= after.Keys && forall h :: h in before ==> after[h] == before[h]
  }

  /** What a cache miss leaves in the cache: `$this->resultsCached[$hash] = $entity`
      runs only after getSingleResult returned one entity. */
  function Memoise(cache: Cache, h: CacheKey, result: SingleResult): (after: Cache)
    requires h !in cache
    ensures Extends(cache, after)
    ensures h in after <==> result.One?
    ensures after.Keys <= cache.Keys + {h}
    ensures result.One? ==> after[h] == result.entity
  {
    if result.One? then cache[h := result.entity] else cache
  }

  /** Every entry belongs to this transformer and holds the one row of `rows`
      whose identifier matches the entry's key. */
  ghost predicate Sound(cache: Cache, builder: nat, rootAlias: string, identifier: string, rows: seq<Entity>) {
    forall h :: h in cache ==>
      h.builder == builder && h.rootAlias == rootAlias && h.identifier == identifier
      && Lookup(rows, identifier, Str(h.key)) == One(cache[h])
  }

  /** On a hit, the cached entity is exactly what the lookup would find for
      that key now: caching never changes a result. */
  lemma HitIsLookup(cache: Cache, builder: nat, rootAlias: string, identifier: string, rows: seq<Entity>, id: Value)
    requires Sound(cache, builder, rootAlias, identifier, rows)
    requires IsScalar(id) && Hash(builder, rootAlias, identifier, id) in cache
    ensures Lookup(rows, identifier, id) == One(cache[Hash(builder, rootAlias, identifier, id)])
  {
    var h := Hash(builder, rootAlias, identifier, id);
    LookupByStringForm(rows, identifier, id, Str(h.key));
  }

  /** Storing the result of a lookup for the key of a miss keeps the cache
      sound. */
  lemma MemoiseSound(cache: Cache, builder: nat, rootAlias: string, identifier: string, rows: seq<Entity>, id: Value)
    requires Sound(cache, builder, rootAlias, identifier, rows)
    requires IsScalar(id) && Hash(builder, rootAlias, identifier, id) !in cache
    ensures Sound(Memoise(cache, Hash(builder, rootAlias, identifier, id), Lookup(rows, identifier, id)),
                  builder, rootAlias, identifier, rows)
  {
    var h := Hash(builder, rootAlias, identifier, id);
    LookupByStringForm(rows, identifier, id, Str(h.key));
  }
}
