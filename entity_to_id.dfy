/** EntityToIdTransformer: the form's view transformer between an entity
    (model side) and its identifier (view side), with a per-instance cache of
    the entities found by `reverseTransform`. */
module EntityToId {
  import opened Php
  import opened PhpNames
  import opened Doctrine
  import opened ResultCache

  /** What `transform($entity)` returns or throws: null for null and `''`,
      UnexpectedType for any other non-object, otherwise the object's
      identifier property. */
  function TransformResult(identifier: string, entity: Value): Outcome {
    if IsNullOrEmpty(entity) then Return(Null)
    else if !entity.Obj? then Throw(UnexpectedType(entity, "object"))
    else ReadProperty(entity.entity, identifier)
  }

  /** What `reverseTransform($value)` returns or throws, whatever the cache
      holds: null for null and `''`; a failure for any other non-string, in
      both modes; the one row whose identifier equals the key; and for zero
      or several rows a failure when `strict`, null otherwise. */
  function ReverseTransformResult(strict: bool, rows: seq<Entity>, identifier: string, value: Value): Outcome {
    if IsNullOrEmpty(value) then Return(Null)
    else if !value.Str? then Throw(TransformationFailed(NotAString))
    else match Lookup(rows, identifier, value)
      case One(e) => Return(Obj(e))
      case _ => if strict then Throw(TransformationFailed(NotFoundOrNotUnique)) else Return(Null)
  }

  class EntityToIdTransformer {
    var queryBuilder: QueryBuilder    // the shared builder, extended in place on every miss
    const builderHash: nat            // spl_object_hash of the builder object
    const rootAlias: string
    const identifier: string
    const throwExceptionIfValueNotFoundInReverse: bool
    var resultsCached: Cache

    ghost const rows: seq<Entity>     // what the template selects
    ghost var queries: nat            // getSingleResult calls so far

    ghost predicate Valid()
      reads this
    {
      && queryBuilder.rows == rows
      && (forall k :: 0 <= k < |queryBuilder.keyConditions| ==> queryBuilder.keyConditions[k] == identifier)
      && Sound(resultsCached, builderHash, rootAlias, identifier, rows)
    }

    /** The builder may already carry key conditions on the same identifier
        (another transformer of the same field sharing it). */
    constructor (queryBuilder: QueryBuilder, builderHash: nat, rootAlias: string, identifier: string,
                 throwExceptionIfValueNotFoundInReverse: bool := true)
      requires forall k :: 0 <= k < |queryBuilder.keyConditions| ==> queryBuilder.keyConditions[k] == identifier
      ensures Valid()
      ensures this.queryBuilder == queryBuilder && this.builderHash == builderHash
      ensures this.rootAlias == rootAlias && this.identifier == identifier
      ensures this.throwExceptionIfValueNotFoundInReverse == throwExceptionIfValueNotFoundInReverse
      ensures rows == queryBuilder.rows && resultsCached == map[] && queries == 0
    {
      this.queryBuilder := queryBuilder;
      this.builderHash := builderHash;
      this.rootAlias := rootAlias;
      this.identifier := identifier;
      this.throwExceptionIfValueNotFoundInReverse := throwExceptionIfValueNotFoundInReverse;
      resultsCached := map[];
      rows := queryBuilder.rows;
      queries := 0;
    }

    /** `getCacheHash($id)` */
    function CacheHash(id: Value): CacheKey
      requires IsScalar(id)
    {
      Hash(builderHash, rootAlias, identifier, id)
    }

    /** Entity to identifier. Reads nothing but the identifier name: no
        query, and the cache is left alone. */
    method Transform(entity: Value) returns (r: Outcome)
      ensures r == TransformResult(identifier, entity)
      ensures IsNullOrEmpty(entity) ==> r == Return(Null)
      ensures !IsNullOrEmpty(entity) && !entity.Obj? ==> r == Throw(UnexpectedType(entity, "object"))
      ensures entity.Obj? && identifier in entity.entity.properties ==> r == Return(entity.entity.properties[identifier])
    {
      if entity.Null? || entity == Str("") {
        return Return(Null);
      }
      if !entity.Obj? {
        return Throw(UnexpectedType(entity, "object"));
      }
      r := ReadProperty(entity.entity, identifier);
    }

    /** Identifier to entity, through the cache. */
    method ReverseTransform(value: Value) returns (r: Outcome)
      requires Valid()
      modifies this
      ensures Valid()
      ensures r == ReverseTransformResult(throwExceptionIfValueNotFoundInReverse, rows, identifier, value)
      // null, '' and non-strings: no query, nothing changes
      ensures !IsNonEmptyString(value) ==>
        queries == old(queries) && resultsCached == old(resultsCached) && queryBuilder == old(queryBuilder)
      ensures !IsNullOrEmpty(value) && !value.Str? ==> r == Throw(TransformationFailed(NotAString))
      // a hit: the cached entity, no query, nothing changes
      ensures IsNonEmptyString(value) && CacheHash(value) in old(resultsCached) ==>
        r == Return(Obj(old(resultsCached)[CacheHash(value)]))
        && queries == old(queries) && resultsCached == old(resultsCached) && queryBuilder == old(queryBuilder)
      // a miss: one query on the builder extended in place; only a found entity is stored
      ensures IsNonEmptyString(value) && CacheHash(value) !in old(resultsCached) ==>
        queries == old(queries) + 1
        && queryBuilder == SetKeyParameter(AndWhereKey(old(queryBuilder), identifier), value)
        && resultsCached == Memoise(old(resultsCached), CacheHash(value), Lookup(rows, identifier, value))
      ensures Extends(old(resultsCached), resultsCached)
    {
      if value == Str("") || value.Null? {
        return Return(Null);
      }
      if !value.Str? {
        return Throw(TransformationFailed(NotAString));
      }
      var hash := CacheHash(value);
      var entity: Entity;
      if hash in resultsCached {
        HitIsLookup(resultsCached, builderHash, rootAlias, identifier, rows, value);
        entity := resultsCached[hash];
      } else {
        KeyQueryIsLookup(queryBuilder, identifier, value);
        MemoiseSound(resultsCached, builderHash, rootAlias, identifier, rows, value);
        queryBuilder := SetKeyParameter(AndWhereKey(queryBuilder, identifier), value);
        var result := GetSingleResult(queryBuilder);
        queries := queries + 1;
        if !result.One? {
          RootCatchesEveryFailure(result);
        }
        if !result.One? && Catches(RootException, Lineage(ThrownBy(result))) {
          // `catch (\Exception $e)`
          if throwExceptionIfValueNotFoundInReverse {
            return Throw(TransformationFailed(NotFoundOrNotUnique));
          } else {
            return Return(Null);
          }
        }
        entity := result.entity;
        resultsCached := resultsCached[hash := entity];
      }
      return Return(Obj(entity));
    }
  }

  /** Two reverse transforms of the same key give the same result; when the
      key names an entity, the pair issues at most one query, and otherwise
      the second call queries again. */
  method ReverseTransformTwice(t: EntityToIdTransformer, value: Value) returns (first: Outcome, second: Outcome)
    requires t.Valid()
    modifies t
    ensures t.Valid()
    ensures first == second
    ensures !IsNonEmptyString(value) ==> t.queries == old(t.queries)
    ensures IsNonEmptyString(value) && Lookup(t.rows, t.identifier, value).One? ==> t.queries <= old(t.queries) + 1
    ensures IsNonEmptyString(value) && !Lookup(t.rows, t.identifier, value).One? ==> t.queries == old(t.queries) + 2
  {
    first := t.ReverseTransform(value);
    second := t.ReverseTransform(value);
    if IsNonEmptyString(value) && t.CacheHash(value) in old(t.resultsCached) {
      HitIsLookup(old(t.resultsCached), t.builderHash, t.rootAlias, t.identifier, t.rows, value);
    }
  }

  // -----------------------------------------------------------------------
  // Properties of the two directions.

  /** Round trip: an entity that is the only row with its identifier comes
      back from `reverseTransform` of the string form of what `transform`
      gave for it, in both modes. */
  lemma RoundTrip(strict: bool, rows: seq<Entity>, identifier: string, i: nat)
    requires i < |rows|
    requires identifier in rows[i].properties
    requires IsScalar(rows[i].properties[identifier]) && StringForm(rows[i].properties[identifier]) != ""
    requires forall j :: 0 <= j < |rows| && j != i ==> !Matches(rows[j], identifier, rows[i].properties[identifier])
    ensures TransformResult(identifier, Obj(rows[i])) == Return(rows[i].properties[identifier])
    ensures ReverseTransformResult(strict, rows, identifier, Str(StringForm(rows[i].properties[identifier])))
            == Return(Obj(rows[i]))
  {
    var id := rows[i].properties[identifier];
    LookupByStringForm(rows, identifier, Str(StringForm(id)), id);
    LookupUnique(rows, identifier, id, i);
  }

  /** A returned entity is a row of the template whose identifier equals the
      key, and no other (different) row has that identifier. */
  lemma ReverseReturnsMatchingRow(strict: bool, rows: seq<Entity>, identifier: string, value: Value)
    requires ReverseTransformResult(strict, rows, identifier, value).Return?
    requires ReverseTransformResult(strict, rows, identifier, value).value.Obj?
    ensures var e := ReverseTransformResult(strict, rows, identifier, value).value.entity;
      IsNonEmptyString(value) && e in rows && Matches(e, identifier, value)
      && forall x :: x in rows && Matches(x, identifier, value) ==> x == e
  {
  }

  /** A key that matches no row, or several rows, fails in strict mode and
      gives null in tolerant mode. */
  lemma ReverseNotFoundOrNotUnique(strict: bool, rows: seq<Entity>, identifier: string, value: Value)
    requires IsNonEmptyString(value)
    requires (forall x :: x in rows ==> !Matches(x, identifier, value))
          || (exists i, j :: 0 <= i < j < |rows| && Matches(rows[i], identifier, value) && Matches(rows[j], identifier, value))
    ensures ReverseTransformResult(strict, rows, identifier, value)
            == if strict then Throw(TransformationFailed(NotFoundOrNotUnique)) else Return(Null)
  {
    LookupNoResult(rows, identifier, value);
    LookupNonUnique(rows, identifier, value);
  }

  /** Tolerant mode differs from strict mode only by turning the lookup
      failure into null; input-validation failures stay failures. */
  lemma TolerantIsStrictWithNull(rows: seq<Entity>, identifier: string, value: Value)
    ensures ReverseTransformResult(false, rows, identifier, value)
        == if ReverseTransformResult(true, rows, identifier, value) == Throw(TransformationFailed(NotFoundOrNotUnique))
           then Return(Null)
           else ReverseTransformResult(true, rows, identifier, value)
  {
  }
}
