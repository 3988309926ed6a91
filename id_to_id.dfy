/** IdToIdTransformer: the key-to-key variant of EntityToIdTransformer. Both
    directions validate a key by looking its entity up and return that
    entity's identifier, through the one inherited result cache. Dafny has no
    class inheritance here, so the class repeats the inherited fields. */
module IdToId {
  import opened Php
  import opened PhpNames
  import opened Doctrine
  import opened ResultCache

  /** The namespace the source file declares. */
  const Namespace: QName := ["Ecommit", "Select2Bundle", "Form", "DataTransformer"]

  /** The file's `use` imports: Doctrine's NoResultException is not among them. */
  const SourceImports: seq<QName> := [
    ["Symfony", "Component", "Form", "Exception", "TransformationFailedException"],
    ["Symfony", "Component", "Form", "Exception", "UnexpectedTypeException"]
  ]

  /** The imports with `use Doctrine\ORM\NoResultException;` added. */
  const IntendedImports: seq<QName> := SourceImports + [NoResultException]

  /** The class that `catch (NoResultException $e)` names under `imports`. */
  function NoResultHandler(imports: seq<QName>): QName {
    Resolve(Namespace, imports, "NoResultException")
  }

  /** As written, the clause names a class of the bundle's own namespace,
      which no failed lookup throws; with the import it names Doctrine's. */
  lemma NoResultHandlers()
    ensures NoResultHandler(SourceImports) == Namespace + ["NoResultException"]
    ensures forall failed: SingleResult :: !failed.One? ==> !Catches(NoResultHandler(SourceImports), Lineage(ThrownBy(failed)))
    ensures NoResultHandler(IntendedImports) == NoResultException
  {
    var name := "NoResultException";
    assert IntendedImports[0][4] != name && IntendedImports[1][4] != name;
    assert Resolve(Namespace, IntendedImports[2..], name) == NoResultException;
    assert Resolve(Namespace, IntendedImports[1..], name) == Resolve(Namespace, IntendedImports[1..][1..], name);
    assert IntendedImports[1..][1..] == IntendedImports[2..];
  }

  /** What `transform($key)` returns or throws when the file's imports are
      `imports`: null for null and `''`; UnexpectedType for a non-scalar; the
      identifier of the one matching row; for a failed lookup null if the
      first catch clause catches the thrown exception, otherwise the failure
      of the second, `catch (\Exception $e)`. */
  function TransformResultWith(imports: seq<QName>, rows: seq<Entity>, identifier: string, key: Value): Outcome {
    if IsNullOrEmpty(key) then Return(Null)
    else if !IsScalar(key) then Throw(UnexpectedType(key, "scalar"))
    else match Lookup(rows, identifier, key)
      case One(e) => ReadProperty(e, identifier)
      case failed =>
        if Catches(NoResultHandler(imports), Lineage(ThrownBy(failed))) then Return(Null)
        else Throw(TransformationFailed(NotFound))
  }

  /** `transform` as written. */
  function TransformResult(rows: seq<Entity>, identifier: string, key: Value): Outcome {
    TransformResultWith(SourceImports, rows, identifier, key)
  }

  /** `transform` as evidently intended, with the missing import added. */
  function IntendedTransformResult(rows: seq<Entity>, identifier: string, key: Value): Outcome {
    TransformResultWith(IntendedImports, rows, identifier, key)
  }

  /** What `reverseTransform($value)` returns or throws: null for null and
      `''`; a failure for any other non-string; the identifier of the one
      matching row; and a failure for zero or several rows, whatever the
      strictness flag says. */
  function ReverseTransformResult(rows: seq<Entity>, identifier: string, value: Value): Outcome {
    if IsNullOrEmpty(value) then Return(Null)
    else if !value.Str? then Throw(TransformationFailed(NotAString))
    else match Lookup(rows, identifier, value)
      case One(e) => ReadProperty(e, identifier)
      case _ => Throw(TransformationFailed(NotFoundOrNotUnique))
  }

  /** A key the lookup of `transform` runs for: a scalar other than `''`. */
  predicate IsLookupKey(key: Value) {
    IsScalar(key) && key != Str("")
  }

  class IdToIdTransformer {
    var queryBuilder: QueryBuilder    // the template; only clones of it are filtered
    const builderHash: nat            // spl_object_hash of the builder object
    const rootAlias: string
    const identifier: string
    const throwExceptionIfValueNotFoundInReverse: bool
    var resultsCached: Cache          // shared by both directions

    ghost const rows: seq<Entity>     // what the template selects
    ghost var queries: nat            // getSingleResult calls so far

    ghost predicate Valid()
      reads this
    {
      && queryBuilder.rows == rows
      && (forall k :: 0 <= k < |queryBuilder.keyConditions| ==> queryBuilder.keyConditions[k] == identifier)
      && Sound(resultsCached, builderHash, rootAlias, identifier, rows)
    }

    constructor (queryBuilder: QueryBuilder, builderHash: nat, rootAlias: string, identifier: string,
                 throwExceptionIfValueNotFoundInReverse: bool := true)
      requires forall k :: 0 <= k < |queryBuilder.keyConditions| ==> queryBuilder.keyConditions[k] == identifier
      ensures Valid()
      ensures this.queryBuilder == queryBuilder && this.builderHash == builderHash
      ensures this.rootAlias == rootAlias && this.identifier == identifier
      ensures this.throwExceptionIfValueNotFoundInReverse == throwExceptionIfValueNotFoundInReverse
      ensures rows == queryBuilder.rows && resultsCached == map[] && queries == 0
    {
      this.queryBuilder := queryBuilder;
      this.builderHash := builderHash;
      this.rootAlias := rootAlias;
      this.identifier := identifier;
      this.throwExceptionIfValueNotFoundInReverse := throwExceptionIfValueNotFoundInReverse;
      resultsCached := map[];
      rows := queryBuilder.rows;
      queries := 0;
    }

    /** `getCacheHash($id)` */
    function CacheHash(id: Value): CacheKey
      requires IsScalar(id)
    {
      Hash(builderHash, rootAlias, identifier, id)
    }

    /** Runs the key query on a clone of the template. The model keeps the
        stored builder value unchanged: it is outside the frame. */
    method CachedLookup(key: Value) returns (found: SingleResult)
      requires Valid() && IsScalar(key)
      modifies this`resultsCached, this`queries
      ensures Valid()
      ensures found == Lookup(rows, identifier, key)
      ensures CacheHash(key) in old(resultsCached) ==>
        found == One(old(resultsCached)[CacheHash(key)])
        && queries == old(queries) && resultsCached == old(resultsCached)
      ensures CacheHash(key) !in old(resultsCached) ==>
        queries == old(queries) + 1 && resultsCached == Memoise(old(resultsCached), CacheHash(key), found)
    {
      var hash := CacheHash(key);
      if hash in resultsCached {
        HitIsLookup(resultsCached, builderHash, rootAlias, identifier, rows, key);
        found := One(resultsCached[hash]);
      } else {
        var clone := queryBuilder;
        clone := SetKeyParameter(AndWhereKey(clone, identifier), key);
        KeyQueryIsLookup(queryBuilder, identifier, key);
        MemoiseSound(resultsCached, builderHash, rootAlias, identifier, rows, key);
        found := GetSingleResult(clone);
        queries := queries + 1;
        if found.One? {
          resultsCached := resultsCached[hash := found.entity];
        }
      }
    }

    /** Key to key, validated against the template's rows. */
    method Transform(key: Value) returns (r: Outcome)
      requires Valid()
      modifies this`resultsCached, this`queries
      ensures Valid()
      ensures r == TransformResult(rows, identifier, key)
      ensures IsNullOrEmpty(key) ==> r == Return(Null)
      ensures !IsNullOrEmpty(key) && !IsScalar(key) ==> r == Throw(UnexpectedType(key, "scalar"))
      ensures !IsLookupKey(key) ==> queries == old(queries) && resultsCached == old(resultsCached)
      ensures IsLookupKey(key) && CacheHash(key) in old(resultsCached) ==>
        queries == old(queries) && resultsCached == old(resultsCached)
      ensures IsLookupKey(key) && CacheHash(key) !in old(resultsCached) ==>
        queries == old(queries) + 1
        && resultsCached == Memoise(old(resultsCached), CacheHash(key), Lookup(rows, identifier, key))
      ensures Extends(old(resultsCached), resultsCached)
    {
      if key.Null? || key == Str("") {
        return Return(Null);
      }
      if !IsScalar(key) {
        return Throw(UnexpectedType(key, "scalar"));
      }
      var found := CachedLookup(key);
      if !found.One? {
        // `catch (NoResultException $e)` first, then `catch (\Exception $e)`
        var caught := Catches(NoResultHandler(SourceImports), Lineage(ThrownBy(found)));
        r := if caught then Return(Null) else Throw(TransformationFailed(NotFound));
        return;
      }
      r := ReadProperty(found.entity, identifier);
    }

    /** Key to key on submission: the same cached lookup, and a failure for a
        key that matches zero or several rows in either mode. */
    method ReverseTransform(value: Value) returns (r: Outcome)
      requires Valid()
      modifies this`resultsCached, this`queries
      ensures Valid()
      ensures r == ReverseTransformResult(rows, identifier, value)
      ensures IsNullOrEmpty(value) ==> r == Return(Null)
      ensures !IsNullOrEmpty(value) && !value.Str? ==> r == Throw(TransformationFailed(NotAString))
      ensures IsNonEmptyString(value) && !Lookup(rows, identifier, value).One? ==>
        r == Throw(TransformationFailed(NotFoundOrNotUnique))
      ensures !IsNonEmptyString(value) ==> queries == old(queries) && resultsCached == old(resultsCached)
      ensures IsNonEmptyString(value) && CacheHash(value) in old(resultsCached) ==>
        queries == old(queries) && resultsCached == old(resultsCached)
      ensures IsNonEmptyString(value) && CacheHash(value) !in old(resultsCached) ==>
        queries == old(queries) + 1
        && resultsCached == Memoise(old(resultsCached), CacheHash(value), Lookup(rows, identifier, value))
      ensures Extends(old(resultsCached), resultsCached)
    {
      if value == Str("") || value.Null? {
        return Return(Null);
      }
      if !value.Str? {
        return Throw(TransformationFailed(NotAString));
      }
      var found := CachedLookup(value);
      if !found.One? {
        // `catch (\Exception $e)`: the strictness flag is not consulted
        return Throw(TransformationFailed(NotFoundOrNotUnique));
      }
      r := ReadProperty(found.entity, identifier);
    }
  }

  /** The two directions share the cache through the key's string form: once
      `reverseTransform` has validated a submitted key, `transform` of any
      scalar with that string form (`2` after `"2"`) returns the same
      identifier without another query. */
  method ReverseThenTransform(t: IdToIdTransformer, submitted: string, key: Value) returns (checked: Outcome, shown: Outcome)
    requires t.Valid()
    requires IsScalar(key) && StringForm(key) == submitted
    modifies t`resultsCached, t`queries
    ensures t.Valid()
    ensures submitted != "" && checked.Return? ==>
      shown == checked
      && t.queries == old(t.queries) + (if t.CacheHash(key) in old(t.resultsCached) then 0 else 1)
  {
    checked := t.ReverseTransform(Str(submitted));
    ghost var mid := t.queries;
    shown := t.Transform(key);
    if submitted != "" && checked.Return? {
      LookupByStringForm(t.rows, t.identifier, key, Str(submitted));
      assert t.CacheHash(key) == t.CacheHash(Str(submitted));
    }
  }

  // -----------------------------------------------------------------------
  // Properties of the two directions.

  /** A key that `transform` validates comes back as the identifier of the
      row that matched it: a scalar with the key's string form. */
  lemma TransformReturnsMatchedIdentifier(rows: seq<Entity>, identifier: string, key: Value)
    requires IsLookupKey(key) && TransformResult(rows, identifier, key).Return?
    ensures var v := TransformResult(rows, identifier, key).value;
      IsScalar(v) && StringForm(v) == StringForm(key)
      && (exists e :: e in rows && identifier in e.properties && e.properties[identifier] == v)
  {
    NoResultHandlers();
    LookupOneSound(rows, identifier, key);
  }

  /** A key that `reverseTransform` validates comes back as the identifier
      of the row that matched it: a scalar whose string form is the key. */
  lemma ReverseReturnsMatchedIdentifier(rows: seq<Entity>, identifier: string, value: Value)
    requires IsNonEmptyString(value) && ReverseTransformResult(rows, identifier, value).Return?
    ensures var v := ReverseTransformResult(rows, identifier, value).value;
      IsScalar(v) && StringForm(v) == value.s
      && (exists e :: e in rows && identifier in e.properties && e.properties[identifier] == v)
  {
    LookupOneSound(rows, identifier, value);
  }

  /** Validating a validated key again gives it back unchanged, unless the
      stored identifier is `''` itself (which `transform` maps to null). */
  lemma TransformIdempotent(rows: seq<Entity>, identifier: string, key: Value)
    requires IsLookupKey(key) && TransformResult(rows, identifier, key).Return?
    ensures var v := TransformResult(rows, identifier, key).value;
      v == Str("") || TransformResult(rows, identifier, v) == Return(v)
  {
    TransformReturnsMatchedIdentifier(rows, identifier, key);
    var v := TransformResult(rows, identifier, key).value;
    LookupByStringForm(rows, identifier, v, key);
  }

  /** What the view shows for a submitted key that `reverseTransform`
      accepted is that same identifier. */
  lemma ReverseThenTransformAgree(rows: seq<Entity>, identifier: string, value: Value)
    requires IsNonEmptyString(value) && ReverseTransformResult(rows, identifier, value).Return?
    ensures var v := ReverseTransformResult(rows, identifier, value).value;
      TransformResult(rows, identifier, v) == Return(v)
  {
    ReverseReturnsMatchedIdentifier(rows, identifier, value);
    var v := ReverseTransformResult(rows, identifier, value).value;
    LookupByStringForm(rows, identifier, v, value);
  }

  /** `reverseTransform` fails for a key that matches no row or several rows,
      with no strictness flag to turn the failure into null. */
  lemma ReverseFailsWhenNotUnique(rows: seq<Entity>, identifier: string, value: Value)
    requires IsNonEmptyString(value)
    requires (forall x :: x in rows ==> !Matches(x, identifier, value))
          || (exists i, j :: 0 <= i < j < |rows| && Matches(rows[i], identifier, value) && Matches(rows[j], identifier, value))
    ensures ReverseTransformResult(rows, identifier, value) == Throw(TransformationFailed(NotFoundOrNotUnique))
  {
    LookupNoResult(rows, identifier, value);
    LookupNonUnique(rows, identifier, value);
  }

  /** As written, `transform` of a scalar key fails exactly when
      `reverseTransform` of its string form does, and otherwise both return
      the same identifier: the `NoResultException` clause never fires. */
  lemma TransformAgreesWithReverse(rows: seq<Entity>, identifier: string, key: Value)
    requires IsScalar(key) && StringForm(key) != ""
    ensures TransformResult(rows, identifier, key).Throw?
        <==> ReverseTransformResult(rows, identifier, Str(StringForm(key))).Throw?
    ensures TransformResult(rows, identifier, key).Return? ==>
      TransformResult(rows, identifier, key) == ReverseTransformResult(rows, identifier, Str(StringForm(key)))
  {
    LookupByStringForm(rows, identifier, key, Str(StringForm(key)));
    var found := Lookup(rows, identifier, key);
    if !found.One? {
      NoResultHandlers();
      assert !Catches(NoResultHandler(SourceImports), Lineage(ThrownBy(found)));
    }
  }

  /** As written, `transform` of a key that matches no row fails, while the
      intended code (the import added) returns null. */
  lemma MissingKeyFailsAsWritten(rows: seq<Entity>, identifier: string, key: Value)
    requires IsLookupKey(key)
    requires forall x :: x in rows ==> !Matches(x, identifier, key)
    ensures TransformResult(rows, identifier, key) == Throw(TransformationFailed(NotFound))
    ensures IntendedTransformResult(rows, identifier, key) == Return(Null)
  {
    LookupNoResult(rows, identifier, key);
    NoResultHandlers();
  }

  /** The intended `transform`: null for a key that matches no row, a
      failure for a key that matches several, and the as-written result
      whenever exactly one row matches. */
  lemma IntendedTransformOutcomes(rows: seq<Entity>, identifier: string, key: Value)
    requires IsLookupKey(key)
    ensures (forall x :: x in rows ==> !Matches(x, identifier, key))
        ==> IntendedTransformResult(rows, identifier, key) == Return(Null)
    ensures (exists i, j :: 0 <= i < j < |rows| && Matches(rows[i], identifier, key) && Matches(rows[j], identifier, key))
        ==> IntendedTransformResult(rows, identifier, key) == Throw(TransformationFailed(NotFound))
    ensures Lookup(rows, identifier, key).One?
        ==> IntendedTransformResult(rows, identifier, key) == TransformResult(rows, identifier, key)
  {
    LookupNoResult(rows, identifier, key);
    LookupNonUnique(rows, identifier, key);
    var found := Lookup(rows, identifier, key);
    if !found.One? {
      IntendedHandlerCatchesNoResult(found);
    }
  }

  /** With the import added, the first clause catches exactly the
      no-result failure. */
  lemma IntendedHandlerCatchesNoResult(failed: SingleResult)
    requires !failed.One?
    ensures Catches(NoResultHandler(IntendedImports), Lineage(ThrownBy(failed))) <==> failed.NoResult?
  {
    NoResultHandlers();
    assert NoResultException !in Lineage(NonUniqueResultException);
  }
}
