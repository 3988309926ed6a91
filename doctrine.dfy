/** The part of the ORM query builder the transformers use: a template whose
    own conditions select `rows`, the key conditions
    `alias.identifier = :key_transformer` that the transformers add with
    `andWhere`, the one parameter `key_transformer` bound by `setParameter`,
    and `getSingleResult`. The database compares the identifier column with
    the parameter by their PHP string forms. */
module Doctrine {
  import opened Php
  import opened PhpNames

  /** A query builder as a value: copying it is PHP's `clone`. */
  datatype QueryBuilder = QueryBuilder(
    rows: seq<Entity>,            // what the template selects before any key condition
    keyConditions: seq<string>,   // the field of each `andWhere` key condition, oldest first
    keyParameter: Value)          // the value bound to `:key_transformer`

  /** A fresh template: no key condition yet and the parameter unbound. */
  function Template(rows: seq<Entity>): QueryBuilder {
    QueryBuilder(rows, [], Null)
  }

  /** `andWhere(sprintf('%s.%s = :key_transformer', $rootAlias, $field))` */
  function AndWhereKey(qb: QueryBuilder, field: string): QueryBuilder {
    qb.(keyConditions := qb.keyConditions + [field])
  }

  /** `setParameter('key_transformer', $value)` rebinds the one parameter. */
  function SetKeyParameter(qb: QueryBuilder, value: Value): QueryBuilder {
    qb.(keyParameter := value)
  }

  /** Row `e` satisfies `field = :key_transformer` for parameter `param`: the
      field holds a scalar whose string form is the parameter's (a NULL
      column or parameter matches nothing). */
  predicate Matches(e: Entity, field: string, param: Value) {
    field in e.properties && IsScalar(e.properties[field]) && IsScalar(param)
    && StringForm(e.properties[field]) == StringForm(param)
  }

  /** The rows satisfying one key condition, in their original order. */
  function Filter(rows: seq<Entity>, field: string, param: Value): (r: seq<Entity>)
    ensures |r| <= |rows|
    ensures forall e :: e in r <==> e in rows && Matches(e, field, param)
  {
    if rows == [] then []
    else if Matches(rows[0], field, param) then [rows[0]] + Filter(rows[1..], field, param)
    else Filter(rows[1..], field, param)
  }

  /** The rows satisfying every key condition in `conditions`. */
  function ApplyKeyConditions(rows: seq<Entity>, conditions: seq<string>, param: Value): seq<Entity>
  {
    if conditions == [] then rows
    else Filter(ApplyKeyConditions(rows, conditions[..|conditions| - 1], param),
                conditions[|conditions| - 1], param)
  }

  /** What the built query selects. */
  function Results(qb: QueryBuilder): seq<Entity> {
    ApplyKeyConditions(qb.rows, qb.keyConditions, qb.keyParameter)
  }

  /** The three outcomes of `getSingleResult`. */
  datatype SingleResult = One(entity: Entity) | NoResult | NonUnique

  function SingleOf(results: seq<Entity>): SingleResult {
    if |results| == 0 then NoResult
    else if |results| == 1 then One(results[0])
    else NonUnique
  }

  /** `$queryBuilder->getQuery()->getSingleResult()` */
  function GetSingleResult(qb: QueryBuilder): SingleResult {
    SingleOf(Results(qb))
  }

  /** The equality lookup "the one row whose `field` equals `param`". */
  function Lookup(rows: seq<Entity>, field: string, param: Value): SingleResult {
    SingleOf(Filter(rows, field, param))
  }

  // The exception classes thrown by getSingleResult and their ancestors.
  const OrmException: QName := ["Doctrine", "ORM", "ORMException"]
  const UnexpectedResultException: QName := ["Doctrine", "ORM", "UnexpectedResultException"]
  const NoResultException: QName := ["Doctrine", "ORM", "NoResultException"]
  const NonUniqueResultException: QName := ["Doctrine", "ORM", "NonUniqueResultException"]

  /** The class getSingleResult throws for a failed lookup. */
  function ThrownBy(result: SingleResult): QName
    requires !result.One?
  {
    if result.NoResult? then NoResultException else NonUniqueResultException
  }

  /** A thrown Doctrine result exception, then its ancestors up to `\Exception`. */
  function Lineage(thrown: QName): seq<QName> {
    [thrown, UnexpectedResultException, OrmException, RootException]
  }

  /** Every failed lookup is caught by `catch (\Exception $e)`. */
  lemma RootCatchesEveryFailure(result: SingleResult)
    requires !result.One?
    ensures Catches(RootException, Lineage(ThrownBy(result)))
  {
  }

  // ---------------------------------------------------------------------
  // The key condition is an equality filter.

  /** Filtering twice by the same key condition is filtering once. */
  lemma {:induction false} FilterIdempotent(rows: seq<Entity>, field: string, param: Value)
    ensures Filter(Filter(rows, field, param), field, param) == Filter(rows, field, param)
  {
    if rows != [] {
      FilterIdempotent(rows[1..], field, param);
    }
  }

  /** Any number (at least one) of key conditions on the same field, all
      reading the one rebound parameter, select what a single one selects:
      so the conditions EntityToIdTransformer keeps adding to the shared
      builder never narrow a later lookup. */
  lemma {:induction false} AccumulatedKeyConditions(rows: seq<Entity>, conditions: seq<string>, field: string, param: Value)
    requires conditions != []
    requires forall k :: 0 <= k < |conditions| ==> conditions[k] == field
    ensures ApplyKeyConditions(rows, conditions, param) == Filter(rows, field, param)
  {
    var init := conditions[..|conditions| - 1];
    if init != [] {
      AccumulatedKeyConditions(rows, init, field, param);
      FilterIdempotent(rows, field, param);
    }
  }

  /** Adding one more key condition on `field` and binding the parameter,
      then calling getSingleResult, is the equality lookup on the template's
      rows, provided every earlier key condition is on the same field. */
  lemma KeyQueryIsLookup(qb: QueryBuilder, field: string, param: Value)
    requires forall k :: 0 <= k < |qb.keyConditions| ==> qb.keyConditions[k] == field
    ensures GetSingleResult(SetKeyParameter(AndWhereKey(qb, field), param)) == Lookup(qb.rows, field, param)
  {
    var built := SetKeyParameter(AndWhereKey(qb, field), param);
    AccumulatedKeyConditions(qb.rows, built.keyConditions, field, param);
  }

  // ---------------------------------------------------------------------
  // What the lookup finds.

  /** Two parameters with the same string form select the same rows. */
  lemma {:induction false} FilterByStringForm(rows: seq<Entity>, field: string, p: Value, q: Value)
    requires IsScalar(p) && IsScalar(q) && StringForm(p) == StringForm(q)
    ensures Filter(rows, field, p) == Filter(rows, field, q)
  {
    if rows != [] {
      FilterByStringForm(rows[1..], field, p, q);
    }
  }

  /** The lookup depends on the key only through its string form. */
  lemma LookupByStringForm(rows: seq<Entity>, field: string, p: Value, q: Value)
    requires IsScalar(p) && IsScalar(q) && StringForm(p) == StringForm(q)
    ensures Lookup(rows, field, p) == Lookup(rows, field, q)
  {
    FilterByStringForm(rows, field, p, q);
  }

  /** A found row is a row of the template that matches the key, and every
      matching row equals it. */
  lemma LookupOneSound(rows: seq<Entity>, field: string, param: Value)
    requires Lookup(rows, field, param).One?
    ensures var e := Lookup(rows, field, param).entity;
      e in rows && Matches(e, field, param)
      && forall x :: x in rows && Matches(x, field, param) ==> x == e
  {
  }

  /** The lookup finds nothing exactly when no row matches. */
  lemma LookupNoResult(rows: seq<Entity>, field: string, param: Value)
    ensures Lookup(rows, field, param) == NoResult <==> forall x :: x in rows ==> !Matches(x, field, param)
  {
    var r := Filter(rows, field, param);
    if r != [] {
      assert r[0] in r;
    }
  }

  /** When exactly one row (by position) matches, the lookup finds it. */
  lemma {:induction false} LookupUnique(rows: seq<Entity>, field: string, param: Value, i: nat)
    requires i < |rows| && Matches(rows[i], field, param)
    requires forall j :: 0 <= j < |rows| && j != i ==> !Matches(rows[j], field, param)
    ensures Lookup(rows, field, param) == One(rows[i])
  {
    if i == 0 {
      NoneMatch(rows[1..], field, param);
    } else {
      LookupUnique(rows[1..], field, param, i - 1);
    }
  }

  lemma {:induction false} NoneMatch(rows: seq<Entity>, field: string, param: Value)
    requires forall j :: 0 <= j < |rows| ==> !Matches(rows[j], field, param)
    ensures Filter(rows, field, param) == []
  {
    if rows != [] {
      NoneMatch(rows[1..], field, param);
    }
  }

  /** The lookup reports several results exactly when two rows (by position)
      match. */
  lemma LookupNonUnique(rows: seq<Entity>, field: string, param: Value)
    ensures Lookup(rows, field, param) == NonUnique
        <==> exists i, j :: 0 <= i < j < |rows| && Matches(rows[i], field, param) && Matches(rows[j], field, param)
  {
    if Lookup(rows, field, param) == NonUnique {
      var i, j := NonUniqueWitness(rows, field, param);
    }
    if exists i, j :: 0 <= i < j < |rows| && Matches(rows[i], field, param) && Matches(rows[j], field, param) {
      var i, j :| 0 <= i < j < |rows| && Matches(rows[i], field, param) && Matches(rows[j], field, param);
      TwoMatchesNonUnique(rows, field, param, i, j);
    }
  }

  lemma {:induction false} NonUniqueWitness(rows: seq<Entity>, field: string, param: Value) returns (i: nat, j: nat)
    requires Lookup(rows, field, param) == NonUnique
    ensures i < j < |rows| && Matches(rows[i], field, param) && Matches(rows[j], field, param)
  {
    var tail := rows[1..];
    if Matches(rows[0], field, param) {
      var r := Filter(tail, field, param);
      assert r[0] in r;
      var k :| 0 <= k < |tail| && tail[k] == r[0];
      i, j := 0, k + 1;
    } else {
      var i', j' := NonUniqueWitness(tail, field, param);
      i, j := i' + 1, j' + 1;
    }
  }

  lemma {:induction false} TwoMatchesNonUnique(rows: seq<Entity>, field: string, param: Value, i: nat, j: nat)
    requires i < j < |rows| && Matches(rows[i], field, param) && Matches(rows[j], field, param)
    ensures |Filter(rows, field, param)| >= 2
  {
    var tail := rows[1..];
    if i == 0 {
      assert tail[j - 1] in Filter(tail, field, param);
    } else {
      TwoMatchesNonUnique(tail, field, param, i - 1, j - 1);
    }
  }
}
