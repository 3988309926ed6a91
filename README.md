# Select2 entity field: identifier ↔ entity data transformers

This project models, in Dafny, the two data transformers of the Select2 form
bundle. The bundle connects an AJAX-backed Select2 widget to a Symfony form
field, and the transformers translate between the identifier sent over the
wire and the entity it names:

- `EntityToIdTransformer` maps an entity to its identifier (`transform`). It
  maps a submitted identifier back to the one entity whose identifier field
  equals it (`reverseTransform`). Successful lookups are memoised in the
  per-instance cache `resultsCached`. A key that matches zero rows or several
  rows throws in strict mode and yields null in tolerant mode.
- `IdToIdTransformer` extends it. Both directions validate a key by the same
  cached lookup and return the found entity's identifier. Both share the
  inherited cache, keyed by the key's string form.

Model layout, one module per concern:

- `Php` (php.dfy): the PHP values a transformer receives (null, bool, int,
  string, array, entity object); strict `=== ''`; `is_scalar`; the
  `(string)` cast; the property accessor; the exceptions thrown.
- `PhpNames` (php.dfy): how an unqualified class name in a `catch` clause
  resolves against the file's namespace and `use` imports.
- `Doctrine` (doctrine.dfy): the query builder as a value (so `clone` is a
  copy), the key condition `alias.identifier = :key_transformer`,
  `getSingleResult` with its three outcomes, and the thrown exception classes.
- `ResultCache` (result_cache.dfy): the cache key, what a miss stores, and the
  invariant that every entry is the unique row for its key.
- `EntityToId` (entity_to_id.dfy) and `IdToId` (id_to_id.dfy): one class per
  transformer, with its state in fields and a ghost counter of queries. Each
  module also holds a pure function giving what each operation returns
  whatever the cache holds, and the lemmas about those functions.
- `Scenarios` (scenarios.dfy): two records (Alice with id 1, Bob with id 2)
  passed through both classes in verified client methods, using only their
  contracts.

The central invariant is `Valid()`. Every cache entry holds the one template
row whose identifier matches the entry's key. From it, every method proves
that its result equals the cache-free meaning function: caching changes how
many queries run, never what is returned. The methods' other postconditions
state which calls query, and what the cache and the builder become.

Three behaviours of the code that the model keeps as written:

- `reverseTransform` rejects every non-string, integers included, with
  TransformationFailedException
  (Form/DataTransformer/EntityToIdTransformer.php:88-89).
- In `EntityToIdTransformer`, tolerant mode also returns null for a key that
  matches several rows. `catch (\Exception $e)` catches NonUniqueResultException
  as well as NoResultException
  (Form/DataTransformer/EntityToIdTransformer.php:108-113).
- A failed lookup is never cached, so every later call for that key queries
  again (Form/DataTransformer/EntityToIdTransformer.php:104-105).

## Model

| member | source | states |
|---|---|---|
| `PhpNames.Resolve` | Form/DataTransformer/IdToIdTransformer.php:11-14 | an unqualified class name resolves to the `use` import ending in that name, and to the file's own namespace when no import does |
| `Doctrine.Filter` | Form/DataTransformer/EntityToIdTransformer.php:100-102 | a key condition keeps exactly the template rows whose identifier equals the parameter, and never adds rows |
| `Doctrine.FilterIdempotent` | Form/DataTransformer/EntityToIdTransformer.php:100-102 | applying the same key condition twice selects what applying it once selects |
| `Doctrine.AccumulatedKeyConditions` | Form/DataTransformer/EntityToIdTransformer.php:100-102 | any non-empty run of key conditions on one field that share the one rebound parameter is a single equality filter |
| `Doctrine.KeyQueryIsLookup` | Form/DataTransformer/EntityToIdTransformer.php:100-104 | adding the key condition, binding the key and calling getSingleResult is the equality lookup on the template's rows, however many key conditions the builder already carries |
| `Doctrine.FilterByStringForm` | Form/DataTransformer/EntityToIdTransformer.php:101 | two parameters with equal string forms select the same rows |
| `Doctrine.LookupByStringForm` | Form/DataTransformer/EntityToIdTransformer.php:101-104 | the lookup depends on the key only through its string form |
| `Doctrine.LookupOneSound` | Form/DataTransformer/EntityToIdTransformer.php:104 | a found entity is a template row matching the key, and every matching row equals it |
| `Doctrine.LookupNoResult` | Form/DataTransformer/EntityToIdTransformer.php:104 | the lookup reports no result exactly when no row matches |
| `Doctrine.LookupUnique` | Form/DataTransformer/EntityToIdTransformer.php:104 | when exactly one row position matches, the lookup returns that row |
| `Doctrine.LookupNonUnique` | Form/DataTransformer/EntityToIdTransformer.php:104 | the lookup reports a non-unique result exactly when two row positions match |
| `Doctrine.RootCatchesEveryFailure` | Form/DataTransformer/EntityToIdTransformer.php:108 | `catch (\Exception $e)` catches both exceptions getSingleResult throws; `EntityToId.EntityToIdTransformer.ReverseTransform` decides its catch by this lineage |
| `ResultCache.HashByStringForm` | Form/DataTransformer/EntityToIdTransformer.php:124-132 | within one transformer, two keys share a cache entry exactly when their `(string)` forms are equal |
| `ResultCache.Memoise` | Form/DataTransformer/EntityToIdTransformer.php:104-105 | a miss stores an entry only for a found entity, under the key of the miss, and keeps every earlier entry unchanged |
| `ResultCache.HitIsLookup` | Form/DataTransformer/EntityToIdTransformer.php:93-95 | under the cache invariant, a hit returns exactly what a fresh lookup of that key would find |
| `ResultCache.MemoiseSound` | Form/DataTransformer/EntityToIdTransformer.php:104-105 | storing a miss's lookup result keeps the cache invariant |
| `EntityToId.EntityToIdTransformer.constructor` | Form/DataTransformer/EntityToIdTransformer.php:45-52 | stores the builder, alias, identifier and strictness flag (strict by default); the cache starts empty |
| `EntityToId.EntityToIdTransformer.Transform` | Form/DataTransformer/EntityToIdTransformer.php:60-74 | null and `''` give null; any other non-object throws UnexpectedType("object"); an object gives its identifier property; no query, and the cache is untouched |
| `EntityToId.EntityToIdTransformer.ReverseTransform` | Form/DataTransformer/EntityToIdTransformer.php:82-117 | the result is the cache-free meaning in the instance's mode. Null, `''` and non-strings issue no query, and non-strings fail in both modes. A hit returns the cached entity with no query. A miss queries once, extends the shared builder in place, and stores only a found entity. Entries are never overwritten or removed |
| `EntityToId.ReverseTransformTwice` | Form/DataTransformer/EntityToIdTransformer.php:93-105 | two calls with the same key agree. If the key names an entity they query at most once between them; otherwise both calls query |
| `EntityToId.RoundTrip` | Form/DataTransformer/EntityToIdTransformer.php:60-117 | an entity that is the only row with its identifier comes back from `reverseTransform` of the string form of its `transform`, in both modes |
| `EntityToId.ReverseReturnsMatchingRow` | Form/DataTransformer/EntityToIdTransformer.php:100-116 | a returned entity is a template row whose identifier equals the submitted key, and no other row has that identifier |
| `EntityToId.ReverseNotFoundOrNotUnique` | Form/DataTransformer/EntityToIdTransformer.php:108-114 | a key matching no row or several rows fails in strict mode and gives null in tolerant mode |
| `EntityToId.TolerantIsStrictWithNull` | Form/DataTransformer/EntityToIdTransformer.php:88-114 | tolerant mode differs from strict mode only in turning the not-found-or-not-unique failure into null |
| `IdToId.NoResultHandlers` | Form/DataTransformer/IdToIdTransformer.php:57-62 | as written, `catch (NoResultException $e)` names a class in the bundle's own namespace and catches no failed lookup; with the Doctrine import it would name Doctrine's class |
| `IdToId.IdToIdTransformer.constructor` | Form/DataTransformer/EntityToIdTransformer.php:45-52 | the inherited constructor: fields stored, cache empty |
| `IdToId.IdToIdTransformer.CachedLookup` | Form/DataTransformer/IdToIdTransformer.php:34-55 | the lookup runs on a clone, so the stored builder is outside the frame. A hit returns the cached entity with no query. A miss queries once and stores only a found entity. The result is the equality lookup on the template |
| `IdToId.IdToIdTransformer.Transform` | Form/DataTransformer/IdToIdTransformer.php:24-65 | null and `''` give null; a non-scalar throws UnexpectedType("scalar"); any other key goes through the shared cached lookup. The result is the as-written meaning, so a key matching zero or several rows throws TransformationFailed |
| `IdToId.IdToIdTransformer.ReverseTransform` | Form/DataTransformer/IdToIdTransformer.php:73-112 | null and `''` give null; other non-strings fail; a key matching zero or several rows fails whatever the strictness flag is. Otherwise the key goes through the shared cached lookup and the found entity's identifier is returned |
| `IdToId.ReverseThenTransform` | Form/DataTransformer/IdToIdTransformer.php:35-40 | after `reverseTransform` accepts a submitted key, `transform` of any scalar with that string form (`2` after `"2"`) returns the same identifier. The pair queries once if the key was not yet cached, and not at all if it was, so `transform` never queries after an accepted key |
| `IdToId.TransformReturnsMatchedIdentifier` | Form/DataTransformer/IdToIdTransformer.php:49-64 | a value returned by `transform` is the identifier property of a template row, and its string form is the key's |
| `IdToId.ReverseReturnsMatchedIdentifier` | Form/DataTransformer/IdToIdTransformer.php:99-111 | a value returned by `reverseTransform` is the identifier property of a template row, and its string form is the submitted key |
| `IdToId.TransformIdempotent` | Form/DataTransformer/IdToIdTransformer.php:24-64 | running `transform` on its own result returns that result again, unless the stored identifier is `''` |
| `IdToId.ReverseThenTransformAgree` | Form/DataTransformer/IdToIdTransformer.php:24-111 | `transform` of the identifier that `reverseTransform` accepted returns that identifier |
| `IdToId.ReverseFailsWhenNotUnique` | Form/DataTransformer/IdToIdTransformer.php:103-109 | `reverseTransform` of a key matching no row or several rows always fails |
| `IdToId.TransformAgreesWithReverse` | Form/DataTransformer/IdToIdTransformer.php:57-62 | as written, `transform` of a scalar key fails exactly when `reverseTransform` of its string form fails, and otherwise both return the same identifier |
| `IdToId.MissingKeyFailsAsWritten` | Form/DataTransformer/IdToIdTransformer.php:57-62 | as written, `transform` of a key matching no row throws TransformationFailed; with the import added it returns null |
| `IdToId.IntendedTransformOutcomes` | Form/DataTransformer/IdToIdTransformer.php:57-62 | the corrected `transform` returns null for a key matching no row, fails for a key matching several rows, and agrees with the as-written code when exactly one row matches |

## Findings

| source | as written | input that shows it | evidently intended | confidence | as-written member | corrected member |
|---|---|---|---|---|---|---|
| Form/DataTransformer/IdToIdTransformer.php:57 | The file has no `use` for Doctrine's NoResultException. `catch (NoResultException $e)` therefore names `Ecommit\Select2Bundle\Form\DataTransformer\NoResultException`, which nothing throws. A key that matches no row falls through to `catch (\Exception $e)` and throws TransformationFailedException | `transform(9)` on a template whose rows have ids 1 and 2 | `transform` returns null for a key that matches no row | not executed; high that the clause never fires, medium that null was the intent | `IdToId.MissingKeyFailsAsWritten` | `IdToId.IntendedTransformOutcomes` |

`IdToId.IntendedTransformResult` is `transform` with the missing import
added. It is the same definition as the as-written one, evaluated with
different `use` imports. The `IdToIdTransformer` class keeps the as-written
behaviour, because that is what the code does.

`IdToIdTransformer::reverseTransform` never reads the strictness flag
(Form/DataTransformer/IdToIdTransformer.php:107-109). The model reproduces
this: `IdToId.ReverseTransformResult` takes no flag. It is not listed as a
finding, because the intended behaviour is unclear: rejecting a bad submitted
key is defensible behaviour.

## Left out

- Form/Type/Select2EntityAjaxType.php is framework wiring and is not part of
  this model. That covers its option normalizers, its form-builder wiring
  (including the ReversedTransformer around a tolerant EntityToIdTransformer
  in key mode), its view variables and its label extraction.
- DependencyInjection/Compiler/TwigFormPass.php is not part of this model. It
  only registers a template with the container.
- Doctrine internals are abstracted away: DQL strings, the query object and
  the parameter collection. The effect of `setParameters($this->queryBuilder->getParameters())`
  after `clone` is not modelled: a clone is a copy of the builder value, and
  only its key conditions and key parameter matter.
- SQL-side type coercion in `identifier = :key_transformer` is abstracted.
  The database is taken to compare the column and the parameter by their PHP
  string forms, and a NULL column or parameter matches nothing.
- `getCacheHash`: md5 over `json_encode` over `spl_object_hash` and the other
  fields is treated as an injective function of the tuple. The md5 is not
  modelled. Nor is the `json_encode` failure on invalid UTF-8 (strings here
  are character sequences).
- `getCacheHash` on invalid UTF-8: `json_encode` then returns false and
  `md5(false)` is `md5('')`. Every such key of one transformer shares one cache
  entry, so `reverseTransform` of a second invalid-UTF-8 key returns the entity
  cached for the first. The model's injective key does not capture this.
- The property accessor is modelled as a read of a simple property name.
  Getters, magic methods and property paths are not modelled, and
  NoSuchProperty is the only access failure.
- Floats are not modelled. PHP values are null, booleans, integers, strings,
  arrays and entity objects.
- Exception messages are not modelled, including the undefined `$key` in the
  message at Form/DataTransformer/IdToIdTransformer.php:108. Only each
  exception's class and reason are kept. That undefined `$key` also raises a
  PHP notice. Under an error handler that turns notices into exceptions
  (Symfony's debug mode), that exception leaves `reverseTransform` instead of
  TransformationFailedException. The model does not capture this.
- Object identity and aliasing are not modelled. Entities are values, so an
  entity changed after it was cached is not modelled. Each transformer holds
  its own builder value, so two transformers sharing one builder object (key
  mode) are not modelled. The constructors admit a builder that already
  carries key conditions on the same identifier, as such sharing leaves it.
- The database is a fixed snapshot: the template's rows do not change during
  a transformer's lifetime.
- Dafny has no class inheritance here. `IdToIdTransformer` repeats the
  inherited fields and constructor instead of extending
  `EntityToIdTransformer`. Its two lookups share the `CachedLookup` method,
  where the source repeats the same code in both methods.
- The query counter `queries` is ghost state. It counts getSingleResult calls
  and has no counterpart in the source.
