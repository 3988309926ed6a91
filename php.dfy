/** The PHP values that reach a data transformer, the exceptions the
    transformers throw, and the few PHP primitives they rely on:
    strict comparison with `''`, `is_scalar`, the `(string)` cast and the
    property accessor's `getValue`. */
module Php {

  /** A PHP value as a transformer receives it (floats are not modelled). */
  datatype Value =
    | Null
    | Bool(b: bool)
    | Int(i: int)
    | Str(s: string)
    | Arr(items: seq<Value>)
    | Obj(entity: Entity)

  /** An entity object, seen through its readable properties. */
  datatype Entity = Entity(properties: map<string, Value>)

  /** Why a TransformationFailedException was thrown. */
  datatype Failure =
    | NotAString            // "Value is not scalar"
    | NotFound              // "The entity with key ... could not be found"
    | NotFoundOrNotUnique   // "... could not be found or is not unique"

  /** The exceptions that leave a transformer. */
  datatype Error =
    | UnexpectedType(given: Value, expectedType: string)
    | TransformationFailed(reason: Failure)
    | NoSuchProperty(path: string)

  /** A call either returns a value or throws. */
  datatype Outcome = Return(value: Value) | Throw(error: Error)

  /** `null === $v || '' === $v`: strict, so `0`, `"0"` and `false` are not empty. */
  predicate IsNullOrEmpty(v: Value) {
    v.Null? || v == Str("")
  }

  /** A string other than `''`: what passes both input checks of `reverseTransform`. */
  predicate IsNonEmptyString(v: Value) {
    v.Str? && v != Str("")
  }

  /** `is_scalar($v)`: booleans, integers and strings, never null. */
  predicate IsScalar(v: Value) {
    v.Bool? || v.Int? || v.Str?
  }

  function DigitChar(d: nat): char
    requires d < 10
  {
    "0123456789"[d]
  }

  /** Decimal notation of a natural number, without leading zeros. */
  function Decimal(n: nat): (r: string)
    ensures |r| > 0
    ensures r[0] == '0' <==> n == 0
  {
    if n < 10 then [DigitChar(n)] else Decimal(n / 10) + [DigitChar(n % 10)]
  }

  /** `(string)$v` for a scalar: the string itself, the decimal notation of
      an integer, "1" for true and "" for false. */
  function StringForm(v: Value): string
    requires IsScalar(v)
  {
    if v.Str? then v.s
    else if v.Int? then (if v.i < 0 then "-" + Decimal(-v.i) else Decimal(v.i))
    else if v.b then "1" else ""
  }

  /** `$accessor->getValue($entity, $path)` for a simple property path. */
  function ReadProperty(e: Entity, path: string): Outcome {
    if path in e.properties then Return(e.properties[path]) else Throw(NoSuchProperty(path))
  }
}

/** Fully qualified class names and how PHP resolves an unqualified class
    name written in a file (as in a `catch` clause). */
module PhpNames {

  /** A fully qualified class name, one segment per namespace level. */
  type QName = seq<string>

  /** `\Exception`, the root of every exception class used here. */
  const RootException: QName := ["Exception"]

  /** An unqualified class name resolves to the first `use` import whose last
      segment is that name, and otherwise to that name inside the file's own
      namespace; PHP does not check that the resulting class exists. PHP
      compares class names without regard to case; this model compares them
      exactly, which gives the same result wherever no two names in a file
      differ only in case, as in IdToIdTransformer.php. */
  function Resolve(namespace: QName, imports: seq<QName>, name: string): (r: QName)
    ensures (forall q :: q in imports ==> q == [] || q[|q| - 1] != name) ==> r == namespace + [name]
    ensures r in imports ==> r != [] && r[|r| - 1] == name
    ensures r !in imports ==> r == namespace + [name]
    ensures (exists q :: q in imports && q != [] && q[|q| - 1] == name) ==> r in imports
  {
    if imports == [] then namespace + [name]
    else if imports[0] != [] && imports[0][|imports[0]| - 1] == name then imports[0]
    else Resolve(namespace, imports[1..], name)
  }

  /** A `catch (H $e)` clause catches a thrown exception exactly when H is the
      thrown class or one of its ancestors; a name that denotes no class
      catches nothing. */
  predicate Catches(handler: QName, lineage: seq<QName>) {
    handler in lineage
  }
}
