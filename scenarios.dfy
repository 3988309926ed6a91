/** Two records, {id: 1, name: "Alice"} and {id: 2, name: "Bob"}, behind a
    field bound to the identifier "id": what the transformers do with a few
    submitted values, derived from their contracts alone. */
module Scenarios {
  import opened Php
  import opened Doctrine
  import opened EntityToId
  import opened IdToId

  function Alice(): Entity {
    Entity(map["id" := Int(1), "name" := Str("Alice")])
  }

  function Bob(): Entity {
    Entity(map["id" := Int(2), "name" := Str("Bob")])
  }

  /** The lookups the scenarios run: "2" finds Bob, "9" finds nothing. */
  lemma Lookups()
    ensures Lookup([Alice(), Bob()], "id", Str("2")) == One(Bob())
    ensures Lookup([Alice(), Bob()], "id", Str("9")) == NoResult
  {
    var rows := [Alice(), Bob()];
    assert !Matches(Alice(), "id", Str("2")) && Matches(Bob(), "id", Str("2"));
    LookupUnique(rows, "id", Str("2"), 1);
    assert !Matches(Alice(), "id", Str("9")) && !Matches(Bob(), "id", Str("9"));
    LookupNoResult(rows, "id", Str("9"));
  }

  /** The entity field in strict mode: found, then cached; unknown, empty
      and non-string submissions. */
  method StrictEntityField() {
    Lookups();
    var t := new EntityToIdTransformer(Template([Alice(), Bob()]), 7, "e", "id", true);
    var r := t.ReverseTransform(Str("2"));
    assert r == Return(Obj(Bob()));
    var before := t.queries;
    r := t.ReverseTransform(Str("2"));
    assert r == Return(Obj(Bob())) && t.queries == before;
    r := t.ReverseTransform(Str("9"));
    assert r == Throw(TransformationFailed(NotFoundOrNotUnique));
    r := t.ReverseTransform(Str(""));
    assert r == Return(Null);
    r := t.ReverseTransform(Arr([Str("2")]));
    assert r == Throw(TransformationFailed(NotAString));
    r := t.Transform(Obj(Bob()));
    assert r == Return(Int(2));
  }

  /** The entity field in tolerant mode: an unknown key gives null, a
      non-string still fails. */
  method TolerantEntityField() {
    Lookups();
    var t := new EntityToIdTransformer(Template([Alice(), Bob()]), 7, "e", "id", false);
    var r := t.ReverseTransform(Str("9"));
    assert r == Return(Null);
    r := t.ReverseTransform(Arr([Str("2")]));
    assert r == Throw(TransformationFailed(NotAString));
  }

  /** The key field: `2` shares the cache entry of `"2"`, and an unknown key
      fails in `transform` as written. */
  method KeyField() {
    var rows := [Alice(), Bob()];
    assert Matches(Bob(), "id", Str("2")) && !Matches(Alice(), "id", Str("2"));
    assert !Matches(Alice(), "id", Int(9)) && !Matches(Bob(), "id", Int(9));

    var t := new IdToIdTransformer(Template(rows), 7, "e", "id", false);
    var r := t.ReverseTransform(Str("2"));
    assert r == Return(Int(2));
    var before := t.queries;
    r := t.Transform(Int(2));
    assert r == Return(Int(2)) && t.queries == before;
    r := t.Transform(Int(9));
    MissingKeyFailsAsWritten(rows, "id", Int(9));
    assert r == Throw(TransformationFailed(NotFound));
    r := t.ReverseTransform(Str("9"));
    assert r == Throw(TransformationFailed(NotFoundOrNotUnique));
  }
}
