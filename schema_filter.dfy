/**
 * IgnoreNullValuesSchemaFilter: the Swagger schema filter that drops, from a schema's
 * property map, every non-string property that is nullable or is an object with a
 * nullable property somewhere below it.
 */
module SchemaFilter {
  import opened Wrappers

  /** A nested OpenApiSchema, as a value: its Type (null when absent), Nullable and Properties. */
  datatype Schema = Schema(typeName: Option<string>, nullable: bool, properties: Properties)

  /** The Properties dictionary of a schema, or null. */
  datatype Properties = Absent | Present(entries: map<string, Schema>)

  /** The schema whose property map the filter edits in place. */
  class OpenApiSchema {
    var typeName: Option<string>
    var nullable: bool
    var properties: Properties

    constructor (typeName: Option<string>, nullable: bool, properties: Properties)
      ensures this.typeName == typeName && this.nullable == nullable && this.properties == properties
    {
      this.typeName, this.nullable, this.properties := typeName, nullable, properties;
    }
  }

  /** IsObjectNullable: some property is nullable, or is an object for which this holds again. */
  predicate ObjectNullable(s: Schema)
    decreases s, 0
  {
    s.properties.Present? && exists k :: k in s.properties.entries && ChildMakesNullable(s.properties.entries[k])
  }

  /** The test IsObjectNullable applies to one property. */
  predicate ChildMakesNullable(c: Schema)
    decreases c, 1
  {
    c.nullable || (c.typeName == Some("object") && ObjectNullable(c) && c.typeName != Some("string"))
  }

  /** The test Apply applies to one property: not a string, and nullable or a nullable object. */
  predicate Removed(v: Schema) {
    v.typeName != Some("string") && (v.nullable || (v.typeName == Some("object") && ObjectNullable(v)))
  }

  /** The property map Apply leaves: the entries that fail the removal test, unchanged. */
  function Filtered(m: map<string, Schema>): (r: map<string, Schema>)
    ensures forall k :: k in r <==> k in m && !Removed(m[k])
    ensures forall k :: k in r ==> r[k] == m[k]
  {
    map k | k in m && !Removed(m[k]) :: m[k]
  }

  /** IsObjectNullable: a loop over the properties that returns as soon as one makes the object nullable. */
  method IsObjectNullable(property: Schema) returns (b: bool)
    ensures b == ObjectNullable(property)
    decreases property
  {
    if property.properties.Absent? {
      return false;
    }
    var m := property.properties.entries;
    var keys := m.Keys;
    while keys != {}
      invariant keys <= m.Keys
      invariant forall k :: k in m && k !in keys ==> !ChildMakesNullable(m[k])
      decreases |keys|
    {
      var k :| k in keys;
      var c := m[k];
      if c.nullable {
        return true;
      }
      if c.typeName == Some("object") {
        var nested := IsObjectNullable(c);
        if nested && c.typeName != Some("string") {
          return true;
        }
      }
      keys := keys - {k};
    }
    return false;
  }

  /**
   * Apply: nothing happens without a property map; otherwise the keys to remove are
   * collected in one pass and removed in a second. Only this schema's own map changes.
   */
  method Apply(schema: OpenApiSchema)
    modifies schema
    ensures schema.properties == if old(schema.properties).Absent? then Absent else Present(Filtered(old(schema.properties).entries))
    ensures schema.typeName == old(schema.typeName) && schema.nullable == old(schema.nullable)
  {
    if schema.properties.Absent? {
      return;
    }
    var m := schema.properties.entries;
    var toRemove: seq<string> := [];
    var keys := m.Keys;
    while keys != {}
      invariant keys <= m.Keys && unchanged(schema)
      invariant forall k :: k in toRemove ==> k in m && Removed(m[k])
      invariant forall k :: k in m && k !in keys && Removed(m[k]) ==> k in toRemove
      decreases |keys|
    {
      var k :| k in keys;
      var v := m[k];
      var remove := false;
      if v.typeName != Some("string") {
        if v.nullable {
          remove := true;
        } else if v.typeName == Some("object") {
          remove := IsObjectNullable(v);
        }
      }
      if remove {
        toRemove := toRemove + [k];
      }
      keys := keys - {k};
    }
    var i := 0;
    assert (map k | k in m && k !in toRemove[..0] :: m[k]) == m;
    while i < |toRemove|
      invariant 0 <= i <= |toRemove|
      invariant schema.properties == Present(map k | k in m && k !in toRemove[..i] :: m[k])
      invariant schema.typeName == old(schema.typeName) && schema.nullable == old(schema.nullable)
    {
      assert toRemove[..i + 1] == toRemove[..i] + [toRemove[i]];
      schema.properties := Present(schema.properties.entries - {toRemove[i]});
      i := i + 1;
    }
    assert toRemove[..i] == toRemove;
  }

  /** A second Apply removes nothing: every entry that survived the first fails the test again. */
  lemma FilterIdempotent(m: map<string, Schema>)
    ensures Filtered(Filtered(m)) == Filtered(m)
  {
    var f := Filtered(m);
    assert forall k :: k in Filtered(f) <==> k in f;
  }

  /** A property of type "string" is always kept, nullable or not, with its schema unchanged. */
  lemma StringsKept(m: map<string, Schema>, k: string)
    requires k in m && m[k].typeName == Some("string")
    ensures k in Filtered(m) && Filtered(m)[k] == m[k]
  {
  }

  /** Without a property map an object is never nullable, and a nullable non-string property always goes. */
  lemma NoPropertiesNotNullable(t: Option<string>, n: bool)
    ensures !ObjectNullable(Schema(t, n, Absent))
    ensures n && t != Some("string") ==> Removed(Schema(t, n, Absent))
  {
  }

  /**
   * `path` leads from `s` through properties of type "object" to a nullable property:
   * every key is present, every schema stepped through before the last has type
   * "object", and the last one is nullable.
   */
  predicate NullablePath(s: Schema, path: seq<string>)
    decreases |path|
  {
    |path| > 0 && s.properties.Present? && path[0] in s.properties.entries &&
    var c := s.properties.entries[path[0]];
    if |path| == 1 then c.nullable else c.typeName == Some("object") && NullablePath(c, path[1..])
  }

  /** IsObjectNullable holds exactly when some path through object properties reaches a nullable one. */
  lemma ObjectNullableIffPath(s: Schema)
    ensures ObjectNullable(s) ==> exists path :: NullablePath(s, path)
    ensures (exists path :: NullablePath(s, path)) ==> ObjectNullable(s)
  {
    if ObjectNullable(s) {
      var path := NullableHasPath(s);
      assert NullablePath(s, path);
    }
    forall path | NullablePath(s, path)
      ensures ObjectNullable(s)
    {
      PathMakesNullable(s, path);
    }
  }

  /** A nullable object has a path to a nullable property, found by following the recursion. */
  lemma {:induction false} NullableHasPath(s: Schema) returns (path: seq<string>)
    requires ObjectNullable(s)
    ensures NullablePath(s, path)
    decreases s
  {
    var m := s.properties.entries;
    var k :| k in m && ChildMakesNullable(m[k]);
    var c := m[k];
    if c.nullable {
      path := [k];
    } else {
      var p := NullableHasPath(c);
      path := [k] + p;
      assert path[1..] == p;
    }
  }

  lemma {:induction false} PathMakesNullable(s: Schema, path: seq<string>)
    requires NullablePath(s, path)
    ensures ObjectNullable(s)
    decreases |path|
  {
    var m := s.properties.entries;
    var c := m[path[0]];
    if |path| > 1 {
      PathMakesNullable(c, path[1..]);
      assert ChildMakesNullable(c);
    }
    assert ChildMakesNullable(m[path[0]]);
  }
}
