// apps/server/scripts/generateThreadToolNativeApiFixture.ts:20-56: the schemas a set of API operations
// needs, found by following references through a graph that may have cycles.
module SchemaClosure {
  import opened Prelude
  import opened Ordering

  // A JSON value; an object holds each key once.
  datatype Json = Null | Boolean(on: bool) | Number(value: int) | Str(text: string) | Arr(items: seq<Json>)
                | Obj(fields: seq<Field>)

  datatype Field = Field(key: string, value: Json)

  predicate IsTruthy(v: Json) {
    v != Null && v != Boolean(false) && v != Number(0) && v != Str("")
  }

  // `api.components.schemas`
  type Components = map<string, Json>

  const LIMIT: nat := 390

  const PREFIX: string := "#/components/schemas/"

  // --- References ---

  // `record.$ref`, where it is a string.
  function RefOf(fields: seq<Field>): Option<string> {
    if fields == [] then None
    else if fields[0].key == "$ref" then (if fields[0].value.Str? then Some(fields[0].value.text) else None)
    else RefOf(fields[1..])
  }

  // All references in a value, however deep.
  ghost function Refs(v: Json): set<string> {
    match v
    case Arr(items) => set i, r | 0 <= i < |items| && r in Refs(items[i]) :: r
    case Obj(fields) =>
      (if RefOf(fields).Some? then {RefOf(fields).value} else {})
      + set i, r | 0 <= i < |fields| && r in Refs(fields[i].value) :: r
    case _ => {}
  }

  // The value at the end of a path of positions.
  function At(v: Json, path: seq<nat>): Option<Json>
    decreases path
  {
    if path == [] then Some(v)
    else match v
      case Arr(items) => if path[0] < |items| then At(items[path[0]], path[1..]) else None
      case Obj(fields) => if path[0] < |fields| then At(fields[path[0]].value, path[1..]) else None
      case _ => None
  }

  // The k-th field is the object's `$ref`, and names `r`.
  ghost predicate IsRef(fields: seq<Field>, k: nat, r: string) {
    k < |fields| && fields[k] == Field("$ref", Str(r)) && forall j :: 0 <= j < k ==> fields[j].key != "$ref"
  }

  ghost predicate IsRefAt(v: Json, path: seq<nat>, k: nat, r: string) {
    At(v, path).Some? && At(v, path).value.Obj? && IsRef(At(v, path).value.fields, k, r)
  }

  lemma {:induction false} RefOfExactly(fields: seq<Field>, r: string)
    ensures RefOf(fields) == Some(r) <==> exists k: nat :: IsRef(fields, k, r)
  {
    if fields != [] {
      RefOfExactly(fields[1..], r);
      if fields[0].key == "$ref" {
        assert IsRef(fields, 0, r) <==> RefOf(fields) == Some(r);
      } else {
        if RefOf(fields) == Some(r) {
          var k: nat :| IsRef(fields[1..], k, r);
          assert IsRef(fields, k + 1, r);
        }
        if k: nat :| IsRef(fields, k, r) {
          assert IsRef(fields[1..], k - 1, r);
        }
      }
    }
  }

  // The references of a value are the `$ref` strings of the objects anywhere in it.
  lemma {:induction false} RefsExactly(v: Json, r: string)
    ensures r in Refs(v) <==> exists path: seq<nat>, k: nat :: IsRefAt(v, path, k, r)
    decreases v
  {
    if r in Refs(v) {
      RefsAreAt(v, r);
    }
    if path: seq<nat>, k: nat :| IsRefAt(v, path, k, r) {
      AtIsRef(v, path, k, r);
    }
  }

  lemma {:induction false} RefsAreAt(v: Json, r: string)
    requires r in Refs(v)
    ensures exists path: seq<nat>, k: nat :: IsRefAt(v, path, k, r)
    decreases v
  {
    match v
    case Arr(items) =>
      var i: nat :| i < |items| && r in Refs(items[i]);
      RefsAreAt(items[i], r);
      var path: seq<nat>, k: nat :| IsRefAt(items[i], path, k, r);
      assert ([i] + path)[1..] == path;
      assert IsRefAt(v, [i] + path, k, r);
    case Obj(fields) =>
      if RefOf(fields) == Some(r) {
        RefOfExactly(fields, r);
        var k: nat :| IsRef(fields, k, r);
        assert IsRefAt(v, [], k, r);
      } else {
        var i: nat :| i < |fields| && r in Refs(fields[i].value);
        RefsAreAt(fields[i].value, r);
        var path: seq<nat>, k: nat :| IsRefAt(fields[i].value, path, k, r);
        assert ([i] + path)[1..] == path;
        assert IsRefAt(v, [i] + path, k, r);
      }
  }

  lemma {:induction false} AtIsRef(v: Json, path: seq<nat>, k: nat, r: string)
    requires IsRefAt(v, path, k, r)
    ensures r in Refs(v)
    decreases path
  {
    if path == [] {
      RefOfExactly(v.fields, r);
    } else {
      match v
      case Arr(items) => AtIsRef(items[path[0]], path[1..], k, r);
      case Obj(fields) => AtIsRef(fields[path[0]].value, path[1..], k, r);
    }
  }

  predicate IsLocal(ref: string) {
    PREFIX <= ref
  }

  // `replaceAll` of "~" followed by `c`.
  function ReplaceTilde(s: string, c: char, out: char): string {
    if s == [] then []
    else if |s| >= 2 && s[0] == '~' && s[1] == c then [out] + ReplaceTilde(s[2..], c, out)
    else [s[0]] + ReplaceTilde(s[1..], c, out)
  }

  function Unescape(s: string): string {
    ReplaceTilde(ReplaceTilde(s, '1', '/'), '0', '~')
  }

  // Section 4 of RFC 6901.
  function Escape(name: string): string {
    if name == [] then []
    else (if name[0] == '~' then "~0" else if name[0] == '/' then "~1" else [name[0]]) + Escape(name[1..])
  }

  // Only the tildes are escaped.
  function EscapeTildes(name: string): string {
    if name == [] then []
    else (if name[0] == '~' then "~0" else [name[0]]) + EscapeTildes(name[1..])
  }

  lemma ReplaceAfter(first: char, s: string, c: char, out: char)
    ensures first != '~' || s == [] || s[0] != c ==> ReplaceTilde([first] + s, c, out) == [first] + ReplaceTilde(s, c, out)
    ensures ReplaceTilde(['~', c] + s, c, out) == [out] + ReplaceTilde(s, c, out)
  {
    assert ([first] + s)[1..] == s;
    assert (['~', c] + s)[2..] == s;
  }

  lemma {:induction false} UnescapeSlashes(name: string)
    ensures ReplaceTilde(Escape(name), '1', '/') == EscapeTildes(name)
  {
    hide ReplaceTilde;
    if name == [] {
      assert ReplaceTilde([], '1', '/') == [] by {
        ReplaceNothing('1', '/');
      }
    } else {
      var rest := Escape(name[1..]);
      UnescapeSlashes(name[1..]);
      if name[0] == '~' {
        assert "~0" + rest == ['~'] + (['0'] + rest);
        ReplaceAfter('0', rest, '1', '/');
        ReplaceAfter('~', ['0'] + rest, '1', '/');
        assert ['~'] + (['0'] + EscapeTildes(name[1..])) == "~0" + EscapeTildes(name[1..]);
      } else {
        ReplaceAfter(name[0], rest, '1', '/');
      }
    }
  }

  lemma ReplaceNothing(c: char, out: char)
    ensures ReplaceTilde([], c, out) == []
  {
  }

  lemma {:induction false} UnescapeTildes(name: string)
    ensures ReplaceTilde(EscapeTildes(name), '0', '~') == name
  {
    hide ReplaceTilde;
    if name == [] {
      ReplaceNothing('0', '~');
    } else {
      UnescapeTildes(name[1..]);
      ReplaceAfter(name[0], EscapeTildes(name[1..]), '0', '~');
      assert name == [name[0]] + name[1..];
    }
  }

  // Unescaping undoes escaping for every name.
  lemma UnescapeEscape(name: string)
    ensures Unescape(Escape(name)) == name
  {
    UnescapeSlashes(name);
    UnescapeTildes(name);
  }

  function NameOf(ref: string): string
    requires IsLocal(ref)
  {
    Unescape(ref[|PREFIX|..])
  }

  // The reference that names a schema, as it is written in a document.
  function RefTo(name: string): (ref: string)
    ensures IsLocal(ref)
  {
    PREFIX + Escape(name)
  }

  lemma NameOfRefTo(name: string)
    ensures NameOf(RefTo(name)) == name
  {
    assert RefTo(name)[|PREFIX|..] == Escape(name);
    UnescapeEscape(name);
  }

  // The names a value refers to.
  ghost function Names(v: Json): set<string> {
    set r | r in Refs(v) && IsLocal(r) :: NameOf(r)
  }

  ghost predicate OnlyLocal(v: Json) {
    forall r :: r in Refs(v) ==> IsLocal(r)
  }

  // --- Reachability ---

  // A chain of schemas, each referring to the next; the first is named in `roots`.
  ghost predicate IsChain(c: Components, roots: set<string>, chain: seq<string>) {
    && chain != [] && chain[0] in roots
    && (forall i :: 0 <= i < |chain| - 1 ==> chain[i] in c)
    && forall i, j :: 0 <= i && j == i + 1 && j < |chain| ==> chain[j] in Names(c[chain[i]])
  }

  ghost predicate Reaches(c: Components, roots: set<string>, name: string) {
    exists chain :: IsChain(c, roots, chain) && chain[|chain| - 1] == name
  }

  lemma ReachesRoot(c: Components, roots: set<string>, name: string)
    requires name in roots
    ensures Reaches(c, roots, name)
  {
    assert IsChain(c, roots, [name]);
  }

  lemma ReachesNext(c: Components, roots: set<string>, via: string, name: string)
    requires Reaches(c, roots, via) && via in c && name in Names(c[via])
    ensures Reaches(c, roots, name)
  {
    hide Names;
    var chain :| IsChain(c, roots, chain) && chain[|chain| - 1] == via;
    assert IsChain(c, roots, chain + [name]);
  }

  // A set that holds the roots and is closed under references holds all that is reachable.
  lemma {:induction false} ClosedHoldsChain(c: Components, roots: set<string>, closed: set<string>, chain: seq<string>)
    requires roots <= closed && IsChain(c, roots, chain)
    requires forall n :: n in closed && n in c ==> Names(c[n]) <= closed
    ensures chain[|chain| - 1] in closed
    decreases |chain|
  {
    var n := |chain|;
    if n > 1 {
      assert IsChain(c, roots, chain[..n - 1]);
      ClosedHoldsChain(c, roots, closed, chain[..n - 1]);
    }
  }

  lemma ClosedHolds(c: Components, roots: set<string>, closed: set<string>, name: string)
    requires roots <= closed && Reaches(c, roots, name)
    requires forall n :: n in closed && n in c ==> Names(c[n]) <= closed
    ensures name in closed
  {
    hide Names;
    var chain :| IsChain(c, roots, chain) && chain[|chain| - 1] == name;
    ClosedHoldsChain(c, roots, closed, chain);
  }

  // --- Visiting ---

  datatype Error = ExternalReference | ClosureBound | TooManyRecords

  // Why a visit may fail: a reachable value holds a reference to elsewhere, a reachable schema is
  // missing, or there are too many of them.
  ghost predicate Fails(c: Components, roots: set<string>, error: Error) {
    match error
    case ExternalReference => exists n :: Reaches(c, roots, n) && n in c && !OnlyLocal(c[n])
    case ClosureBound =>
      || (exists n :: Reaches(c, roots, n) && !IsSchema(c, n))
      || MoreThanLimit(c, roots)
    case TooManyRecords => false
  }

  predicate IsSchema(c: Components, name: string) {
    name in c && IsTruthy(c[name])
  }

  // What is no schema: a name without a value, or with one that JavaScript takes for false.
  lemma NoSchemaExactly(c: Components, name: string)
    ensures !IsSchema(c, name) <==>
      name !in c || c[name] == Null || c[name] == Boolean(false) || c[name] == Number(0) || c[name] == Str("")
  {
  }

  ghost predicate MoreThanLimit(c: Components, roots: set<string>) {
    exists s: set<string> :: |s| > LIMIT && forall n :: n in s ==> Reaches(c, roots, n)
  }

  // All that a schema refers to is collected.
  ghost predicate Settled(c: Components, schemas: set<string>, name: string) {
    IsSchema(c, name) && OnlyLocal(c[name]) && Names(c[name]) <= schemas
  }

  ghost predicate AllReached(c: Components, roots: set<string>, names: set<string>) {
    forall n :: n in names ==> Reaches(c, roots, n)
  }

  lemma SettledGrows(c: Components, small: set<string>, large: set<string>)
    requires small <= large
    ensures forall n :: Settled(c, small, n) ==> Settled(c, large, n)
  {
  }

  function FieldValues(fields: seq<Field>): (values: seq<Json>)
    ensures |values| == |fields| && forall i :: 0 <= i < |fields| ==> values[i] == fields[i].value
  {
    seq(|fields|, i requires 0 <= i < |fields| => fields[i].value)
  }

  // The values directly inside another.
  function Parts(v: Json): seq<Json> {
    match v
    case Arr(items) => items
    case Obj(fields) => FieldValues(fields)
    case _ => []
  }

  lemma PartsCover(v: Json, schemas: set<string>)
    requires forall p :: p in Parts(v) ==> OnlyLocal(p) && Names(p) <= schemas
    requires v.Obj? && RefOf(v.fields).Some? ==>
      IsLocal(RefOf(v.fields).value) && NameOf(RefOf(v.fields).value) in schemas
    ensures OnlyLocal(v) && Names(v) <= schemas
  {
    forall r | r in Refs(v) ensures IsLocal(r) && NameOf(r) in schemas {
      if !(v.Obj? && RefOf(v.fields) == Some(r)) {
        var i :| 0 <= i < |Parts(v)| && r in Refs(Parts(v)[i]);
        assert Parts(v)[i] in Parts(v);
        assert IsLocal(r) && NameOf(r) in Names(Parts(v)[i]);
      }
    }
  }

  // What visiting a value fails with.
  ghost predicate VisitFails(c: Components, roots: set<string>, v: Json, error: Error) {
    (error == ExternalReference && !OnlyLocal(v)) || Fails(c, roots, error)
  }

  lemma RefIsName(v: Json)
    requires v.Obj? && RefOf(v.fields).Some?
    ensures !IsLocal(RefOf(v.fields).value) ==> !OnlyLocal(v)
    ensures IsLocal(RefOf(v.fields).value) ==> NameOf(RefOf(v.fields).value) in Names(v)
  {
    hide IsLocal, NameOf;
    assert RefOf(v.fields).value in Refs(v);
  }

  // A schema that may not be collected.
  lemma BoundIsMet(c: Components, roots: set<string>, schemas: set<string>, name: string)
    requires AllReached(c, roots, schemas) && Reaches(c, roots, name) && name !in schemas
    requires |schemas| >= LIMIT || !IsSchema(c, name)
    ensures Fails(c, roots, ClosureBound)
  {
    hide Reaches, IsSchema;
    assert |schemas + {name}| == |schemas| + 1;
  }

  // What a reachable schema refers to is reachable.
  lemma SchemaReaches(c: Components, roots: set<string>, via: string)
    requires Reaches(c, roots, via) && IsSchema(c, via)
    ensures via in c && AllReached(c, roots, Names(c[via]))
  {
    hide Reaches, Names;
    forall n | n in Names(c[via]) ensures Reaches(c, roots, n) {
      ReachesNext(c, roots, via, n);
    }
  }

  lemma SchemaFails(c: Components, roots: set<string>, name: string, error: Error)
    requires Reaches(c, roots, name) && IsSchema(c, name) && VisitFails(c, roots, c[name], error)
    ensures Fails(c, roots, error)
  {
    hide Reaches, OnlyLocal;
  }

  lemma ReachedWithin(c: Components, roots: set<string>, some: set<string>, all: set<string>)
    requires some <= all && AllReached(c, roots, all)
    ensures AllReached(c, roots, some)
  {
    hide Reaches;
  }

  lemma PartFails(c: Components, roots: set<string>, whole: Json, part: Json)
    requires Refs(part) <= Refs(whole)
    ensures Names(part) <= Names(whole)
    ensures forall e :: VisitFails(c, roots, part, e) ==> VisitFails(c, roots, whole, e)
  {
    hide Fails, IsLocal, NameOf, Refs;
  }

  class Collector {
    const components: Components
    var schemas: set<string>

    constructor (components: Components)
      ensures this.components == components && schemas == {}
    {
      this.components := components;
      schemas := {};
    }

    // `roots` are names that the values visited from outside refer to.
    method Visit(value: Json, ghost roots: set<string>) returns (error: Option<Error>)
      requires |schemas| <= LIMIT
      requires AllReached(components, roots, schemas) && AllReached(components, roots, Names(value))
      modifies this
      ensures old(schemas) <= schemas && |old(schemas)| <= |schemas| <= LIMIT
      ensures AllReached(components, roots, schemas)
      ensures error.None? ==> OnlyLocal(value) && Names(value) <= schemas
      ensures error.None? ==> forall n :: n in schemas - old(schemas) ==> Settled(components, schemas, n)
      ensures error.Some? ==> VisitFails(components, roots, value, error.value)
      decreases LIMIT - |schemas|, value, 1
    {
      match value {
        case Arr(items) =>
          error := VisitAll(items, value, roots);
        case Obj(fields) =>
          error := VisitRef(value, roots);
          if error.Some? {
            return;
          }
          ghost var before := schemas;
          error := VisitAll(FieldValues(fields), value, roots);
          SettledGrows(components, before, schemas);
        case _ =>
          return None;
      }
      if error.None? {
        PartsCover(value, schemas);
      }
    }

    method VisitAll(values: seq<Json>, ghost parent: Json, ghost roots: set<string>) returns (error: Option<Error>)
      requires |schemas| <= LIMIT && forall v :: v in values ==> v < parent && Refs(v) <= Refs(parent)
      requires AllReached(components, roots, schemas) && AllReached(components, roots, Names(parent))
      modifies this
      ensures old(schemas) <= schemas && |old(schemas)| <= |schemas| <= LIMIT
      ensures AllReached(components, roots, schemas)
      ensures error.None? ==> forall v :: v in values ==> OnlyLocal(v) && Names(v) <= schemas
      ensures error.None? ==> forall n :: n in schemas - old(schemas) ==> Settled(components, schemas, n)
      ensures error.Some? ==> VisitFails(components, roots, parent, error.value)
      decreases LIMIT - |schemas|, parent, 0
    {
      hide AllReached, OnlyLocal, Names, Settled, VisitFails, Refs;
      for i := 0 to |values|
        invariant old(schemas) <= schemas && |old(schemas)| <= |schemas| <= LIMIT
        invariant AllReached(components, roots, schemas)
        invariant forall j :: 0 <= j < i ==> OnlyLocal(values[j]) && Names(values[j]) <= schemas
        invariant forall n :: n in schemas - old(schemas) ==> Settled(components, schemas, n)
      {
        ghost var before := schemas;
        assert values[i] in values;
        PartFails(components, roots, parent, values[i]);
        ReachedWithin(components, roots, Names(values[i]), Names(parent));
        error := Visit(values[i], roots);
        if error.Some? {
          return;
        }
        SettledGrows(components, before, schemas);
      }
      error := None;
    }

    // The reference of an object, and the schema it names.
    method VisitRef(value: Json, ghost roots: set<string>) returns (error: Option<Error>)
      requires |schemas| <= LIMIT && value.Obj?
      requires AllReached(components, roots, schemas) && AllReached(components, roots, Names(value))
      modifies this
      ensures old(schemas) <= schemas && |old(schemas)| <= |schemas| <= LIMIT
      ensures AllReached(components, roots, schemas)
      ensures var ref := RefOf(value.fields);
        error.None? && ref.Some? ==> IsLocal(ref.value) && NameOf(ref.value) in schemas
      ensures error.None? ==> forall n :: n in schemas - old(schemas) ==> Settled(components, schemas, n)
      ensures error.Some? ==> VisitFails(components, roots, value, error.value)
      decreases LIMIT - |schemas|, value, 0
    {
      hide RefOf, IsLocal, NameOf, Names, OnlyLocal, Refs, Reaches, IsSchema, Fails;
      var ref := RefOf(value.fields);
      if ref.None? {
        return None;
      }
      RefIsName(value);
      if !IsLocal(ref.value) {
        return Some(ExternalReference);
      }
      var name := NameOf(ref.value);
      if name in schemas {
        return None;
      }
      if |schemas| >= LIMIT || !IsSchema(components, name) {
        BoundIsMet(components, roots, schemas, name);
        return Some(ClosureBound);
      }
      schemas := schemas + {name};
      SchemaReaches(components, roots, name);
      error := Visit(components[name], roots);
      if error.Some? {
        SchemaFails(components, roots, name, error.value);
      }
    }
  }

  // --- The fixture ---

  // An operation's route, and `{ [method]: api.paths[route][method] }`.
  datatype Operation = Operation(route: string, value: Json)

  datatype Record = Provenance | Path(route: string, value: Json) | Schema(name: string, value: Json)

  const MAX_RECORDS: nat := 400

  ghost function RootNames(operations: seq<Operation>): set<string> {
    set i, n | 0 <= i < |operations| && n in Names(operations[i].value) :: n
  }

  // Every reachable value refers to schemas only, every reachable schema exists, and there are not too
  // many of them.
  ghost predicate IsClosable(c: Components, operations: seq<Operation>) {
    && (forall i :: 0 <= i < |operations| ==> OnlyLocal(operations[i].value))
    && (forall n :: Reaches(c, RootNames(operations), n) ==> IsSchema(c, n) && OnlyLocal(c[n]))
    && !MoreThanLimit(c, RootNames(operations))
  }

  lemma FailureIsReal(c: Components, operations: seq<Operation>, i: nat, error: Error)
    requires i < |operations| && VisitFails(c, RootNames(operations), operations[i].value, error)
    ensures !IsClosable(c, operations) && error != TooManyRecords
  {
  }

  // Everything before the i-th operation is visited.
  ghost predicate Visited(c: Components, operations: seq<Operation>, i: nat, schemas: set<string>)
    requires i <= |operations|
  {
    && (forall j :: 0 <= j < i ==> OnlyLocal(operations[j].value) && Names(operations[j].value) <= schemas)
    && (forall n :: n in schemas ==> Settled(c, schemas, n))
  }

  lemma VisitedNext(c: Components, operations: seq<Operation>, i: nat, before: set<string>, after: set<string>)
    requires i < |operations| && Visited(c, operations, i, before) && before <= after
    requires OnlyLocal(operations[i].value) && Names(operations[i].value) <= after
    requires forall n :: n in after - before ==> Settled(c, after, n)
    ensures Visited(c, operations, i + 1, after)
  {
    hide OnlyLocal, Names, Settled;
    SettledGrows(c, before, after);
  }

  lemma RootsReached(c: Components, operations: seq<Operation>, i: nat)
    requires i < |operations|
    ensures AllReached(c, RootNames(operations), Names(operations[i].value))
  {
    forall n | n in Names(operations[i].value) ensures Reaches(c, RootNames(operations), n) {
      ReachesRoot(c, RootNames(operations), n);
    }
  }

  // All operations visited, one after the other: exactly the reachable names, or an error.
  method Collect(operations: seq<Operation>, components: Components) returns (schemas: set<string>, error: Option<Error>)
    ensures error.None? <==> IsClosable(components, operations)
    ensures error.None? ==> forall n :: n in schemas <==> Reaches(components, RootNames(operations), n)
    ensures error.None? ==> |schemas| <= LIMIT
    ensures error != Some(TooManyRecords)
  {
    hide OnlyLocal, Names, Settled, Reaches, AllReached, VisitFails, IsClosable, RootNames;
    var collector := new Collector(components);
    ghost var roots := RootNames(operations);
    schemas := {};
    assert AllReached(components, roots, {}) && Visited(components, operations, 0, {}) by {
      NothingVisited(components, operations, roots);
    }
    for i := 0 to |operations|
      invariant |collector.schemas| <= LIMIT && AllReached(components, roots, collector.schemas)
      invariant Visited(components, operations, i, collector.schemas)
    {
      ghost var before := collector.schemas;
      RootsReached(components, operations, i);
      error := collector.Visit(operations[i].value, roots);
      if error.Some? {
        FailureIsReal(components, operations, i, error.value);
        return;
      }
      VisitedNext(components, operations, i, before, collector.schemas);
    }
    error := None;
    schemas := collector.schemas;
    CollectedIsReachable(components, operations, schemas);
  }

  lemma NothingVisited(c: Components, operations: seq<Operation>, roots: set<string>)
    ensures AllReached(c, roots, {}) && Visited(c, operations, 0, {})
  {
  }

  lemma CollectedIsReachable(c: Components, operations: seq<Operation>, schemas: set<string>)
    requires |schemas| <= LIMIT && AllReached(c, RootNames(operations), schemas)
    requires Visited(c, operations, |operations|, schemas)
    ensures IsClosable(c, operations)
    ensures forall n :: n in schemas <==> Reaches(c, RootNames(operations), n)
  {
    hide Names, Reaches, OnlyLocal;
    var roots := RootNames(operations);
    RootsVisited(c, operations, schemas);
    forall n | Reaches(c, roots, n) ensures n in schemas {
      ClosedHolds(c, roots, schemas, n);
    }
    forall s: set<string> | forall n :: n in s ==> Reaches(c, roots, n) ensures |s| <= LIMIT {
      assert s <= schemas;
      SubsetSize(s, schemas);
    }
  }

  lemma RootsVisited(c: Components, operations: seq<Operation>, schemas: set<string>)
    requires Visited(c, operations, |operations|, schemas)
    ensures RootNames(operations) <= schemas
  {
    hide Names, OnlyLocal, Settled;
  }

  lemma {:induction false} SubsetSize(a: set<string>, b: set<string>)
    requires a <= b
    ensures |a| <= |b|
    decreases a
  {
    if a != {} {
      var x := SomeElement(a);
      SubsetSize(a - {x}, b - {x});
    }
  }

  function RecordValue(r: Record): Json {
    match r
    case Provenance => Null
    case Path(_, value) => value
    case Schema(_, value) => value
  }

  // Every reference in a record leads to the schema record of its own.
  ghost predicate HasAllSchemas(records: seq<Record>, c: Components) {
    forall r, ref :: r in records && ref in Refs(RecordValue(r)) ==>
      IsLocal(ref) && NameOf(ref) in c && Schema(NameOf(ref), c[NameOf(ref)]) in records
  }

  function PathRecords(operations: seq<Operation>): (records: seq<Record>)
    ensures |records| == |operations|
    ensures forall i :: 0 <= i < |records| ==> records[i] == Path(operations[i].route, operations[i].value)
  {
    seq(|operations|, i requires 0 <= i < |operations| => Path(operations[i].route, operations[i].value))
  }

  function SchemaRecords(names: seq<string>, c: Components): (records: seq<Record>)
    requires forall n :: n in names ==> n in c
    ensures |records| == |names|
    ensures forall i :: 0 <= i < |records| ==> records[i] == Schema(names[i], c[names[i]])
  {
    seq(|names|, i requires 0 <= i < |names| => Schema(names[i], c[names[i]]))
  }

  // The provenance, the operations, and the reachable schemas in increasing order.
  ghost predicate IsFixture(records: seq<Record>, operations: seq<Operation>, c: Components, names: seq<string>) {
    && IsSorted(names) && (forall n :: n in names <==> Reaches(c, RootNames(operations), n))
    && (forall n :: n in names ==> n in c)
    && records == [Provenance] + PathRecords(operations) + SchemaRecords(names, c)
  }

  lemma FixtureHasAllSchemas(records: seq<Record>, operations: seq<Operation>, c: Components, names: seq<string>)
    requires IsFixture(records, operations, c, names) && IsClosable(c, operations)
    ensures HasAllSchemas(records, c)
  {
    hide IsFixture, IsClosable, Refs, IsLocal, NameOf;
    NoRefsInNull();
    forall r, ref | r in records && ref in Refs(RecordValue(r))
      ensures IsLocal(ref) && NameOf(ref) in c && Schema(NameOf(ref), c[NameOf(ref)]) in records
    {
      RecordIs(r, records, operations, c, names);
      match r {
        case Path(_, _) =>
          var i :| 0 <= i < |operations| && r == Path(operations[i].route, operations[i].value);
          RefOfOperation(c, operations, i, ref);
        case Schema(name, _) =>
          assert Reaches(c, RootNames(operations), name) by {
            NamesReached(records, operations, c, names, name);
          }
          RefOfSchema(c, operations, name, ref);
        case Provenance =>
          assert false;
      }
      HasSchema(records, operations, c, names, NameOf(ref));
    }
  }

  lemma NoRefsInNull()
    ensures Refs(Null) == {}
  {
  }

  lemma NamesReached(records: seq<Record>, operations: seq<Operation>, c: Components, names: seq<string>, n: string)
    requires IsFixture(records, operations, c, names)
    ensures n in names <==> Reaches(c, RootNames(operations), n)
  {
    hide Reaches, RootNames;
  }

  lemma HasSchema(records: seq<Record>, operations: seq<Operation>, c: Components, names: seq<string>, n: string)
    requires IsFixture(records, operations, c, names) && Reaches(c, RootNames(operations), n)
    ensures n in c && Schema(n, c[n]) in records
  {
    hide Reaches, RootNames;
    var k :| 0 <= k < |names| && names[k] == n;
    assert SchemaRecords(names, c)[k] == Schema(n, c[n]);
    assert records[1 + |operations| + k] == Schema(n, c[n]);
  }

  lemma RefOfOperation(c: Components, operations: seq<Operation>, i: nat, ref: string)
    requires IsClosable(c, operations) && i < |operations| && ref in Refs(operations[i].value)
    ensures IsLocal(ref) && Reaches(c, RootNames(operations), NameOf(ref))
  {
    hide Refs, NameOf, IsLocal, Reaches;
    assert OnlyLocal(operations[i].value);
    assert NameOf(ref) in Names(operations[i].value);
    ReachesRoot(c, RootNames(operations), NameOf(ref));
  }

  lemma RefOfSchema(c: Components, operations: seq<Operation>, name: string, ref: string)
    requires IsClosable(c, operations) && Reaches(c, RootNames(operations), name) && name in c && ref in Refs(c[name])
    ensures IsLocal(ref) && Reaches(c, RootNames(operations), NameOf(ref))
  {
    hide Refs, NameOf, IsLocal, Reaches, RootNames;
    assert NameOf(ref) in Names(c[name]);
    ReachesNext(c, RootNames(operations), name, NameOf(ref));
  }

  lemma RecordIs(r: Record, records: seq<Record>, operations: seq<Operation>, c: Components, names: seq<string>)
    requires IsFixture(records, operations, c, names) && r in records
    ensures r.Path? ==> exists i :: 0 <= i < |operations| && r == Path(operations[i].route, operations[i].value)
    ensures r.Schema? ==> r.name in names && r.name in c && r.value == c[r.name]
  {
    hide Reaches, RootNames;
    var paths, schemas := PathRecords(operations), SchemaRecords(names, c);
    var k :| 0 <= k < |records| && records[k] == r;
    if 1 <= k < 1 + |paths| {
      assert r == paths[k - 1];
    } else if k > |paths| {
      assert r == schemas[k - 1 - |paths|];
    }
  }

  // Fails exactly where the closure does, or where the records are too many; otherwise the fixture holds
  // a schema record for every reference in it, and for no other name.
  method Generate(operations: seq<Operation>, components: Components)
    returns (result: Result<seq<Record>, Error>, names: seq<string>)
    ensures IsClosable(components, operations) <==> (result.Ok? || result.error == TooManyRecords)
    ensures result.Ok? ==> |result.value| <= MAX_RECORDS && IsFixture(result.value, operations, components, names)
    ensures result.Ok? ==> HasAllSchemas(result.value, components)
    ensures result.Err? && result.error == TooManyRecords ==>
      && 1 + |operations| + |names| > MAX_RECORDS
      && IsSorted(names) && forall n :: n in names <==> Reaches(components, RootNames(operations), n)
  {
    hide IsClosable, HasAllSchemas, Reaches, RootNames;
    names := [];
    var schemas, error := Collect(operations, components);
    if error.Some? {
      return Err(error.value), [];
    }
    ClosableSchemas(components, operations);
    names := Sorted(schemas);
    var records := [Provenance];
    for i := 0 to |operations|
      invariant records == [Provenance] + PathRecords(operations)[..i]
    {
      records := records + [Path(operations[i].route, operations[i].value)];
    }
    for i := 0 to |names|
      invariant records == [Provenance] + PathRecords(operations) + SchemaRecords(names, components)[..i]
    {
      records := records + [Schema(names[i], components[names[i]])];
    }
    FixtureHasAllSchemas(records, operations, components, names);
    if |records| > MAX_RECORDS {
      return Err(TooManyRecords), names;
    }
    result := Ok(records);
  }

  lemma ClosableSchemas(c: Components, operations: seq<Operation>)
    requires IsClosable(c, operations)
    ensures forall n :: Reaches(c, RootNames(operations), n) ==> n in c
  {
  }
}
