/** Fail-closed schema-drift detection (windbreak/connector/validation.py). */
module SchemaValidation {
  import opened Numeric

  const WILDCARD := "*"
  const UNREGISTERED_VERSION := 0

  /** A raw payload: a mapping keeps its entries in order. */
  datatype Value = Scalar | Items(items: seq<Value>) | Mapping(entries: seq<Entry>)

  datatype Entry = Entry(name: string, value: Value)

  datatype Field = Field(name: string, child: Option<Schema>)

  datatype Schema = Schema(key: string, version: int, recognized: seq<Field>, cosmetic: set<string>)

  datatype Anomaly = Anomaly(schemaKey: string, version: int, fields: seq<string>)

  predicate Recognizes(s: Schema, name: string)
  {
    exists i :: 0 <= i < |s.recognized| && s.recognized[i].name == name
  }

  /** The names a mapping holds that its schema neither recognizes nor calls cosmetic. */
  function Offending(s: Schema, entries: seq<Entry>): (r: seq<string>)
    ensures forall n :: n in r <==> !Recognizes(s, n) && n !in s.cosmetic && exists e :: e in entries && e.name == n
  {
    if entries == [] then []
    else
      var rest := Offending(s, entries[1..]);
      var n := entries[0].name;
      assert entries == [entries[0]] + entries[1..];
      if !Recognizes(s, n) && n !in s.cosmetic then [n] + rest else rest
  }

  function Lookup(entries: seq<Entry>, name: string): Option<Value>
  {
    if entries == [] then None
    else if entries[0].name == name then Some(entries[0].value)
    else Lookup(entries[1..], name)
  }

  // ---------------------------------------------------------------- the search

  /** This level's own drift first, then the children's. */
  function FindAnomaly(s: Schema, entries: seq<Entry>): Option<Anomaly>
    decreases s, 3
  {
    var offending := Offending(s, entries);
    if offending != [] then Some(Anomaly(s.key, s.version, offending)) else FirstChildAnomaly(s, entries, 0)
  }

  function FirstChildAnomaly(s: Schema, entries: seq<Entry>, i: nat): Option<Anomaly>
    requires i <= |s.recognized|
    decreases s, 2, |s.recognized| - i
  {
    if i == |s.recognized| then None
    else
      var found := FieldAnomaly(s, entries, i);
      if found.Some? then found else FirstChildAnomaly(s, entries, i + 1)
  }

  /** What recognized field `i` contributes: nothing without a child schema or a value. */
  function FieldAnomaly(s: Schema, entries: seq<Entry>, i: nat): Option<Anomaly>
    requires i < |s.recognized|
    decreases s, 1
  {
    var f := s.recognized[i];
    if f.child.None? || Lookup(entries, f.name).None? then None
    else FirstItemAnomaly(f.child.value, ItemsOf(Lookup(entries, f.name).value), 0)
  }

  /** A lone value is a one-item list. */
  function ItemsOf(v: Value): seq<Value>
  {
    if v.Items? then v.items else [v]
  }

  function FirstItemAnomaly(s: Schema, items: seq<Value>, k: nat): Option<Anomaly>
    requires k <= |items|
    decreases s, 4, |items| - k
  {
    if k == |items| then None
    else
      var found := if items[k].Mapping? then FindAnomaly(s, items[k].entries) else None;
      if found.Some? then found else FirstItemAnomaly(s, items, k + 1)
  }

  // ---------------------------------------------------------------- reachable mappings

  /** A mapping met under a schema. */
  datatype Node = Node(schema: Schema, entries: seq<Entry>)

  ghost predicate FirstAt(entries: seq<Entry>, name: string, value: Value, k: nat)
    requires k < |entries|
  {
    entries[k] == Entry(name, value) && forall j :: 0 <= j < k ==> entries[j].name != name
  }

  /** What a dictionary holds under a name. */
  ghost predicate Holds(entries: seq<Entry>, name: string, value: Value)
  {
    exists k :: 0 <= k < |entries| && FirstAt(entries, name, value, k)
  }

  /** A value offers a mapping by being it or by listing it. */
  ghost predicate Offers(value: Value, entries: seq<Entry>)
  {
    value == Mapping(entries) || (value.Items? && Mapping(entries) in value.items)
  }

  /** One step down: a recognized field with a child schema holds a value that offers the mapping. */
  ghost predicate LeadsTo(n: Node, m: Node)
  {
    exists i, value ::
      && 0 <= i < |n.schema.recognized| && n.schema.recognized[i].child == Some(m.schema)
      && Holds(n.entries, n.schema.recognized[i].name, value) && Offers(value, m.entries)
  }

  /** A way down from one mapping to another. */
  ghost predicate Trail(path: seq<Node>)
  {
    path != [] && forall k :: 0 <= k < |path| - 1 ==> LeadsTo(path[k], path[k + 1])
  }

  /** A field that is present, not cosmetic, and named by no recognized field. */
  ghost predicate Offends(n: Node, name: string)
  {
    && (exists e :: e in n.entries && e.name == name)
    && name !in n.schema.cosmetic
    && (forall i :: 0 <= i < |n.schema.recognized| ==> n.schema.recognized[i].name != name)
  }

  ghost predicate Drifting(n: Node)
  {
    exists name :: Offends(n, name)
  }

  ghost predicate DriftsAt(n: Node, path: seq<Node>)
  {
    Trail(path) && path[0] == n && Drifting(path[|path| - 1])
  }

  ghost predicate Drifts(n: Node)
  {
    exists path :: DriftsAt(n, path)
  }

  /** The report names one reachable drifting mapping and exactly its offending fields. */
  ghost predicate Explains(n: Node, path: seq<Node>, a: Anomaly)
  {
    && DriftsAt(n, path)
    && var at := path[|path| - 1];
       && a.schemaKey == at.schema.key && a.version == at.schema.version
       && forall name :: name in a.fields <==> Offends(at, name)
  }

  lemma {:induction false} LookupHolds(entries: seq<Entry>, name: string, value: Value)
    ensures Lookup(entries, name) == Some(value) <==> Holds(entries, name, value)
  {
    if entries != [] {
      LookupHolds(entries[1..], name, value);
      if entries[0].name == name {
        assert Lookup(entries, name) == Some(value) ==> FirstAt(entries, name, value, 0);
      } else {
        if k :| 0 <= k < |entries| && FirstAt(entries, name, value, k) {
          assert forall j :: 0 <= j < k - 1 ==> entries[1..][j] == entries[j + 1];
          assert FirstAt(entries[1..], name, value, k - 1);
        }
        if k :| 0 <= k < |entries| - 1 && FirstAt(entries[1..], name, value, k) {
          forall j | 0 <= j < k + 1 ensures entries[j].name != name {
            assert j > 0 ==> entries[j] == entries[1..][j - 1];
          }
          assert FirstAt(entries, name, value, k + 1);
        }
      }
    }
  }

  lemma ItemsOffer(value: Value, entries: seq<Entry>)
    ensures Offers(value, entries) <==> Mapping(entries) in ItemsOf(value)
  {}

  lemma OffendingIsOffends(n: Node)
    ensures forall name :: name in Offending(n.schema, n.entries) <==> Offends(n, name)
    ensures Offending(n.schema, n.entries) != [] <==> Drifting(n)
  {
    var offending := Offending(n.schema, n.entries);
    if offending != [] { assert offending[0] in offending; }
  }

  // ---------------------------------------------------------------- soundness

  lemma {:induction false} AnomalyIsReal(s: Schema, entries: seq<Entry>) returns (path: seq<Node>)
    requires FindAnomaly(s, entries).Some?
    ensures Explains(Node(s, entries), path, FindAnomaly(s, entries).value)
    decreases s, 3
  {
    var n := Node(s, entries);
    OffendingIsOffends(n);
    if Offending(s, entries) != [] {
      path := [n];
    } else {
      path := ChildAnomalyIsReal(s, entries, 0);
    }
  }

  lemma {:induction false} ChildAnomalyIsReal(s: Schema, entries: seq<Entry>, i: nat) returns (path: seq<Node>)
    requires i <= |s.recognized| && FirstChildAnomaly(s, entries, i).Some?
    ensures Explains(Node(s, entries), path, FirstChildAnomaly(s, entries, i).value)
    decreases s, 2, |s.recognized| - i
  {
    hide Offends, Holds, Offers;
    if FieldAnomaly(s, entries, i).Some? {
      var f := s.recognized[i];
      var value := Lookup(entries, f.name).value;
      var k, rest := ItemAnomalyIsReal(f.child.value, ItemsOf(value), 0);
      var below := ItemsOf(value)[k].entries;
      LookupHolds(entries, f.name, value);
      ItemsOffer(value, below);
      assert Mapping(below) == ItemsOf(value)[k];
      PutInFront(Node(s, entries), Node(f.child.value, below), rest, FirstChildAnomaly(s, entries, i).value);
      path := [Node(s, entries)] + rest;
    } else {
      path := ChildAnomalyIsReal(s, entries, i + 1);
    }
  }

  lemma PutInFront(n: Node, m: Node, rest: seq<Node>, a: Anomaly)
    requires LeadsTo(n, m) && Explains(m, rest, a)
    ensures Explains(n, [n] + rest, a)
  {
    hide LeadsTo, Offends;
    var path := [n] + rest;
    forall k | 0 <= k < |path| - 1 ensures LeadsTo(path[k], path[k + 1]) {
      if k > 0 { assert path[k] == rest[k - 1] && path[k + 1] == rest[k]; }
    }
    assert path[|path| - 1] == rest[|rest| - 1];
  }

  lemma {:induction false} ItemAnomalyIsReal(s: Schema, items: seq<Value>, k: nat) returns (at: nat, path: seq<Node>)
    requires k <= |items| && FirstItemAnomaly(s, items, k).Some?
    ensures at < |items| && items[at].Mapping?
    ensures Explains(Node(s, items[at].entries), path, FirstItemAnomaly(s, items, k).value)
    decreases s, 4, |items| - k
  {
    if items[k].Mapping? && FindAnomaly(s, items[k].entries).Some? {
      at := k;
      path := AnomalyIsReal(s, items[k].entries);
    } else {
      at, path := ItemAnomalyIsReal(s, items, k + 1);
    }
  }

  // ---------------------------------------------------------------- completeness

  lemma {:induction false} NoItemAnomaly(s: Schema, items: seq<Value>, k: nat, at: nat)
    requires k <= at < |items| && FirstItemAnomaly(s, items, k).None? && items[at].Mapping?
    ensures FindAnomaly(s, items[at].entries).None?
    decreases at - k
  {
    if k < at { NoItemAnomaly(s, items, k + 1, at); }
  }

  lemma {:induction false} NoChildAnomaly(s: Schema, entries: seq<Entry>, i: nat, at: nat)
    requires i <= at < |s.recognized| && FirstChildAnomaly(s, entries, i).None?
    ensures FieldAnomaly(s, entries, at).None?
    decreases at - i
  {
    if i < at { NoChildAnomaly(s, entries, i + 1, at); }
  }

  /** A clean mapping leads only to clean mappings. */
  lemma CleanBelow(n: Node, m: Node)
    requires FindAnomaly(n.schema, n.entries).None? && LeadsTo(n, m)
    ensures FindAnomaly(m.schema, m.entries).None?
  {
    hide Holds, Offers, Offends;
    var i, value :| 0 <= i < |n.schema.recognized| && n.schema.recognized[i].child == Some(m.schema)
                    && Holds(n.entries, n.schema.recognized[i].name, value) && Offers(value, m.entries);
    LookupHolds(n.entries, n.schema.recognized[i].name, value);
    ItemsOffer(value, m.entries);
    NoChildAnomaly(n.schema, n.entries, 0, i);
    var k :| 0 <= k < |ItemsOf(value)| && ItemsOf(value)[k] == Mapping(m.entries);
    NoItemAnomaly(m.schema, ItemsOf(value), 0, k);
  }

  lemma {:induction false} CleanMeansClean(n: Node, path: seq<Node>)
    requires FindAnomaly(n.schema, n.entries).None?
    ensures !DriftsAt(n, path)
    decreases |path|
  {
    if DriftsAt(n, path) {
      OffendingIsOffends(n);
      if |path| > 1 {
        hide LeadsTo, Offends;
        var rest := path[1..];
        CleanBelow(n, path[1]);
        assert forall k :: 0 <= k < |rest| ==> rest[k] == path[k + 1];
        CleanMeansClean(path[1], rest);
      }
    }
  }

  /** The search finds something exactly when a reachable mapping drifts, and what it finds is
      that mapping's full list of offending fields. */
  lemma SearchIsSoundAndComplete(s: Schema, entries: seq<Entry>)
    ensures FindAnomaly(s, entries).Some? <==> Drifts(Node(s, entries))
    ensures FindAnomaly(s, entries).Some? ==>
              exists path :: Explains(Node(s, entries), path, FindAnomaly(s, entries).value)
  {
    if FindAnomaly(s, entries).Some? {
      var path := AnomalyIsReal(s, entries);
      assert DriftsAt(Node(s, entries), path);
    } else {
      forall path ensures !DriftsAt(Node(s, entries), path) {
        CleanMeansClean(Node(s, entries), path);
      }
    }
  }

  // ---------------------------------------------------------------- the registry

  datatype Registration = Registration(pattern: seq<string>, schema: Schema)

  predicate PatternMatches(pattern: seq<string>, segments: seq<string>)
  {
    |pattern| == |segments| && forall i :: 0 <= i < |pattern| ==> pattern[i] == WILDCARD || pattern[i] == segments[i]
  }

  /** A pattern with its wildcards filled in from the path. */
  ghost function Filled(pattern: seq<string>, segments: seq<string>): seq<string>
    requires |pattern| == |segments|
  {
    seq(|pattern|, i requires 0 <= i < |pattern| => if pattern[i] == "*" then segments[i] else pattern[i])
  }

  /** A path fits a pattern when filling the wildcards gives the path back. */
  ghost predicate Fits(pattern: seq<string>, segments: seq<string>)
  {
    |pattern| == |segments| && Filled(pattern, segments) == segments
  }

  lemma MatchesIffFits(pattern: seq<string>, segments: seq<string>)
    ensures PatternMatches(pattern, segments) <==> Fits(pattern, segments)
  {
    if Fits(pattern, segments) {
      forall i | 0 <= i < |pattern| ensures pattern[i] == WILDCARD || pattern[i] == segments[i] {
        assert Filled(pattern, segments)[i] == segments[i];
      }
    }
  }

  /** The first registered pattern that fits wins. */
  method SchemaFor(registry: seq<Registration>, segments: seq<string>) returns (r: Option<Schema>)
    ensures r.None? <==> forall k :: 0 <= k < |registry| ==> !Fits(registry[k].pattern, segments)
    ensures r.Some? ==> exists k ::
              && 0 <= k < |registry| && Fits(registry[k].pattern, segments) && registry[k].schema == r.value
              && forall j :: 0 <= j < k ==> !Fits(registry[j].pattern, segments)
  {
    var k := 0;
    while k < |registry|
      invariant 0 <= k <= |registry|
      invariant forall j :: 0 <= j < k ==> !Fits(registry[j].pattern, segments)
    {
      MatchesIffFits(registry[k].pattern, segments);
      if PatternMatches(registry[k].pattern, segments) { return Some(registry[k].schema); }
      k := k + 1;
    }
    r := None;
  }

  /** The loops of the search. */
  method Search(s: Schema, entries: seq<Entry>) returns (r: Option<Anomaly>)
    ensures r == FindAnomaly(s, entries)
    decreases s, 1
  {
    var offending := Offending(s, entries);
    if offending != [] { return Some(Anomaly(s.key, s.version, offending)); }
    var i := 0;
    while i < |s.recognized|
      invariant 0 <= i <= |s.recognized|
      invariant FirstChildAnomaly(s, entries, 0) == FirstChildAnomaly(s, entries, i)
    {
      var f := s.recognized[i];
      var value := Lookup(entries, f.name);
      if f.child.Some? && value.Some? {
        var found := SearchItems(f.child.value, ItemsOf(value.value));
        if found.Some? { return found; }
      }
      i := i + 1;
    }
    r := None;
  }

  method SearchItems(s: Schema, items: seq<Value>) returns (r: Option<Anomaly>)
    ensures r == FirstItemAnomaly(s, items, 0)
    decreases s, 2
  {
    var k := 0;
    while k < |items|
      invariant 0 <= k <= |items|
      invariant FirstItemAnomaly(s, items, 0) == FirstItemAnomaly(s, items, k)
    {
      if items[k].Mapping? {
        var found := Search(s, items[k].entries);
        if found.Some? { return found; }
      }
      k := k + 1;
    }
    r := None;
  }

  function Joined(segments: seq<string>): string
  {
    if segments == [] then "" else if |segments| == 1 then segments[0] else segments[0] + "/" + Joined(segments[1..])
  }

  /** A path is its segments with slashes between them. */
  lemma {:induction false} JoinedAppend(a: seq<string>, b: seq<string>)
    requires a != [] && b != []
    ensures Joined(a + b) == Joined(a) + "/" + Joined(b)
    ensures |a| == 1 ==> Joined(a) == a[0]
  {
    if |a| == 1 {
      assert (a + b)[1..] == b;
    } else {
      assert (a + b)[1..] == a[1..] + b;
      JoinedAppend(a[1..], b);
    }
  }

  ghost predicate Registered(registry: seq<Registration>, segments: seq<string>)
  {
    exists k :: 0 <= k < |registry| && Fits(registry[k].pattern, segments)
  }

  ghost function SchemaOf(registry: seq<Registration>, segments: seq<string>): Schema
    requires Registered(registry, segments)
  {
    if Fits(registry[0].pattern, segments) then registry[0].schema
    else
      assert Registered(registry[1..], segments) by {
        var k :| 0 <= k < |registry| && Fits(registry[k].pattern, segments);
        assert registry[1..][k - 1] == registry[k];
      }
      SchemaOf(registry[1..], segments)
  }

  lemma {:induction false} FirstMatchIsSchema(registry: seq<Registration>, segments: seq<string>, k: nat)
    requires k < |registry| && Fits(registry[k].pattern, segments)
    requires forall j :: 0 <= j < k ==> !Fits(registry[j].pattern, segments)
    ensures SchemaOf(registry, segments) == registry[k].schema
  {
    if k > 0 { FirstMatchIsSchema(registry[1..], segments, k - 1); }
  }

  class SchemaValidator {
    const registry: seq<Registration>
    /** Every attempt to record an anomaly event; a failing writer is isolated. */
    var events: seq<Anomaly>

    constructor (registry: seq<Registration>)
      ensures this.registry == registry && events == []
    {
      this.registry := registry;
      events := [];
    }

    /** Accept a payload exactly when its path is registered and nothing reachable drifts; one
        event for drift, none for an unregistered path. */
    method Validate(segments: seq<string>, payload: seq<Entry>) returns (halt: Option<Anomaly>)
      modifies this`events
      ensures halt.None? <==> Registered(registry, segments) && !Drifts(Node(SchemaOf(registry, segments), payload))
      ensures !Registered(registry, segments) ==>
                halt == Some(Anomaly(Joined(segments), UNREGISTERED_VERSION, [])) && events == old(events)
      ensures Registered(registry, segments) && halt.Some? ==>
                && events == old(events) + [halt.value]
                && exists path :: Explains(Node(SchemaOf(registry, segments), payload), path, halt.value)
      ensures halt.None? ==> events == old(events)
    {
      var schema := SchemaFor(registry, segments);
      if schema.None? {
        return Some(Anomaly(Joined(segments), UNREGISTERED_VERSION, []));
      }
      assert Registered(registry, segments) && schema.value == SchemaOf(registry, segments) by {
        var k :| 0 <= k < |registry| && Fits(registry[k].pattern, segments)
            && registry[k].schema == schema.value
                 && forall j :: 0 <= j < k ==> !Fits(registry[j].pattern, segments);
        FirstMatchIsSchema(registry, segments, k);
      }
      SearchIsSoundAndComplete(schema.value, payload);
      var anomaly := Search(schema.value, payload);
      if anomaly.None? { return None; }
      events := events + [anomaly.value];
      halt := anomaly;
    }
  }
}
