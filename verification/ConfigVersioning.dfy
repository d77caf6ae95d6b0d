/** Flattening configurations to dotted leaf paths and diffing them
    (windbreak/config/versioning.py). */
module ConfigVersioning {
  import opened Numeric

  datatype Scalar = Num(n: int) | Text(s: string) | Flag(b: bool) | Null

  /** The language's `==` counts a flag as the number one or zero. */
  function Canon(v: Scalar): Scalar
  {
    if v.Flag? then Num(if v.b then 1 else 0) else v
  }

  predicate Equal(a: Scalar, b: Scalar)
  {
    Canon(a) == Canon(b)
  }

  datatype Node = Leaf(value: Scalar) | Dict(entries: seq<Entry>) | Tuple(items: seq<Node>)

  datatype Entry = Entry(key: string, node: Node)

  // ---------------------------------------------------------------- keys

  const DIGITS := "0123456789"

  /** `str(index)`. */
  function Decimal(n: nat): (s: string)
    ensures s != "" && '.' !in s && (n > 0 ==> s[0] != '0') && (n < 10 ==> |s| == 1)
  {
    if n < 10 then [DIGITS[n]] else Decimal(n / 10) + [DIGITS[n % 10]]
  }

  function DigitValue(c: char): int
  {
    c as int - '0' as int
  }

  function ParseDecimal(s: string): int
  {
    if s == "" then 0 else 10 * ParseDecimal(s[..|s| - 1]) + DigitValue(s[|s| - 1])
  }

  lemma DigitRoundTrip(d: nat)
    requires d < 10
    ensures DigitValue(DIGITS[d]) == d
  {}

  lemma {:induction false} DecimalRoundTrip(n: nat)
    ensures ParseDecimal(Decimal(n)) == n
  {
    DigitRoundTrip(n % 10);
    var s := Decimal(n);
    if n < 10 {
      assert s[..|s| - 1] == "";
    } else {
      assert s[..|s| - 1] == Decimal(n / 10);
      DecimalRoundTrip(n / 10);
    }
  }

  function JoinPath(prefix: string, key: string): string
  {
    if prefix == "" then key else prefix + "." + key
  }

  /** A key that cannot be confused with a path: non-empty and dot-free. */
  predicate GoodKey(key: string)
  {
    key != "" && '.' !in key
  }

  // ---------------------------------------------------------------- flattening

  /** The children a node is flattened through, with the key each contributes. */
  function ChildrenOf(node: Node): (r: seq<Entry>)
    requires !node.Leaf?
    ensures forall i :: 0 <= i < |r| ==> r[i].node < node
    ensures node.Dict? ==> r == node.entries
    ensures node.Tuple? ==> |r| == |node.items| && forall i :: 0 <= i < |r| ==> r[i] == Entry(Decimal(i), node.items[i])
  {
    if node.Dict? then node.entries
    else seq(|node.items|, i requires 0 <= i < |node.items| => Entry(Decimal(i), node.items[i]))
  }

  function Flatten(node: Node, prefix: string): map<string, Scalar>
    decreases node, 1, 0
  {
    if node.Leaf? then map[prefix := node.value] else FlattenFirst(node, prefix, |ChildrenOf(node)|)
  }

  /** The first `n` children merged in order. */
  function FlattenFirst(node: Node, prefix: string, n: nat): map<string, Scalar>
    requires !node.Leaf? && n <= |ChildrenOf(node)|
    decreases node, 0, n
  {
    if n == 0 then map[]
    else
      var child := ChildrenOf(node)[n - 1];
      FlattenFirst(node, prefix, n - 1) + Flatten(child.node, JoinPath(prefix, child.key))
  }

  lemma FlattenStep(node: Node, prefix: string, i: nat)
    requires !node.Leaf? && i < |ChildrenOf(node)|
    ensures FlattenFirst(node, prefix, 0) == map[]
    ensures var child := ChildrenOf(node)[i];
            FlattenFirst(node, prefix, i + 1)
                == FlattenFirst(node, prefix, i) + Flatten(child.node, JoinPath(prefix, child.key))
  {}

  lemma FlattenWhole(node: Node, prefix: string)
    ensures Flatten(node, prefix)
         == if node.Leaf? then map[prefix := node.value] else FlattenFirst(node, prefix, |ChildrenOf(node)|)
    ensures !node.Leaf? ==> FlattenFirst(node, prefix, 0) == map[]
  {}

  method FlattenNode(node: Node, prefix: string) returns (result: map<string, Scalar>)
    ensures result == Flatten(node, prefix)
    decreases node
  {
    hide Flatten, FlattenFirst, JoinPath, Decimal;
    FlattenWhole(node, prefix);
    if node.Leaf? { return map[prefix := node.value]; }
    result := map[];
    var children := ChildrenOf(node);
    var i := 0;
    while i < |children|
      invariant 0 <= i <= |children|
      invariant result == FlattenFirst(node, prefix, i)
    {
      FlattenStep(node, prefix, i);
      var below := FlattenNode(children[i].node, JoinPath(prefix, children[i].key));
      result := result + below;
      i := i + 1;
    }
  }

  // ---------------------------------------------------------------- leaves by key path

  function Find(children: seq<Entry>, key: string): (r: Option<nat>)
    ensures r.Some? ==> r.value < |children| && children[r.value].key == key
    ensures r.None? ==> forall i :: 0 <= i < |children| ==> children[i].key != key
  {
    if children == [] then None
    else
      var last := |children| - 1;
      if children[last].key == key then Some(last) else Find(children[..last], key)
  }

  function LeafAt(node: Node, path: seq<string>): Option<Scalar>
    decreases |path|
  {
    if path == [] then (if node.Leaf? then Some(node.value) else None)
    else if node.Leaf? then None
    else
      var found := Find(ChildrenOf(node), path[0]);
      if found.None? then None else LeafAt(ChildrenOf(node)[found.value].node, path[1..])
  }

  function Dotted(prefix: string, path: seq<string>): string
    decreases |path|
  {
    if path == [] then prefix else Dotted(JoinPath(prefix, path[0]), path[1..])
  }

  ghost predicate GoodPath(path: seq<string>)
  {
    forall k :: 0 <= k < |path| ==> GoodKey(path[k])
  }

  ghost predicate DistinctKeys(children: seq<Entry>)
  {
    forall i, j :: 0 <= i < j < |children| ==> children[i].key != children[j].key
  }

  /** Every mapping's keys are distinct, non-empty and dot-free. */
  ghost predicate GoodKeys(node: Node)
  {
    match node
    case Leaf(_) => true
    case Dict(entries) =>
      DistinctKeys(entries) && forall i :: 0 <= i < |entries| ==> GoodKey(entries[i].key) && GoodKeys(entries[i].node)
    case Tuple(items) => forall i :: 0 <= i < |items| ==> GoodKeys(items[i])
  }

  lemma ChildrenAreGood(node: Node)
    requires GoodKeys(node) && !node.Leaf?
    ensures DistinctKeys(ChildrenOf(node))
    ensures forall i :: 0 <= i < |ChildrenOf(node)| ==>
              GoodKey(ChildrenOf(node)[i].key) && GoodKeys(ChildrenOf(node)[i].node)
  {
    if node.Tuple? {
      forall i, j | 0 <= i < j < |ChildrenOf(node)| ensures Decimal(i) != Decimal(j) {
        DecimalRoundTrip(i);
        DecimalRoundTrip(j);
      }
    }
  }

  lemma {:induction false} LeafPathIsGood(node: Node, path: seq<string>)
    requires GoodKeys(node) && LeafAt(node, path).Some?
    ensures GoodPath(path)
    decreases |path|
  {
    if path != [] {
      ChildrenAreGood(node);
      var i := Find(ChildrenOf(node), path[0]).value;
      LeafPathIsGood(ChildrenOf(node)[i].node, path[1..]);
      assert forall k :: 1 <= k < |path| ==> path[k] == path[1..][k - 1];
    }
  }

  // ---------------------------------------------------------------- dotted paths are unambiguous

  function Suffix(path: seq<string>): string
  {
    if path == [] then "" else "." + path[0] + Suffix(path[1..])
  }

  lemma {:induction false} DottedIsSuffix(prefix: string, path: seq<string>)
    requires GoodPath(path)
    ensures prefix != "" ==> Dotted(prefix, path) == prefix + Suffix(path)
    ensures prefix == "" && path != [] ==> Dotted(prefix, path) == path[0] + Suffix(path[1..])
    decreases |path|
  {
    if path != [] {
      assert forall k :: 0 <= k < |path[1..]| ==> path[1..][k] == path[k + 1];
      DottedIsSuffix(JoinPath(prefix, path[0]), path[1..]);
      if prefix != "" {
        assert prefix + "." + path[0] + Suffix(path[1..]) == prefix + ("." + path[0] + Suffix(path[1..]));
      }
    }
  }

  /** A dot-free head is determined by the text up to the first dot. */
  lemma HeadIsDetermined(a: string, s: string, b: string, t: string)
    requires '.' !in a && '.' !in b && (s == "" || s[0] == '.') && (t == "" || t[0] == '.')
    requires a + s == b + t
    ensures a == b && s == t
  {
    assert a == (a + s)[..|a|] && b == (b + t)[..|b|];
    assert s == (a + s)[|a|..] && t == (b + t)[|b|..];
  }

  lemma {:induction false} SuffixIsInjective(p: seq<string>, q: seq<string>)
    requires GoodPath(p) && GoodPath(q) && Suffix(p) == Suffix(q)
    ensures p == q
  {
    if p != [] && q != [] {
      assert Suffix(p)[1..] == p[0] + Suffix(p[1..]) && Suffix(q)[1..] == q[0] + Suffix(q[1..]);
      HeadIsDetermined(p[0], Suffix(p[1..]), q[0], Suffix(q[1..]));
      SuffixIsInjective(p[1..], q[1..]);
      assert p == [p[0]] + p[1..] && q == [q[0]] + q[1..];
    }
  }

  /** Different key paths never share a dotted path, under any prefix. */
  lemma DottedIsInjective(prefix: string, p: seq<string>, q: seq<string>)
    requires GoodPath(p) && GoodPath(q) && Dotted(prefix, p) == Dotted(prefix, q)
    ensures p == q
  {
    DottedIsSuffix(prefix, p);
    DottedIsSuffix(prefix, q);
    if prefix != "" {
      assert Suffix(p) == (prefix + Suffix(p))[|prefix|..] && Suffix(q) == (prefix + Suffix(q))[|prefix|..];
      SuffixIsInjective(p, q);
    } else if p != [] && q != [] {
      HeadIsDetermined(p[0], Suffix(p[1..]), q[0], Suffix(q[1..]));
      SuffixIsInjective(p[1..], q[1..]);
      assert p == [p[0]] + p[1..] && q == [q[0]] + q[1..];
    }
  }

  // ---------------------------------------------------------------- flatten keeps every leaf

  /** A leaf path that starts at one of the first `n` children. */
  ghost predicate LeafUnder(node: Node, path: seq<string>, n: nat)
  {
    && LeafAt(node, path).Some? && path != [] && !node.Leaf?
    && Find(ChildrenOf(node), path[0]).Some? && Find(ChildrenOf(node), path[0]).value < n
  }

  ghost predicate Keeps(m: map<string, Scalar>, node: Node, prefix: string, path: seq<string>)
    requires LeafAt(node, path).Some?
  {
    Dotted(prefix, path) in m && m[Dotted(prefix, path)] == LeafAt(node, path).value
  }

  /** `m` holds exactly the leaves below the first `n` children. */
  ghost predicate HoldsFirst(m: map<string, Scalar>, node: Node, prefix: string, n: nat)
  {
    && (forall path :: LeafUnder(node, path, n) ==> Keeps(m, node, prefix, path))
    && (forall key :: key in m ==> exists path :: LeafUnder(node, path, n) && Dotted(prefix, path) == key)
  }

  /** `m` holds exactly the leaves of `node`, each at its own dotted path. */
  ghost predicate HoldsLeaves(m: map<string, Scalar>, node: Node, prefix: string)
  {
    && (forall path :: LeafAt(node, path).Some? ==> Keeps(m, node, prefix, path))
    && (forall key :: key in m ==> exists path :: LeafAt(node, path).Some? && Dotted(prefix, path) == key)
  }

  lemma LeafBelow(node: Node, i: nat, rest: seq<string>)
    requires !node.Leaf? && i < |ChildrenOf(node)| && DistinctKeys(ChildrenOf(node))
    ensures var child := ChildrenOf(node)[i];
            && Find(ChildrenOf(node), child.key) == Some(i)
            && LeafAt(node, [child.key] + rest) == LeafAt(child.node, rest)
            && forall prefix :: Dotted(prefix, [child.key] + rest) == Dotted(JoinPath(prefix, child.key), rest)
  {}

  lemma {:induction false} FlattenKeepsLeaves(node: Node, prefix: string)
    requires GoodKeys(node)
    ensures HoldsLeaves(Flatten(node, prefix), node, prefix)
    decreases node, 1, 0
  {
    hide FlattenFirst, Flatten, GoodKeys;
    FlattenWhole(node, prefix);
    if node.Leaf? {
      assert LeafAt(node, []) == Some(node.value) && Dotted(prefix, []) == prefix;
      forall path | LeafAt(node, path).Some? ensures path == [] {}
    } else {
      FirstKeepLeaves(node, prefix, |ChildrenOf(node)|);
      AllUnder(node, Flatten(node, prefix), prefix);
    }
  }

  lemma AllUnder(node: Node, m: map<string, Scalar>, prefix: string)
    requires !node.Leaf? && HoldsFirst(m, node, prefix, |ChildrenOf(node)|)
    ensures HoldsLeaves(m, node, prefix)
  {}

  lemma {:induction false} FirstKeepLeaves(node: Node, prefix: string, n: nat)
    requires GoodKeys(node) && !node.Leaf? && n <= |ChildrenOf(node)|
    ensures HoldsFirst(FlattenFirst(node, prefix, n), node, prefix, n)
    decreases node, 0, n
  {
    hide Flatten, FlattenFirst, HoldsFirst, HoldsLeaves, GoodKeys, JoinPath, Decimal;
    FlattenWhole(node, prefix);
    if n == 0 {
      NothingUnder(node, prefix);
    } else {
      var child := ChildrenOf(node)[n - 1];
      ChildrenAreGood(node);
      FirstKeepLeaves(node, prefix, n - 1);
      FlattenKeepsLeaves(child.node, JoinPath(prefix, child.key));
      FlattenStep(node, prefix, n - 1);
      MergeChild(node, prefix, n, FlattenFirst(node, prefix, n - 1), Flatten(child.node, JoinPath(prefix, child.key)));
    }
  }

  lemma NothingUnder(node: Node, prefix: string)
    ensures HoldsFirst(map[], node, prefix, 0)
  {}

  /** An earlier child's leaf is not overwritten by a later child's. */
  lemma EarlierLeafSurvives(node: Node, prefix: string, n: nat, below: map<string, Scalar>, path: seq<string>)
    requires GoodKeys(node) && !node.Leaf? && 0 < n <= |ChildrenOf(node)|
    requires HoldsLeaves(below, ChildrenOf(node)[n - 1].node, JoinPath(prefix, ChildrenOf(node)[n - 1].key))
    requires LeafUnder(node, path, n - 1)
    ensures Dotted(prefix, path) !in below
  {
    hide GoodKeys, GoodPath, JoinPath, Keeps, Dotted, LeafAt;
    var child := ChildrenOf(node)[n - 1];
    ChildrenAreGood(node);
    if Dotted(prefix, path) in below {
      var rest :| LeafAt(child.node, rest).Some? && Dotted(JoinPath(prefix, child.key), rest) == Dotted(prefix, path);
      LeafBelow(node, n - 1, rest);
      LeafPathIsGood(node, path);
      LeafPathIsGood(node, [child.key] + rest);
      DottedIsInjective(prefix, path, [child.key] + rest);
    }
  }

  lemma OwnLeafIsKept(node: Node, prefix: string, n: nat, below: map<string, Scalar>, path: seq<string>)
    requires GoodKeys(node) && !node.Leaf? && 0 < n <= |ChildrenOf(node)|
    requires HoldsLeaves(below, ChildrenOf(node)[n - 1].node, JoinPath(prefix, ChildrenOf(node)[n - 1].key))
    requires LeafUnder(node, path, n) && !LeafUnder(node, path, n - 1)
    ensures Keeps(below, node, prefix, path)
  {
    hide GoodKeys, JoinPath, Dotted, LeafAt, ChildrenOf, Find, DistinctKeys;
    ChildrenAreGood(node);
    var child, rest := ChildrenOf(node)[n - 1], path[1..];
    assert path[0] == child.key && path == [child.key] + rest;
    LeafBelow(node, n - 1, rest);
    assert Keeps(below, child.node, JoinPath(prefix, child.key), rest);
  }

  /** Adding one more child's leaves overwrites none of the earlier ones. */
  lemma MergeChild(node: Node, prefix: string, n: nat, m: map<string, Scalar>, below: map<string, Scalar>)
    requires GoodKeys(node) && !node.Leaf? && 0 < n <= |ChildrenOf(node)|
    requires HoldsFirst(m, node, prefix, n - 1)
    requires HoldsLeaves(below, ChildrenOf(node)[n - 1].node, JoinPath(prefix, ChildrenOf(node)[n - 1].key))
    ensures HoldsFirst(m + below, node, prefix, n)
  {
    hide GoodKeys, JoinPath, Dotted, LeafAt;
    forall path | LeafUnder(node, path, n) ensures Keeps(m + below, node, prefix, path) {
      if LeafUnder(node, path, n - 1) {
        EarlierLeafSurvives(node, prefix, n, below, path);
        assert Keeps(m, node, prefix, path);
      } else {
        OwnLeafIsKept(node, prefix, n, below, path);
      }
    }
    forall key | key in m + below ensures exists path :: LeafUnder(node, path, n) && Dotted(prefix, path) == key {
      if key in below {
        ChildSourcesKey(node, prefix, n, below, key);
      } else {
        var path :| LeafUnder(node, path, n - 1) && Dotted(prefix, path) == key;
        assert LeafUnder(node, path, n);
      }
    }
  }

  lemma ChildSourcesKey(node: Node, prefix: string, n: nat, below: map<string, Scalar>, key: string)
    requires GoodKeys(node) && !node.Leaf? && 0 < n <= |ChildrenOf(node)| && key in below
    requires HoldsLeaves(below, ChildrenOf(node)[n - 1].node, JoinPath(prefix, ChildrenOf(node)[n - 1].key))
    ensures exists path :: LeafUnder(node, path, n) && Dotted(prefix, path) == key
  {
    hide GoodKeys, JoinPath, Keeps, Dotted, LeafAt;
    var child := ChildrenOf(node)[n - 1];
    ChildrenAreGood(node);
    var rest :| LeafAt(child.node, rest).Some? && Dotted(JoinPath(prefix, child.key), rest) == key;
    LeafBelow(node, n - 1, rest);
    var path := [child.key] + rest;
    assert path[0] == child.key;
    assert LeafUnder(node, path, n);
  }

  /** With a dotted key two leaves share one path, and one of them is lost. */
  lemma DottedKeyLosesALeaf()
    ensures var config := Dict([Entry("a", Dict([Entry("b", Leaf(Num(1)))])), Entry("a.b", Leaf(Num(2)))]);
            && LeafAt(config, ["a", "b"]) == Some(Num(1))
            && "a.b" in Flatten(config, "") && Flatten(config, "")["a.b"] == Num(2)
  {
    var inner := Dict([Entry("b", Leaf(Num(1)))]);
    var config := Dict([Entry("a", inner), Entry("a.b", Leaf(Num(2)))]);
    assert Find(ChildrenOf(config), "a") == Some(0) by {
      assert ChildrenOf(config)[..1] == [Entry("a", inner)];
    }
    assert ChildrenOf(inner)[0].key == "b" && Find(ChildrenOf(inner), "b") == Some(0);
    assert ["a", "b"][1..] == ["b"] && ["b"][1..] == [];
    assert LeafAt(inner, ["b"]) == LeafAt(Leaf(Num(1)), []);
    assert JoinPath("", "a.b") == "a.b";
    assert Flatten(config, "") == FlattenFirst(config, "", 1) + Flatten(Leaf(Num(2)), "a.b");
  }

  // ---------------------------------------------------------------- flatten is injective on a schema

  datatype Shape = LeafShape | DictShape(keys: seq<string>, shapes: seq<Shape>) | TupleShape(element: Shape)

  /** A configuration of one schema: fixed fields, tuples of any length. */
  ghost predicate Conforms(node: Node, shape: Shape)
  {
    match node
    case Leaf(_) => shape.LeafShape?
    case Dict(entries) =>
      && shape.DictShape? && |entries| == |shape.keys| == |shape.shapes|
      && forall i :: 0 <= i < |entries| ==>
           entries[i].key == shape.keys[i] && Conforms(entries[i].node, shape.shapes[i])
    case Tuple(items) => shape.TupleShape? && forall i :: 0 <= i < |items| ==> Conforms(items[i], shape.element)
  }

  ghost predicate HoldsALeaf(node: Node)
  {
    exists path :: LeafAt(node, path).Some?
  }

  /** Every tuple element, at any depth, holds a leaf. */
  ghost predicate ElementsHoldLeaves(node: Node)
  {
    match node
    case Leaf(_) => true
    case Dict(entries) => forall i :: 0 <= i < |entries| ==> ElementsHoldLeaves(entries[i].node)
    case Tuple(items) => forall i :: 0 <= i < |items| ==> HoldsALeaf(items[i]) && ElementsHoldLeaves(items[i])
  }

  ghost predicate SameLeaves(a: Node, b: Node)
  {
    forall path :: LeafAt(a, path) == LeafAt(b, path)
  }

  lemma ChildLeavesAgree(a: Node, b: Node, i: nat)
    requires GoodKeys(a) && GoodKeys(b) && !a.Leaf? && !b.Leaf? && SameLeaves(a, b)
    requires i < |ChildrenOf(a)| && i < |ChildrenOf(b)| && ChildrenOf(a)[i].key == ChildrenOf(b)[i].key
    ensures SameLeaves(ChildrenOf(a)[i].node, ChildrenOf(b)[i].node)
  {
    ChildrenAreGood(a);
    ChildrenAreGood(b);
    forall rest ensures LeafAt(ChildrenOf(a)[i].node, rest) == LeafAt(ChildrenOf(b)[i].node, rest) {
      LeafBelow(a, i, rest);
      LeafBelow(b, i, rest);
    }
  }

  /** A tuple only has leaves below its own indices. */
  lemma LeafBelowIndex(b: Node, n: nat, rest: seq<string>)
    requires b.Tuple? && LeafAt(b, [Decimal(n)] + rest).Some?
    ensures n < |b.items|
  {
    hide Decimal;
    var i := Find(ChildrenOf(b), ([Decimal(n)] + rest)[0]).value;
    DecimalRoundTrip(i);
    DecimalRoundTrip(n);
  }

  /** Hence a tuple with the same leaves cannot be longer. */
  lemma TupleNotLonger(a: Node, b: Node)
    requires GoodKeys(a) && a.Tuple? && b.Tuple? && ElementsHoldLeaves(a) && SameLeaves(a, b)
    ensures |a.items| <= |b.items|
  {
    hide Decimal, LeafAt;
    if a.items != [] {
      var n := |a.items| - 1;
      ChildrenAreGood(a);
      var rest :| LeafAt(a.items[n], rest).Some?;
      LeafBelow(a, n, rest);
      assert LeafAt(b, [Decimal(n)] + rest) == LeafAt(a, [Decimal(n)] + rest);
      LeafBelowIndex(b, n, rest);
    }
  }

  lemma {:induction false} LeavesDetermineConfig(a: Node, b: Node, shape: Shape)
    requires GoodKeys(a) && GoodKeys(b) && Conforms(a, shape) && Conforms(b, shape)
    requires ElementsHoldLeaves(a) && ElementsHoldLeaves(b) && SameLeaves(a, b)
    ensures a == b
    decreases a
  {
    match a
    case Leaf(_) => assert LeafAt(a, []) == LeafAt(b, []);
    case Dict(entries) =>
      forall i | 0 <= i < |entries| ensures entries[i] == b.entries[i] {
        ChildLeavesAgree(a, b, i);
        LeavesDetermineConfig(entries[i].node, b.entries[i].node, shape.shapes[i]);
      }
      assert entries == b.entries;
    case Tuple(items) =>
      TupleNotLonger(a, b);
      TupleNotLonger(b, a);
      forall i | 0 <= i < |items| ensures items[i] == b.items[i] {
        ChildLeavesAgree(a, b, i);
        LeavesDetermineConfig(items[i], b.items[i], shape.element);
      }
      assert items == b.items;
  }

  lemma SameFlatSameLeaves(a: Node, b: Node, path: seq<string>)
    requires GoodKeys(a) && GoodKeys(b) && Flatten(a, "") == Flatten(b, "") && LeafAt(a, path).Some?
    ensures LeafAt(b, path) == LeafAt(a, path)
  {
    hide Flatten;
    FlattenKeepsLeaves(a, "");
    FlattenKeepsLeaves(b, "");
    var other :| LeafAt(b, other).Some? && Dotted("", other) == Dotted("", path);
    LeafPathIsGood(a, path);
    LeafPathIsGood(b, other);
    DottedIsInjective("", path, other);
  }

  /** Two configurations of one schema flatten alike only if they are the same. */
  lemma FlattenIsInjective(a: Node, b: Node, shape: Shape)
    requires GoodKeys(a) && GoodKeys(b) && Conforms(a, shape) && Conforms(b, shape)
    requires ElementsHoldLeaves(a) && ElementsHoldLeaves(b)
    ensures Flatten(a, "") == Flatten(b, "") <==> a == b
  {
    if Flatten(a, "") == Flatten(b, "") {
      forall path ensures LeafAt(a, path) == LeafAt(b, path) {
        if LeafAt(a, path).Some? {
          SameFlatSameLeaves(a, b, path);
        } else if LeafAt(b, path).Some? {
          SameFlatSameLeaves(b, a, path);
        }
      }
      LeavesDetermineConfig(a, b, shape);
    }
  }

  // ---------------------------------------------------------------- which schemas lose nothing

  /** A schema's keys are distinct, non-empty and dot-free. */
  ghost predicate WellKeyed(shape: Shape)
  {
    match shape
    case LeafShape => true
    case DictShape(keys, shapes) =>
      && |keys| == |shapes|
      && (forall i, j :: 0 <= i < j < |keys| ==> keys[i] != keys[j])
      && (forall i :: 0 <= i < |keys| ==> GoodKey(keys[i]) && WellKeyed(shapes[i]))
    case TupleShape(element) => WellKeyed(element)
  }

  /** Every configuration of the shape holds a leaf: there is one below no tuple. */
  predicate AlwaysLeafy(shape: Shape)
  {
    match shape
    case LeafShape => true
    case DictShape(_, shapes) => exists i :: 0 <= i < |shapes| && AlwaysLeafy(shapes[i])
    case TupleShape(_) => false
  }

  /** Every tuple of the schema has elements that always hold a leaf. */
  predicate Traceable(shape: Shape)
  {
    match shape
    case LeafShape => true
    case DictShape(_, shapes) => forall i :: 0 <= i < |shapes| ==> Traceable(shapes[i])
    case TupleShape(element) => AlwaysLeafy(element) && Traceable(element)
  }

  lemma {:induction false} ConformingKeysAreGood(node: Node, shape: Shape)
    requires WellKeyed(shape) && Conforms(node, shape)
    ensures GoodKeys(node)
    decreases node
  {
    match node
    case Leaf(_) =>
    case Dict(entries) =>
      forall i | 0 <= i < |entries| ensures GoodKeys(entries[i].node) {
        ConformingKeysAreGood(entries[i].node, shape.shapes[i]);
      }
    case Tuple(items) =>
      forall i | 0 <= i < |items| ensures GoodKeys(items[i]) { ConformingKeysAreGood(items[i], shape.element); }
  }

  lemma {:induction false} LeafyShapeHoldsALeaf(node: Node, shape: Shape)
    requires WellKeyed(shape) && Conforms(node, shape) && AlwaysLeafy(shape)
    ensures HoldsALeaf(node)
    decreases node
  {
    match node
    case Leaf(_) => assert LeafAt(node, []).Some?;
    case Dict(entries) =>
      var i :| 0 <= i < |shape.shapes| && AlwaysLeafy(shape.shapes[i]);
      LeafyShapeHoldsALeaf(entries[i].node, shape.shapes[i]);
      var rest :| LeafAt(entries[i].node, rest).Some?;
      LeafBelow(node, i, rest);
  }

  lemma {:induction false} TraceableElementsHoldLeaves(node: Node, shape: Shape)
    requires WellKeyed(shape) && Conforms(node, shape) && Traceable(shape)
    ensures ElementsHoldLeaves(node)
    decreases node
  {
    match node
    case Leaf(_) =>
    case Dict(entries) =>
      forall i | 0 <= i < |entries| ensures ElementsHoldLeaves(entries[i].node) {
        TraceableElementsHoldLeaves(entries[i].node, shape.shapes[i]);
      }
    case Tuple(items) =>
      forall i | 0 <= i < |items| ensures HoldsALeaf(items[i]) && ElementsHoldLeaves(items[i]) {
        LeafyShapeHoldsALeaf(items[i], shape.element);
        TraceableElementsHoldLeaves(items[i], shape.element);
      }
  }

  /** The smallest configuration of a shape: every tuple empty. */
  function Bare(shape: Shape): (node: Node)
    ensures WellKeyed(shape) ==> Conforms(node, shape)
  {
    match shape
    case LeafShape => Leaf(Null)
    case DictShape(keys, shapes) =>
      if |keys| != |shapes| then Dict([])
      else Dict(seq(|keys|, i requires 0 <= i < |keys| => Entry(keys[i], Bare(shapes[i]))))
    case TupleShape(_) => Tuple([])
  }

  /** Nodes whose children flatten alike under the same keys flatten alike. */
  lemma {:induction false} ChildrenFlattenAlike(a: Node, b: Node, prefix: string, n: nat)
    requires !a.Leaf? && !b.Leaf? && n <= |ChildrenOf(a)| == |ChildrenOf(b)|
    requires forall i :: 0 <= i < n ==> ChildrenOf(a)[i].key == ChildrenOf(b)[i].key
    requires forall i, p :: 0 <= i < n ==> Flatten(ChildrenOf(a)[i].node, p) == Flatten(ChildrenOf(b)[i].node, p)
    ensures FlattenFirst(a, prefix, n) == FlattenFirst(b, prefix, n)
  {
    hide Flatten, FlattenFirst, ChildrenOf, JoinPath;
    NoChildrenFlatten(a, prefix);
    NoChildrenFlatten(b, prefix);
    if n > 0 {
      ChildrenFlattenAlike(a, b, prefix, n - 1);
      FlattenStep(a, prefix, n - 1);
      FlattenStep(b, prefix, n - 1);
    }
  }

  lemma {:induction false} BareIsEmpty(shape: Shape, prefix: string)
    requires WellKeyed(shape) && !AlwaysLeafy(shape)
    ensures Flatten(Bare(shape), prefix) == map[]
    decreases shape
  {
    var node := Bare(shape);
    if shape.DictShape? {
      forall i, p | 0 <= i < |node.entries| ensures Flatten(node.entries[i].node, p) == map[] {
        assert !AlwaysLeafy(shape.shapes[i]);
        BareIsEmpty(shape.shapes[i], p);
      }
      EmptyChildrenFlattenEmpty(node, prefix, |node.entries|);
    }
  }

  lemma {:induction false} EmptyChildrenFlattenEmpty(node: Node, prefix: string, n: nat)
    requires node.Dict? && n <= |node.entries|
    requires forall i, p :: 0 <= i < |node.entries| ==> Flatten(node.entries[i].node, p) == map[]
    ensures FlattenFirst(node, prefix, n) == map[]
  {
    hide Flatten;
    if n > 0 { EmptyChildrenFlattenEmpty(node, prefix, n - 1); }
  }

  /** Two configurations of one schema that no flattening tells apart. */
  ghost predicate AreTwins(a: Node, b: Node, shape: Shape)
  {
    Conforms(a, shape) && Conforms(b, shape) && a != b && forall p :: Flatten(a, p) == Flatten(b, p)
  }

  lemma {:induction false} UntraceableHasTwins(shape: Shape) returns (a: Node, b: Node)
    requires WellKeyed(shape) && !Traceable(shape)
    ensures AreTwins(a, b, shape)
    decreases shape
  {
    match shape
    case DictShape(keys, shapes) =>
      var i :| 0 <= i < |shapes| && !Traceable(shapes[i]);
      var x, y := UntraceableHasTwins(shapes[i]);
      a, b := DictTwins(shape, i, x, y);
    case TupleShape(element) =>
      if AlwaysLeafy(element) {
        var x, y := UntraceableHasTwins(element);
        a, b := Tuple([x]), Tuple([y]);
        assert [x][0] != [y][0];
        forall p ensures Flatten(a, p) == Flatten(b, p) { ChildrenFlattenAlike(a, b, p, 1); }
      } else {
        a, b := Tuple([]), Tuple([Bare(element)]);
        forall p ensures Flatten(a, p) == Flatten(b, p) {
          BareIsEmpty(element, JoinPath(p, Decimal(0)));
          FlattenStep(b, p, 0);
          FlattenWhole(a, p);
          FlattenWhole(b, p);
        }
      }
  }

  lemma DictTwins(shape: Shape, i: nat, x: Node, y: Node) returns (a: Node, b: Node)
    requires WellKeyed(shape) && shape.DictShape? && i < |shape.shapes| && AreTwins(x, y, shape.shapes[i])
    ensures AreTwins(a, b, shape)
  {
    hide Flatten;
    var fields := Bare(shape).entries;
    a, b := Dict(fields[i := Entry(shape.keys[i], x)]), Dict(fields[i := Entry(shape.keys[i], y)]);
    assert a.entries[i] != b.entries[i];
    forall p ensures Flatten(a, p) == Flatten(b, p) {
      ChildrenFlattenAlike(a, b, p, |fields|);
      FlattenWhole(a, p);
      FlattenWhole(b, p);
    }
  }

  ghost predicate FlattensApart(shape: Shape)
  {
    forall a, b :: Conforms(a, shape) && Conforms(b, shape) && Flatten(a, "") == Flatten(b, "") ==> a == b
  }

  /** Flattening tells all configurations of a schema apart exactly when every tuple's elements
      have a leaf that is below no further tuple. */
  lemma InjectiveIffTraceable(shape: Shape)
    requires WellKeyed(shape)
    ensures FlattensApart(shape) <==> Traceable(shape)
  {
    hide Flatten, Traceable, WellKeyed, Conforms;
    if Traceable(shape) {
      forall a, b | Conforms(a, shape) && Conforms(b, shape) && Flatten(a, "") == Flatten(b, "") ensures a == b {
        ConformingKeysAreGood(a, shape);
        ConformingKeysAreGood(b, shape);
        TraceableElementsHoldLeaves(a, shape);
        TraceableElementsHoldLeaves(b, shape);
        FlattenIsInjective(a, b, shape);
      }
    } else {
      var a, b := UntraceableHasTwins(shape);
      assert Flatten(a, "") == Flatten(b, "");
    }
  }

  /** A field holding a tuple of tuples: an empty element leaves no trace. */
  lemma EmptyElementIsLost()
    ensures var a, b := Dict([Entry("a", Tuple([]))]), Dict([Entry("a", Tuple([Tuple([])]))]);
            a != b && Flatten(a, "") == Flatten(b, "") == map[]
  {
    var a, b := Dict([Entry("a", Tuple([]))]), Dict([Entry("a", Tuple([Tuple([])]))]);
    assert a.entries[0].node.items != b.entries[0].node.items;
    assert Flatten(Tuple([]), "a") == map[];
    FlattenStep(Tuple([Tuple([])]), "a", 0);
    FlattenWhole(Tuple([Tuple([])]), "a");
    FlattenStep(a, "", 0);
    FlattenStep(b, "", 0);
    FlattenWhole(a, "");
    FlattenWhole(b, "");
  }

  // ---------------------------------------------------------------- diff

  datatype ConfigDiff =
    ConfigDiff(added: map<string, Scalar>, removed: map<string, Scalar>, changed: map<string, (Scalar, Scalar)>)
  {
    predicate IsEmpty() {
      added == map[] && removed == map[] && changed == map[]
    }
  }

  function DiffFlat(before: map<string, Scalar>, after: map<string, Scalar>): ConfigDiff
  {
    ConfigDiff(map k | k in after && k !in before :: after[k],
               map k | k in before && k !in after :: before[k],
               map k | k in before && k in after && !Equal(before[k], after[k]) :: (before[k], after[k]))
  }

  function DiffConfigs(before: Node, after: Node): ConfigDiff
  {
    DiffFlat(Flatten(before, ""), Flatten(after, ""))
  }

  /** Apply a diff forwards: drop the removed, add the added, move the changed to their new value. */
  function Patch(m: map<string, Scalar>, d: ConfigDiff): map<string, Scalar>
  {
    (m - d.removed.Keys) + d.added + (map k | k in d.changed :: d.changed[k].1)
  }

  function Unpatch(m: map<string, Scalar>, d: ConfigDiff): map<string, Scalar>
  {
    (m - d.added.Keys) + d.removed + (map k | k in d.changed :: d.changed[k].0)
  }

  /** Equal as dictionaries: the same paths, with equal values. */
  ghost predicate Alike(a: map<string, Scalar>, b: map<string, Scalar>)
  {
    a.Keys == b.Keys && forall k :: k in a && k in b ==> Equal(a[k], b[k])
  }

  /** No path turns a flag into its number, or back. */
  ghost predicate NoFlagForNumber(before: map<string, Scalar>, after: map<string, Scalar>)
  {
    forall k :: k in before && k in after && Equal(before[k], after[k]) ==> before[k] == after[k]
  }

  lemma PatchedAt(before: map<string, Scalar>, after: map<string, Scalar>)
    ensures var patched := Patch(before, DiffFlat(before, after));
            && patched.Keys == after.Keys
            && forall k :: k in after ==>
                 patched[k] == if k in before && Equal(before[k], after[k]) then before[k] else after[k]
  {}

  lemma DiffPatches(before: map<string, Scalar>, after: map<string, Scalar>)
    ensures var patched := Patch(before, DiffFlat(before, after));
            && Alike(patched, after)
            && (patched == after <==> NoFlagForNumber(before, after))
  {
    hide Patch, DiffFlat;
    PatchedAt(before, after);
    var patched := Patch(before, DiffFlat(before, after));
    if NoFlagForNumber(before, after) { assert patched == after; }
  }

  lemma DiffUnpatches(before: map<string, Scalar>, after: map<string, Scalar>)
    ensures Alike(Unpatch(after, DiffFlat(before, after)), before)
  {}

  /** A diff is a patch in both directions up to the language's equality, and to the letter
      exactly when no flag stands for a number; its parts do not overlap, and it is empty exactly
      when the dictionaries are equal. */
  lemma DiffIsAPatch(before: map<string, Scalar>, after: map<string, Scalar>)
    ensures var d := DiffFlat(before, after);
            && Alike(Patch(before, d), after) && Alike(Unpatch(after, d), before)
            && (Patch(before, d) == after <==> NoFlagForNumber(before, after))
            && d.added.Keys !! d.removed.Keys && d.added.Keys !! d.changed.Keys && d.removed.Keys !! d.changed.Keys
            && (forall k :: k in d.changed ==> !Equal(d.changed[k].0, d.changed[k].1))
            && (d.IsEmpty() <==> Alike(before, after))
  {
    hide Patch, Unpatch, Alike, NoFlagForNumber;
    DiffPatches(before, after);
    DiffUnpatches(before, after);
    EmptyDiff(before, after);
  }

  lemma EmptyDiff(before: map<string, Scalar>, after: map<string, Scalar>)
    ensures DiffFlat(before, after).IsEmpty() <==> Alike(before, after)
  {
    var d := DiffFlat(before, after);
    if d.IsEmpty() {
      forall k ensures k in before <==> k in after {
        assert k !in d.added && k !in d.removed;
      }
      forall k | k in before ensures Equal(before[k], after[k]) { assert k !in d.changed; }
    }
  }

  /** Applied to the old configuration's leaves, the diff gives the new one's, and back again. */
  lemma ConfigDiffIsAPatch(before: Node, after: Node)
    ensures var was, now, d := Flatten(before, ""), Flatten(after, ""), DiffConfigs(before, after);
            && Alike(Patch(was, d), now) && Alike(Unpatch(now, d), was)
            && (forall k :: k in d.added ==> k in now && k !in was && d.added[k] == now[k])
            && (forall k :: k in d.removed ==> k in was && k !in now && d.removed[k] == was[k])
            && (forall k :: k in d.changed ==> k in was && k in now && d.changed[k] == (was[k], now[k]))
  {
    hide Patch, Unpatch, Alike, Flatten;
    DiffIsAPatch(Flatten(before, ""), Flatten(after, ""));
  }

  /** Replacing 1 by true is a change of configuration that the diff does not show. */
  lemma FlagForNumberIsMissed()
    ensures Equal(Flag(true), Num(1)) && Equal(Flag(false), Num(0)) && !Equal(Flag(true), Flag(false))
    ensures forall a: Scalar, b: Scalar :: !a.Flag? && !b.Flag? ==> (Equal(a, b) <==> a == b)
    ensures var before, after := Dict([Entry("a", Leaf(Num(1)))]), Dict([Entry("a", Leaf(Flag(true)))]);
            Flatten(before, "") != Flatten(after, "") && DiffConfigs(before, after).IsEmpty()
  {
    var before, after := Dict([Entry("a", Leaf(Num(1)))]), Dict([Entry("a", Leaf(Flag(true)))]);
    FlattenStep(before, "", 0);
    FlattenStep(after, "", 0);
    FlattenWhole(before, "");
    FlattenWhole(after, "");
    assert Flatten(before, "") == map["a" := Num(1)] && Flatten(after, "") == map["a" := Flag(true)];
    assert map["a" := Num(1)]["a"] != map["a" := Flag(true)]["a"];
  }

  // ---------------------------------------------------------------- equal configurations

  /** A configuration with its flags read as numbers; two configurations are equal in the
      language's sense exactly when these are the same. */
  function CanonNode(node: Node): (r: Node)
    ensures r.Leaf? == node.Leaf? && r.Dict? == node.Dict?
  {
    match node
    case Leaf(v) => Leaf(Canon(v))
    case Dict(entries) =>
      Dict(seq(|entries|, i requires 0 <= i < |entries| => Entry(entries[i].key, CanonNode(entries[i].node))))
    case Tuple(items) => Tuple(seq(|items|, i requires 0 <= i < |items| => CanonNode(items[i])))
  }

  function CanonMap(m: map<string, Scalar>): map<string, Scalar>
  {
    map k | k in m :: Canon(m[k])
  }

  lemma AlikeIsCanonEqual(a: map<string, Scalar>, b: map<string, Scalar>)
    ensures Alike(a, b) <==> CanonMap(a) == CanonMap(b)
  {
    assert CanonMap(a).Keys == a.Keys && CanonMap(b).Keys == b.Keys;
    if CanonMap(a) == CanonMap(b) {
      forall k | k in a && k in b ensures Equal(a[k], b[k]) {
        assert CanonMap(a)[k] == CanonMap(b)[k];
      }
    }
  }

  lemma CanonChildren(node: Node)
    requires !node.Leaf?
    ensures |ChildrenOf(CanonNode(node))| == |ChildrenOf(node)|
    ensures forall i :: 0 <= i < |ChildrenOf(node)| ==>
              ChildrenOf(CanonNode(node))[i] == Entry(ChildrenOf(node)[i].key, CanonNode(ChildrenOf(node)[i].node))
  {}

  lemma {:induction false} CanonFlatten(node: Node, prefix: string)
    ensures Flatten(CanonNode(node), prefix) == CanonMap(Flatten(node, prefix))
    decreases node, 1, 0
  {
    FlattenWhole(node, prefix);
    FlattenWhole(CanonNode(node), prefix);
    if !node.Leaf? {
      CanonChildren(node);
      CanonFlattenFirst(node, prefix, |ChildrenOf(node)|);
    }
  }

  lemma CanonMerge(a: map<string, Scalar>, b: map<string, Scalar>)
    ensures CanonMap(a + b) == CanonMap(a) + CanonMap(b)
    ensures CanonMap(map[]) == map[]
  {}

  lemma {:induction false} CanonFlattenFirst(node: Node, prefix: string, n: nat)
    requires !node.Leaf? && n <= |ChildrenOf(node)| == |ChildrenOf(CanonNode(node))|
    ensures FlattenFirst(CanonNode(node), prefix, n) == CanonMap(FlattenFirst(node, prefix, n))
    decreases node, 0, n
  {
    hide Flatten, FlattenFirst, CanonNode, CanonMap, ChildrenOf, JoinPath;
    CanonChildren(node);
    NoChildrenFlatten(node, prefix);
    NoChildrenFlatten(CanonNode(node), prefix);
    CanonMerge(map[], map[]);
    if n > 0 {
      var child := ChildrenOf(node)[n - 1];
      CanonFlattenFirst(node, prefix, n - 1);
      CanonFlatten(child.node, JoinPath(prefix, child.key));
      FlattenStep(node, prefix, n - 1);
      FlattenStep(CanonNode(node), prefix, n - 1);
      CanonMerge(FlattenFirst(node, prefix, n - 1), Flatten(child.node, JoinPath(prefix, child.key)));
    }
  }

  lemma NoChildrenFlatten(node: Node, prefix: string)
    requires !node.Leaf?
    ensures FlattenFirst(node, prefix, 0) == map[]
  {}

  lemma {:induction false} FindByKeys(a: seq<Entry>, b: seq<Entry>, key: string)
    requires |a| == |b| && forall i :: 0 <= i < |a| ==> a[i].key == b[i].key
    ensures Find(a, key) == Find(b, key)
  {
    if a != [] { FindByKeys(a[..|a| - 1], b[..|b| - 1], key); }
  }

  lemma {:induction false} CanonKeepsLeaves(node: Node, path: seq<string>)
    ensures LeafAt(CanonNode(node), path).Some? <==> LeafAt(node, path).Some?
    decreases |path|
  {
    if path != [] && !node.Leaf? {
      CanonChildren(node);
      FindByKeys(ChildrenOf(node), ChildrenOf(CanonNode(node)), path[0]);
      var found := Find(ChildrenOf(node), path[0]);
      if found.Some? { CanonKeepsLeaves(ChildrenOf(node)[found.value].node, path[1..]); }
    }
  }

  lemma {:induction false} CanonKeepsSchema(node: Node, shape: Shape)
    requires GoodKeys(node) && Conforms(node, shape) && ElementsHoldLeaves(node)
    ensures GoodKeys(CanonNode(node)) && Conforms(CanonNode(node), shape) && ElementsHoldLeaves(CanonNode(node))
    decreases node
  {
    match node
    case Leaf(_) =>
    case Dict(entries) =>
      forall i | 0 <= i < |entries|
        ensures GoodKeys(CanonNode(entries[i].node)) && Conforms(CanonNode(entries[i].node), shape.shapes[i])
                && ElementsHoldLeaves(CanonNode(entries[i].node))
      {
        CanonKeepsSchema(entries[i].node, shape.shapes[i]);
      }
    case Tuple(items) =>
      forall i | 0 <= i < |items|
        ensures GoodKeys(CanonNode(items[i])) && Conforms(CanonNode(items[i]), shape.element)
                && HoldsALeaf(CanonNode(items[i])) && ElementsHoldLeaves(CanonNode(items[i]))
      {
        CanonKeepsSchema(items[i], shape.element);
        var path :| LeafAt(items[i], path).Some?;
        CanonKeepsLeaves(items[i], path);
      }
  }

  /** The diff of two configurations of one schema is empty exactly when they are equal. */
  lemma {:induction false} EmptyDiffMeansEqual(before: Node, after: Node, shape: Shape)
    requires GoodKeys(before) && GoodKeys(after) && Conforms(before, shape) && Conforms(after, shape)
    requires ElementsHoldLeaves(before) && ElementsHoldLeaves(after)
    ensures DiffConfigs(before, after).IsEmpty() <==> CanonNode(before) == CanonNode(after)
  {
    hide Flatten, CanonNode, CanonMap, Alike, GoodKeys, Conforms, ElementsHoldLeaves;
    EmptyDiff(Flatten(before, ""), Flatten(after, ""));
    AlikeIsCanonEqual(Flatten(before, ""), Flatten(after, ""));
    CanonFlatten(before, "");
    CanonFlatten(after, "");
    CanonKeepsSchema(before, shape);
    CanonKeepsSchema(after, shape);
    FlattenIsInjective(CanonNode(before), CanonNode(after), shape);
  }
}
