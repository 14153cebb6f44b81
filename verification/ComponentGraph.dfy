/** The tree checks on a surface's components: a depth-limited recursive walk with a
    shared visited set and a path set decides exactly a property of all walks. */
module ComponentGraph {
  import opened Common

  const MAX_COMPONENTS := 64
  const MAX_TREE_DEPTH := 16
  const ROOT := "root"

  /** `child` wins over `children`; entries of `children` that are not strings are `None`. */
  datatype Component = Component(id: string, child: Option<string>, children: seq<Option<string>>)

  function Strings(values: seq<Option<string>>): seq<string>
  {
    if values == [] then []
    else
      var init, last := Strings(values[..|values| - 1]), values[|values| - 1];
      if last.Some? then init + [last.value] else init
  }

  function References(c: Component): seq<string>
  {
    if c.child.Some? then [c.child.value] else Strings(c.children)
  }

  /** Cutting a list anywhere cuts its strings: they are the entries that are strings, in order and number. */
  lemma {:induction false} StringsOfParts(a: seq<Option<string>>, b: seq<Option<string>>)
    ensures Strings(a + b) == Strings(a) + Strings(b)
    ensures forall v :: Strings([v]) == if v.Some? then [v.value] else []
    decreases |b|
  {
    assert forall v: Option<string> :: [v][..0] == [];
    if b == [] {
      assert a + b == a;
    } else {
      var n := |b| - 1;
      assert (a + b)[..|a + b| - 1] == a + b[..n];
      StringsOfParts(a, b[..n]);
    }
  }

  lemma {:induction false} StringsMembers(values: seq<Option<string>>, s: string)
    ensures s in Strings(values) <==> Some(s) in values
    ensures (forall v :: v in values ==> v.Some?) ==>
              |Strings(values)| == |values| && forall i :: 0 <= i < |values| ==> Strings(values)[i] == values[i].value
    decreases |values|
  {
    if values != [] {
      var n := |values| - 1;
      StringsMembers(values[..n], s);
      assert values == values[..n] + [values[n]];
    }
  }

  /** What a component points at: its single child if it has one, otherwise the strings among its children, all of them
      and nothing else, in their order. */
  lemma ReferencesExactly(c: Component, s: string)
    ensures s in References(c) <==> if c.child.Some? then c.child.value == s else Some(s) in c.children
    ensures c.child.Some? ==> |References(c)| == 1
    ensures c.child.None? && (forall v :: v in c.children ==> v.Some?) ==>
              && |References(c)| == |c.children|
              && forall i :: 0 <= i < |c.children| ==> References(c)[i] == c.children[i].value
  {
    hide Strings;
    StringsMembers(c.children, s);
  }

  /** A list of children cut in two gives the references of the first part and then those of the second, one for every
      entry that is a string. */
  lemma ReferencesInOrder(id: string, a: seq<Option<string>>, v: Option<string>, b: seq<Option<string>>)
    ensures References(Component(id, None, a + [v] + b))
            == References(Component(id, None, a)) + (if v.Some? then [v.value] else [])
               + References(Component(id, None, b))
  {
    hide Strings;
    StringsOfParts(a + [v], b);
    StringsOfParts(a, [v]);
  }

  /** One component points at another along a reference field. */
  lemma EdgeExactly(g: Graph, x: string, y: string)
    ensures Edge(g, x, y) <==>
            && x in g && y in g
            && if g[x].child.Some? then g[x].child.value == y else Some(y) in g[x].children
  {
    if x in g {
      ReferencesExactly(g[x], y);
    }
  }

  method ChildReferences(c: Component) returns (refs: seq<string>)
    ensures refs == References(c)
    ensures forall s :: s in refs <==> if c.child.Some? then c.child.value == s else Some(s) in c.children
  {
    forall s
      ensures s in References(c) <==> if c.child.Some? then c.child.value == s else Some(s) in c.children
    {
      ReferencesExactly(c, s);
    }
    if c.child.Some? { return [c.child.value]; }
    refs := [];
    for i := 0 to |c.children|
      invariant refs == Strings(c.children[..i])
    {
      assert c.children[..i + 1][..i] == c.children[..i];
      if c.children[i].Some? {
        refs := refs + [c.children[i].value];
      }
    }
    assert c.children[..|c.children|] == c.children;
  }

  // ---------------------------------------------------------------- walks

  type Graph = map<string, Component>

  predicate Edge(g: Graph, x: string, y: string)
  {
    x in g && y in g && y in References(g[x])
  }

  /** A nonempty path of declared components along references. */
  ghost predicate IsWalk(g: Graph, p: seq<string>)
  {
    && p != [] && p[0] in g
    && forall i :: 0 < i < |p| ==> Edge(g, p[i - 1], p[i])
  }

  ghost predicate Reaches(g: Graph, x: string, y: string)
  {
    exists p :: IsWalk(g, p) && p[0] == x && p[|p| - 1] == y
  }

  /** The recursive reading of "every walk from x visits at most n nodes". */
  ghost predicate Within(g: Graph, x: string, n: nat)
    decreases n
  {
    n > 0 && forall y :: Edge(g, x, y) ==> Within(g, y, n - 1)
  }

  lemma {:induction false} WithinBoundsWalks(g: Graph, p: seq<string>, n: nat)
    requires IsWalk(g, p) && Within(g, p[0], n)
    ensures |p| <= n
    decreases n
  {
    if |p| > 1 {
      assert Edge(g, p[0], p[1]);
      assert IsWalk(g, p[1..]);
      WithinBoundsWalks(g, p[1..], n - 1);
    }
  }

  lemma {:induction false} LongWalk(g: Graph, x: string, n: nat) returns (p: seq<string>)
    requires x in g && !Within(g, x, n)
    ensures IsWalk(g, p) && p[0] == x && |p| == n + 1
    decreases n
  {
    if n == 0 {
      p := [x];
    } else {
      var y :| Edge(g, x, y) && !Within(g, y, n - 1);
      var tail := LongWalk(g, y, n - 1);
      p := [x] + tail;
      assert forall i :: 0 < i < |p| ==> p[i] == tail[i - 1];
      assert forall i :: 1 < i < |p| ==> Edge(g, p[i - 1], p[i]);
    }
  }

  /** Both readings agree. */
  lemma WithinIsAboutWalks(g: Graph, x: string, n: nat)
    requires x in g
    ensures Within(g, x, n) <==> forall p :: IsWalk(g, p) && p[0] == x ==> |p| <= n
  {
    if Within(g, x, n) {
      forall p | IsWalk(g, p) && p[0] == x
        ensures |p| <= n
      {
        WithinBoundsWalks(g, p, n);
      }
    } else {
      var p := LongWalk(g, x, n);
    }
  }

  lemma {:induction false} WithinAlong(g: Graph, p: seq<string>, n: nat)
    requires IsWalk(g, p) && Within(g, p[0], n)
    ensures |p| <= n && Within(g, p[|p| - 1], n - |p| + 1)
    decreases n
  {
    if |p| > 1 {
      assert Edge(g, p[0], p[1]);
      assert IsWalk(g, p[1..]);
      WithinAlong(g, p[1..], n - 1);
    }
  }

  /** A component on a cycle has walks of every length. */
  lemma {:induction false} CycleExceedsAnyBound(g: Graph, c: seq<string>, n: nat)
    requires IsWalk(g, c) && |c| > 1 && c[0] == c[|c| - 1]
    ensures !Within(g, c[0], n)
    decreases n
  {
    if Within(g, c[0], n) {
      WithinAlong(g, c, n);
      CycleExceedsAnyBound(g, c, n - |c| + 1);
    }
  }

  lemma ReachesStep(g: Graph, x: string, y: string, z: string)
    requires Edge(g, x, y) && Reaches(g, y, z)
    ensures Reaches(g, x, z)
  {
    var p :| IsWalk(g, p) && p[0] == y && p[|p| - 1] == z;
    var q := [x] + p;
    assert forall i :: 0 < i < |q| ==> q[i] == p[i - 1];
    assert forall i :: 1 < i < |q| ==> Edge(g, q[i - 1], q[i]);
    assert IsWalk(g, q) && q[|q| - 1] == z;
  }

  /** What is reachable from x: x itself and whatever its children reach. */
  lemma ReachesUnfolds(g: Graph, x: string, z: string)
    requires x in g
    ensures Reaches(g, x, z) <==> z == x || exists y :: Edge(g, x, y) && Reaches(g, y, z)
  {
    if z == x {
      assert IsWalk(g, [x]) && [x][0] == x;
    }
    if Reaches(g, x, z) && z != x {
      var p :| IsWalk(g, p) && p[0] == x && p[|p| - 1] == z;
      assert Edge(g, x, p[1]);
      var q := p[1..];
      assert IsWalk(g, q) && q[0] == p[1] && q[|q| - 1] == z;
      assert Reaches(g, p[1], z);
    }
    if y :| Edge(g, x, y) && Reaches(g, y, z) {
      ReachesStep(g, x, y, z);
    }
  }

  // ---------------------------------------------------------- diagnostics

  datatype Diagnostic =
    | TooMany | Duplicate(index: nat) | NoRoot | Dangling(index: nat, position: nat)
    | TooDeep(id: string) | Cyclic(id: string) | Unreachable(index: nat)

  /** A too-deep or cyclic report points at a real walk from the root. */
  ghost predicate WalkFault(g: Graph, d: Diagnostic)
  {
    match d
    case TooDeep(id) => exists p :: IsWalk(g, p) && p[0] == ROOT && |p| == MAX_TREE_DEPTH + 1 && p[|p| - 1] == id
    case Cyclic(id) =>
      exists p :: IsWalk(g, p) && p[0] == ROOT && p[|p| - 1] == id && id in p[..|p| - 1]
    case _ => false
  }

  // ------------------------------------------------------------ the walk

  class Walker {
    var visited: set<string>
    var onPath: set<string>

    constructor ()
      ensures visited == {} && onPath == {}
    {
      visited, onPath := {}, {};
    }

    /** `path` is the walk taken from the root so far, without `id`. */
    method Walk(g: Graph, id: string, depth: nat, ghost path: seq<string>) returns (fault: Option<Diagnostic>)
      requires 1 <= depth <= MAX_TREE_DEPTH + 1 && |path| == depth - 1
      requires IsWalk(g, path + [id]) && (path + [id])[0] == ROOT
      requires onPath == set x | x in path
      modifies this
      ensures fault.None? <==> Within(g, id, MAX_TREE_DEPTH + 1 - depth)
      ensures fault.Some? ==> WalkFault(g, fault.value)
      ensures fault.None? ==> onPath == old(onPath)
      ensures fault.None? ==> forall x :: x in visited <==> x in old(visited) || Reaches(g, id, x)
      decreases MAX_TREE_DEPTH + 1 - depth
    {
      ghost var here := path + [id];
      assert here[|here| - 1] == id && here[..|here| - 1] == path;
      IdDeclared(g, here);
      if depth > MAX_TREE_DEPTH {
        return Some(TooDeep(id));
      }
      if id in onPath {
        CycleFound(g, path, id, MAX_TREE_DEPTH + 1 - depth);
        return Some(Cyclic(id));
      }
      onPath := onPath + {id};
      visited := visited + {id};
      var refs := ChildReferences(g[id]);
      for k := 0 to |refs|
        invariant onPath == old(onPath) + {id}
        invariant forall j :: 0 <= j < k && refs[j] in g ==> Within(g, refs[j], MAX_TREE_DEPTH - depth)
        invariant forall x :: x in visited <==>
                    x in old(visited) || x == id || exists j :: 0 <= j < k && refs[j] in g && Reaches(g, refs[j], x)
      {
        if refs[k] !in g { continue; }
        assert Edge(g, id, refs[k]);
        Extend(g, here, refs[k]);
        fault := Walk(g, refs[k], depth + 1, here);
        if fault.Some? { return; }
      }
      onPath := onPath - {id};
      fault := None;
      forall x
        ensures Reaches(g, id, x) <==> x == id || exists j :: 0 <= j < |refs| && refs[j] in g && Reaches(g, refs[j], x)
      {
        ReachesUnfolds(g, id, x);
        if y :| Edge(g, id, y) && Reaches(g, y, x) {
          var j :| 0 <= j < |refs| && refs[j] == y;
        }
      }
    }
  }

  lemma IdDeclared(g: Graph, p: seq<string>)
    requires IsWalk(g, p)
    ensures p[|p| - 1] in g
  {
    if |p| > 1 {
      assert Edge(g, p[|p| - 2], p[|p| - 1]);
    }
  }

  lemma Extend(g: Graph, p: seq<string>, y: string)
    requires IsWalk(g, p) && Edge(g, p[|p| - 1], y)
    ensures IsWalk(g, p + [y]) && (p + [y])[0] == p[0]
  {
    var q := p + [y];
    forall i | 0 < i < |q|
      ensures Edge(g, q[i - 1], q[i])
    {
      if i < |p| {
        assert Edge(g, p[i - 1], p[i]);
      }
    }
  }

  lemma CycleFound(g: Graph, path: seq<string>, id: string, n: nat)
    requires IsWalk(g, path + [id]) && id in path
    ensures !Within(g, id, n)
  {
    var i :| 0 <= i < |path| && path[i] == id;
    var p := path + [id];
    var c := p[i..];
    forall k | 0 < k < |c|
      ensures Edge(g, c[k - 1], c[k])
    {
      assert c[k - 1] == p[i + k - 1] && c[k] == p[i + k];
    }
    assert IsWalk(g, p[..i + 1]);
    IdDeclared(g, p[..i + 1]);
    assert IsWalk(g, c) && c[0] == c[|c| - 1];
    CycleExceedsAnyBound(g, c, n);
  }

  // ------------------------------------------------------- the validation

  /** The table the loop builds: later entries overwrite earlier ones. */
  function Table(cs: seq<Component>): Graph
  {
    if cs == [] then map[] else Table(cs[..|cs| - 1])[cs[|cs| - 1].id := cs[|cs| - 1]]
  }

  lemma {:induction false} TableKeys(cs: seq<Component>, k: string)
    ensures k in Table(cs) <==> exists i :: 0 <= i < |cs| && cs[i].id == k
  {
    if cs != [] {
      var init := cs[..|cs| - 1];
      TableKeys(init, k);
      if k in Table(init) {
        var i :| 0 <= i < |init| && init[i].id == k;
        assert cs[i].id == k;
      }
    }
  }

  /** With unique ids every component is found under its own. */
  lemma {:induction false} TableFinds(cs: seq<Component>, i: nat)
    requires UniqueIds(cs) && i < |cs|
    ensures cs[i].id in Table(cs) && Table(cs)[cs[i].id] == cs[i]
    decreases |cs|
  {
    if i < |cs| - 1 {
      TableFinds(cs[..|cs| - 1], i);
    }
  }

  predicate UniqueIds(cs: seq<Component>)
  {
    forall i, j :: 0 <= i < j < |cs| ==> cs[i].id != cs[j].id
  }

  ghost predicate Resolves(cs: seq<Component>, g: Graph, i: nat)
    requires i < |cs|
  {
    forall k :: 0 <= k < |References(cs[i])| ==> References(cs[i])[k] in g
  }

  /** The tree invariants a surface must satisfy. */
  ghost predicate WellFormedTree(cs: seq<Component>)
  {
    var g := Table(cs);
    && |cs| <= 64
    && UniqueIds(cs)
    && "root" in g
    && (forall i :: 0 <= i < |cs| ==> Resolves(cs, g, i))
    && (forall p :: IsWalk(g, p) && p[0] == "root" ==> |p| <= 16)
    && (forall i :: 0 <= i < |cs| ==> Reaches(g, "root", cs[i].id))
  }

  /** What each report claims. */
  ghost predicate Justified(cs: seq<Component>, d: Diagnostic)
  {
    var g := Table(cs);
    match d
    case TooMany => |cs| > MAX_COMPONENTS
    case Duplicate(i) => i < |cs| && exists j :: 0 <= j < i && cs[j].id == cs[i].id
    case NoRoot => ROOT !in g
    case Dangling(i, k) => i < |cs| && k < |References(cs[i])| && References(cs[i])[k] !in g
    case Unreachable(i) => i < |cs| && !Reaches(g, ROOT, cs[i].id)
    case _ => WalkFault(g, d)
  }

  /** A justified report is never made of a well-formed tree. */
  lemma JustifiedMeansBroken(cs: seq<Component>, d: Diagnostic)
    requires Justified(cs, d)
    ensures !WellFormedTree(cs)
  {
    hide Table, References;
    var g := Table(cs);
    match d
    case TooDeep(id) =>
      var p :| IsWalk(g, p) && p[0] == ROOT && |p| == MAX_TREE_DEPTH + 1 && p[|p| - 1] == id;
    case Cyclic(id) =>
      var p :| IsWalk(g, p) && p[0] == ROOT && p[|p| - 1] == id && id in p[..|p| - 1];
      CyclicIsTooDeep(g, p);
    case Dangling(i, k) => assert !Resolves(cs, g, i);
    case _ =>
  }

  lemma CyclicIsTooDeep(g: Graph, p: seq<string>)
    requires IsWalk(g, p) && p[|p| - 1] in p[..|p| - 1]
    ensures exists q :: IsWalk(g, q) && q[0] == p[0] && |q| > MAX_TREE_DEPTH
  {
    var path, id := p[..|p| - 1], p[|p| - 1];
    assert path + [id] == p;
    if Within(g, p[0], MAX_TREE_DEPTH) {
      WithinAlong(g, p, MAX_TREE_DEPTH);
      CycleFound(g, path, id, MAX_TREE_DEPTH - |p| + 1);
    } else {
      var q := LongWalk(g, p[0], MAX_TREE_DEPTH);
    }
  }

  method IndexById(components: seq<Component>) returns (byId: Graph, fault: Option<Diagnostic>)
    ensures fault.None? ==> byId == Table(components) && UniqueIds(components)
    ensures fault.Some? ==> fault.value.Duplicate? && Justified(components, fault.value)
  {
    byId := map[];
    for index := 0 to |components|
      invariant byId == Table(components[..index])
      invariant UniqueIds(components[..index])
    {
      var id := components[index].id;
      assert components[..index + 1][..index] == components[..index];
      TableKeys(components[..index], id);
      if id in byId { return byId, Some(Duplicate(index)); }
      byId := byId[id := components[index]];
    }
    assert components[..|components|] == components;
    fault := None;
  }

  method CheckReferences(components: seq<Component>, byId: Graph) returns (fault: Option<Diagnostic>)
    requires byId == Table(components)
    ensures fault.None? ==> forall i :: 0 <= i < |components| ==> Resolves(components, byId, i)
    ensures fault.Some? ==> fault.value.Dangling? && Justified(components, fault.value)
  {
    hide Table, References;
    for index := 0 to |components|
      invariant forall i :: 0 <= i < index ==> Resolves(components, byId, i)
    {
      var refs := ChildReferences(components[index]);
      for position := 0 to |refs|
        invariant forall k :: 0 <= k < position ==> refs[k] in byId
      {
        if refs[position] !in byId { return Some(Dangling(index, position)); }
      }
    }
    fault := None;
  }

  method CheckReachable(components: seq<Component>, byId: Graph, visited: set<string>)
    returns (fault: Option<Diagnostic>)
    requires byId == Table(components) && forall x :: x in visited <==> Reaches(byId, ROOT, x)
    ensures fault.None? ==> forall i :: 0 <= i < |components| ==> Reaches(byId, ROOT, components[i].id)
    ensures fault.Some? ==> fault.value.Unreachable? && Justified(components, fault.value)
  {
    hide Table, References;
    for index := 0 to |components|
      invariant forall i :: 0 <= i < index ==> Reaches(byId, ROOT, components[i].id)
    {
      if components[index].id !in visited { return Some(Unreachable(index)); }
    }
    fault := None;
  }

  /** Accepts exactly the well-formed trees, and every report is justified. */
  method ValidateComponentGraph(components: seq<Component>) returns (fault: Option<Diagnostic>)
    ensures fault.None? <==> WellFormedTree(components)
    ensures fault.Some? ==> Justified(components, fault.value)
  {
    fault := FindFault(components);
    if fault.Some? {
      JustifiedMeansBroken(components, fault.value);
    }
  }

  method FindFault(components: seq<Component>) returns (fault: Option<Diagnostic>)
    ensures fault.None? ==> WellFormedTree(components)
    ensures fault.Some? ==> Justified(components, fault.value)
  {
    if |components| > MAX_COMPONENTS { return Some(TooMany); }
    hide Table, References, Within, Edge, IsWalk, Reaches;
    var byId;
    byId, fault := IndexById(components);
    if fault.Some? { return; }
    if ROOT !in byId { return Some(NoRoot); }
    fault := CheckReferences(components, byId);
    if fault.Some? { return; }
    var visited;
    fault, visited := WalkFromRoot(byId);
    if fault.Some? { return; }
    fault := CheckReachable(components, byId, visited);
  }

  method WalkFromRoot(byId: Graph) returns (fault: Option<Diagnostic>, visited: set<string>)
    requires ROOT in byId
    ensures fault.None? ==>
              && (forall p :: IsWalk(byId, p) && p[0] == ROOT ==> |p| <= MAX_TREE_DEPTH)
              && forall x :: x in visited <==> Reaches(byId, ROOT, x)
    ensures fault.Some? ==> WalkFault(byId, fault.value)
  {
    hide References, Within, Reaches;
    var walker := new Walker();
    assert [] + [ROOT] == [ROOT] && IsWalk(byId, [ROOT]);
    fault := walker.Walk(byId, ROOT, 1, []);
    visited := walker.visited;
    WithinIsAboutWalks(byId, ROOT, MAX_TREE_DEPTH);
  }
}
