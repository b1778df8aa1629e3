/** Which type definitions contain themselves (ferogram-tl-gen's metadata.rs): a
    depth-first search over parameter types that shares one set of visited ids. */
module RecursiveTypes {
  import opened Wrappers

  datatype Category = Types | Functions

  datatype Type = Type(namespace: seq<string>, name: string, bare: bool, genericArg: Option<Type>)

  datatype ParameterType = Flags | Normal(ty: Type, flag: Option<string>)

  datatype Parameter = Parameter(name: string, ty: ParameterType)

  datatype Definition = Definition(name: string, id: nat, params: seq<Parameter>, ty: Type, category: Category)

  datatype TypeName = TypeName(namespace: seq<string>, name: string)

  /** The search compares types by namespace and name only. */
  function NameOf(t: Type): TypeName {
    TypeName(t.namespace, t.name)
  }

  type Index = map<TypeName, seq<Definition>>

  // Containment

  ghost predicate Known(g: Index, d: Definition) {
    NameOf(d.ty) in g && d in g[NameOf(d.ty)]
  }

  /** Constructors are filed under their own type and told apart by their ids. */
  ghost predicate WellFiled(g: Index) {
    && (forall t, d :: t in g && d in g[t] ==> NameOf(d.ty) == t)
    && (forall a, b :: Known(g, a) && Known(g, b) && a.id == b.id ==> a == b)
  }

  ghost predicate Mentions(d: Definition, t: TypeName) {
    exists i :: 0 <= i < |d.params| && d.params[i].ty.Normal? && NameOf(d.params[i].ty.ty) == t
  }

  /** A parameter of `a` can hold a value built by `b`. */
  ghost predicate Contains(g: Index, a: Definition, b: Definition) {
    Known(g, b) && Mentions(a, NameOf(b.ty))
  }

  ghost predicate IsPath(g: Index, path: seq<Definition>) {
    && |path| > 0
    && (forall i :: 0 <= i < |path| - 1 ==> Contains(g, path[i], path[i + 1]))
  }

  /** The result type of `root` is mentioned somewhere below `from`. */
  ghost predicate Leads(g: Index, root: Definition, from: Definition, path: seq<Definition>) {
    IsPath(g, path) && path[0] == from && Mentions(path[|path| - 1], NameOf(root.ty))
  }

  ghost predicate ContainsItself(g: Index, root: Definition) {
    exists path :: Leads(g, root, root, path)
  }

  // The search

  /** Nothing below the definitions with ids in `ids` is left unseen, and none mentions the root. */
  ghost predicate Explored(g: Index, root: Definition, d: Definition, ids: set<nat>) {
    && !Mentions(d, NameOf(root.ty))
    && forall b :: Contains(g, d, b) ==> b.id in ids
  }

  ghost predicate AllExplored(g: Index, root: Definition, some: set<nat>, ids: set<nat>) {
    forall d :: Known(g, d) && d.id in some ==> Explored(g, root, d, ids)
  }

  class Visited {
    var ids: set<nat>

    constructor ()
      ensures ids == {}
    {
      ids := {};
    }
  }

  method SelfRefs(root: Definition, current: Definition, g: Index, visited: Visited, ghost all: set<nat>)
    returns (found: bool, ghost path: seq<Definition>)
    requires WellFiled(g) && Known(g, current)
    requires forall d :: Known(g, d) ==> d.id in all
    requires visited.ids <= all && current.id !in visited.ids
    modifies visited
    ensures old(visited.ids) + {current.id} <= visited.ids <= all
    ensures found ==> Leads(g, root, current, path)
    ensures !found ==> AllExplored(g, root, visited.ids - old(visited.ids), visited.ids)
    decreases all - visited.ids
  {
    ghost var before := visited.ids;
    visited.ids := visited.ids + {current.id};
    path := [current];
    for i := 0 to |current.params|
      invariant before + {current.id} <= visited.ids <= all
      invariant path == [current]
      invariant AllExplored(g, root, visited.ids - before - {current.id}, visited.ids)
      invariant forall k :: 0 <= k < i ==> ParamExplored(g, root, current.params[k], visited.ids)
    {
      var p := current.params[i].ty;
      if p.Normal? {
        if NameOf(p.ty) == NameOf(root.ty) {
          return true, path;
        }
        if NameOf(p.ty) in g {
          var subs := g[NameOf(p.ty)];
          for j := 0 to |subs|
            invariant before + {current.id} <= visited.ids <= all
            invariant path == [current]
            invariant AllExplored(g, root, visited.ids - before - {current.id}, visited.ids)
            invariant forall k :: 0 <= k < i ==> ParamExplored(g, root, current.params[k], visited.ids)
            invariant forall k :: 0 <= k < j ==> subs[k].id in visited.ids
          {
            assert Known(g, subs[j]);
            if subs[j].id !in visited.ids {
              ghost var mid := visited.ids;
              ghost var rest;
              found, rest := SelfRefs(root, subs[j], g, visited, all);
              if found {
                assert Contains(g, current, subs[j]);
                path := [current] + rest;
                return;
              }
              ExploredGrows(g, root, mid - before - {current.id}, mid, visited.ids);
            }
          }
        }
      }
    }
    AllParamsExplored(g, root, current, visited.ids);
    found := false;
  }

  /** One parameter is no reference to the root and all its constructors were seen. */
  ghost predicate ParamExplored(g: Index, root: Definition, p: Parameter, ids: set<nat>) {
    p.ty.Normal? ==>
      && NameOf(p.ty.ty) != NameOf(root.ty)
      && (NameOf(p.ty.ty) in g ==> forall b :: b in g[NameOf(p.ty.ty)] ==> b.id in ids)
  }

  lemma AllParamsExplored(g: Index, root: Definition, d: Definition, ids: set<nat>)
    requires WellFiled(g) && forall k :: 0 <= k < |d.params| ==> ParamExplored(g, root, d.params[k], ids)
    ensures Explored(g, root, d, ids)
  {
  }

  lemma ExploredGrows(g: Index, root: Definition, some: set<nat>, ids: set<nat>, more: set<nat>)
    requires AllExplored(g, root, some, ids) && ids <= more
    ensures AllExplored(g, root, some, more)
  {
  }

  /** A search that found nothing has closed off everything reachable. */
  lemma {:induction false} ClosedStays(g: Index, root: Definition, ids: set<nat>, path: seq<Definition>)
    requires IsPath(g, path) && Known(g, path[0]) && path[0].id in ids && AllExplored(g, root, ids, ids)
    ensures !Mentions(path[|path| - 1], NameOf(root.ty))
  {
    if |path| > 1 {
      assert Contains(g, path[0], path[1]);
      assert IsPath(g, path[1..]) by {
        forall i | 0 <= i < |path[1..]| - 1
          ensures Contains(g, path[1..][i], path[1..][i + 1])
        {
          assert Contains(g, path[i + 1], path[i + 1 + 1]);
        }
      }
      ClosedStays(g, root, ids, path[1..]);
    }
  }

  method IsSelfContaining(root: Definition, g: Index) returns (found: bool)
    requires WellFiled(g) && Known(g, root)
    ensures found <==> ContainsItself(g, root)
  {
    var visited := new Visited();
    ghost var all := set t, d | t in g && d in g[t] :: d.id;
    ghost var path;
    found, path := SelfRefs(root, root, g, visited, all);
    if !found {
      forall p | IsPath(g, p) && p[0] == root
        ensures !Leads(g, root, root, p)
      {
        assert visited.ids - {} == visited.ids;
        ClosedStays(g, root, visited.ids, p);
      }
    }
  }

  // Building the index and the result

  function OfType(defs: seq<Definition>, t: TypeName): seq<Definition> {
    if defs == [] then []
    else
      var d := defs[|defs| - 1];
      OfType(defs[..|defs| - 1], t) + if d.category == Types && NameOf(d.ty) == t then [d] else []
  }

  /** Every type definition, filed under its type in declaration order. */
  ghost predicate IsIndexOf(g: Index, defs: seq<Definition>) {
    forall t :: (t in g <==> OfType(defs, t) != []) && (t in g ==> g[t] == OfType(defs, t))
  }

  ghost predicate DistinctIds(defs: seq<Definition>) {
    forall i, j :: 0 <= i < |defs| && 0 <= j < |defs| ==>
      defs[i].category == Types && defs[j].category == Types && defs[i].id == defs[j].id ==> defs[i] == defs[j]
  }

  lemma {:induction false} OfTypeElements(defs: seq<Definition>, t: TypeName, d: Definition)
    ensures d in OfType(defs, t) <==> d in defs && d.category == Types && NameOf(d.ty) == t
  {
    if defs != [] {
      OfTypeElements(defs[..|defs| - 1], t, d);
      assert defs == defs[..|defs| - 1] + [defs[|defs| - 1]];
    }
  }

  lemma IndexIsWellFiled(g: Index, defs: seq<Definition>)
    requires IsIndexOf(g, defs) && DistinctIds(defs)
    ensures WellFiled(g) && forall d :: Known(g, d) <==> d in defs && d.category == Types
  {
    forall t, d
      ensures t in g && d in g[t] <==> d in defs && d.category == Types && NameOf(d.ty) == t
    {
      OfTypeElements(defs, t, d);
    }
  }

  class Metadata {
    var recursiveIds: set<nat>
    var defsByType: Index

    /** For distinct constructor ids, a definition is marked exactly when it contains itself. */
    constructor Build(defs: seq<Definition>)
      requires DistinctIds(defs)
      ensures IsIndexOf(defsByType, defs)
      ensures forall d :: d in defs && d.category == Types ==>
                (d.id in recursiveIds <==> ContainsItself(defsByType, d))
    {
      defsByType := map[];
      recursiveIds := {};
      new;
      FileByType(defs);
      IndexIsWellFiled(defsByType, defs);
      MarkRecursive(defs);
    }

    method FileByType(defs: seq<Definition>)
      requires defsByType == map[]
      modifies this`defsByType
      ensures IsIndexOf(defsByType, defs)
    {
      for i := 0 to |defs|
        invariant IsIndexOf(defsByType, defs[..i])
      {
        assert defs[..i + 1][..i] == defs[..i];
        if defs[i].category == Types {
          var t := NameOf(defs[i].ty);
          defsByType := defsByType[t := (if t in defsByType then defsByType[t] else []) + [defs[i]]];
        }
      }
      assert defs[..|defs|] == defs;
    }

    method MarkRecursive(defs: seq<Definition>)
      requires WellFiled(defsByType) && DistinctIds(defs) && recursiveIds == {}
      requires forall d :: Known(defsByType, d) <==> d in defs && d.category == Types
      modifies this`recursiveIds
      ensures forall d :: d in defs && d.category == Types ==>
                (d.id in recursiveIds <==> ContainsItself(defsByType, d))
    {
      for i := 0 to |defs|
        invariant forall k :: i <= k < |defs| ==>
          (defs[k].id in recursiveIds && defs[k].category == Types ==> ContainsItself(defsByType, defs[k]))
        invariant forall k :: 0 <= k < i && defs[k].category == Types ==>
          (defs[k].id in recursiveIds <==> ContainsItself(defsByType, defs[k]))
      {
        if defs[i].category == Types {
          var found := IsSelfContaining(defs[i], defsByType);
          if found {
            recursiveIds := recursiveIds + {defs[i].id};
          }
        }
      }
    }

    predicate IsRecursive(def: Definition)
      reads this
    {
      def.id in recursiveIds
    }
  }

  // What the mark means

  ghost predicate IsCycle(g: Index, cycle: seq<Definition>) {
    IsPath(g, cycle) && |cycle| > 1 && cycle[0] == cycle[|cycle| - 1]
  }

  /** Containing oneself is lying on a cycle of containment. */
  lemma ContainsItselfIffOnCycle(g: Index, d: Definition)
    requires WellFiled(g) && Known(g, d)
    ensures ContainsItself(g, d) <==> exists cycle :: IsCycle(g, cycle) && cycle[0] == d
  {
    if ContainsItself(g, d) {
      var path :| Leads(g, d, d, path);
      var cycle := path + [d];
      forall i | 0 <= i < |cycle| - 1
        ensures Contains(g, cycle[i], cycle[i + 1])
      {
      }
      assert IsCycle(g, cycle);
    }
    if cycle :| IsCycle(g, cycle) && cycle[0] == d {
      var path := cycle[..|cycle| - 1];
      assert Contains(g, cycle[|cycle| - 2], cycle[|cycle| - 1]);
      assert forall i :: 0 <= i < |path| - 1 ==> Contains(g, cycle[i], cycle[i + 1]);
      assert Leads(g, d, d, path);
    }
  }

  /** Every definition on a cycle is recursive: containment among the others has no cycle. */
  lemma CyclesAreRecursive(g: Index, cycle: seq<Definition>, n: nat)
    requires WellFiled(g) && IsCycle(g, cycle) && n < |cycle|
    ensures ContainsItself(g, cycle[n])
  {
    var turned := cycle[n..] + cycle[1..n + 1];
    forall i | 0 <= i < |turned| - 1
      ensures Contains(g, turned[i], turned[i + 1])
    {
      var k := if n + i < |cycle| - 1 then n + i else n + i - (|cycle| - 1);
      assert Contains(g, cycle[k], cycle[k + 1]);
    }
    assert IsCycle(g, turned) && turned[0] == cycle[n];
    assert Known(g, cycle[n]) by {
      if n > 0 {
        assert Contains(g, cycle[n - 1], cycle[n]);
      } else {
        assert Contains(g, cycle[|cycle| - 2], cycle[|cycle| - 1]);
      }
    }
    ContainsItselfIffOnCycle(g, cycle[n]);
  }
}
