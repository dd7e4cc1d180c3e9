/**
  The dependency closure behind the Rust notices: a worklist over the resolved package graph
  that follows every edge with some non-development kind.
*/
module DependencyClosure {
  import opened Prelude

  type Id = string

  /** One dependency: the package it names and the kinds of the edge. `None` is a normal edge. */
  datatype Dep = Dep(pkg: Id, kinds: seq<Option<string>>)

  datatype Graph = Graph(names: map<Id, string>, nodes: map<Id, seq<Dep>>)

  /** Some kind of the edge is not "dev". */
  predicate Follows(d: Dep) { exists k :: 0 <= k < |d.kinds| && d.kinds[k] != Some("dev") }

  predicate Edge(g: Graph, a: Id, b: Id) {
    a in g.nodes && exists k :: 0 <= k < |g.nodes[a]| && g.nodes[a][k].pkg == b && Follows(g.nodes[a][k])
  }

  /** `path` leads from its first package to its last along followed edges. */
  ghost predicate Path(g: Graph, path: seq<Id>) {
    path != [] && forall i :: 0 <= i < |path| - 1 ==> Edge(g, path[i], path[i + 1])
  }

  ghost predicate Reachable(g: Graph, root: Id, x: Id) {
    exists path :: Path(g, path) && path[0] == root && path[|path| - 1] == x
  }

  lemma ReachableStep(g: Graph, root: Id, a: Id, b: Id)
    requires Reachable(g, root, a) && Edge(g, a, b)
    ensures Reachable(g, root, b)
  {
    var path :| Path(g, path) && path[0] == root && path[|path| - 1] == a;
    var longer := path + [b];
    assert Path(g, longer) && longer[0] == root && longer[|longer| - 1] == b;
  }

  /** Whatever is reached, other than the root, is named by an edge of something reached. */
  lemma ReachableBefore(g: Graph, root: Id, x: Id) returns (a: Id)
    requires Reachable(g, root, x) && x != root
    ensures Reachable(g, root, a) && a in g.nodes
    ensures exists k, m :: 0 <= k < |g.nodes[a]| && 0 <= m < |g.nodes[a][k].kinds|
                           && g.nodes[a][k].kinds[m] != Some("dev") && g.nodes[a][k].pkg == x
  {
    var path :| Path(g, path) && path[0] == root && path[|path| - 1] == x;
    var init := path[..|path| - 1];
    a := init[|init| - 1];
    assert Edge(g, path[|path| - 2], path[|path| - 2 + 1]);
    assert Path(g, init) && init[0] == root;
  }

  /** A normal or a build edge is followed, whatever other kinds it has; one that is only for
      development is not. */
  lemma KindsFollowed(d: Dep)
    ensures None in d.kinds || Some("build") in d.kinds ==> Follows(d)
    ensures (forall k :: 0 <= k < |d.kinds| ==> d.kinds[k] == Some("dev")) ==> !Follows(d)
  {
    if None in d.kinds {
      var k :| 0 <= k < |d.kinds| && d.kinds[k] == None;
    }
    if Some("build") in d.kinds {
      var k :| 0 <= k < |d.kinds| && d.kinds[k] == Some("build");
      assert "build" != "dev";
    }
  }

  ghost predicate Closed(g: Graph, s: set<Id>) {
    forall a, b :: a in s && Edge(g, a, b) ==> b in s
  }

  /** A closed set holds everything reachable from its members. */
  lemma {:induction false} ClosedHoldsPath(g: Graph, s: set<Id>, path: seq<Id>)
    requires Closed(g, s) && Path(g, path) && path[0] in s
    ensures path[|path| - 1] in s
  {
    if |path| > 1 {
      assert Edge(g, path[0], path[1]);
      var rest := path[1..];
      forall i | 0 <= i < |rest| - 1 ensures Edge(g, rest[i], rest[i + 1]) {
        assert Edge(g, path[i + 1], path[i + 1 + 1]);
      }
      ClosedHoldsPath(g, s, rest);
    }
  }

  /** Every package the worklist can ever meet. */
  ghost function Mentioned(g: Graph, root: Id): set<Id> {
    {root} + g.nodes.Keys + (set a, k | a in g.nodes && 0 <= k < |g.nodes[a]| :: g.nodes[a][k].pkg)
  }

  datatype ClosureError = WrongRootCount(count: nat)

  /** `closure`: exactly the packages reachable from the one package with the root's name. It
      terminates on every graph, cycles included, and keeps packages that have no node. */
  method Closure(g: Graph, rootName: string) returns (r: Result<set<Id>, ClosureError>)
    ensures
      var roots := set p | p in g.names && g.names[p] == rootName;
      && (r.Ok? <==> |roots| == 1)
      && (r.Err? ==> r.error == WrongRootCount(|roots|))
      && (r.Ok? ==> forall x, root :: root in roots ==> (x in r.value <==> Reachable(g, root, x)))
    ensures r.Ok? ==>
              forall a, k, m ::
                a in r.value && a in g.nodes && 0 <= k < |g.nodes[a]| && 0 <= m < |g.nodes[a][k].kinds| ==>
                  g.nodes[a][k].kinds[m] != Some("dev") ==> g.nodes[a][k].pkg in r.value
    ensures r.Ok? ==>
              forall x :: x in r.value ==>
                || (x in g.names && g.names[x] == rootName)
                || (exists a, k, m :: a in r.value && a in g.nodes && 0 <= k < |g.nodes[a]| && 0 <= m < |g.nodes[a][k].kinds|
                                      && g.nodes[a][k].kinds[m] != Some("dev") && g.nodes[a][k].pkg == x)
  {
    var roots := set p | p in g.names && g.names[p] == rootName;
    if |roots| != 1 {
      return Err(WrongRootCount(|roots|));
    }
    var root :| root in roots;
    assert roots == {root} by {
      assert |roots - {root}| == 0;
    }
    var seen := Worklist(g, root);
    r := Ok(seen);
    forall a, k, m | a in seen && a in g.nodes && 0 <= k < |g.nodes[a]| && 0 <= m < |g.nodes[a][k].kinds|
                     && g.nodes[a][k].kinds[m] != Some("dev")
      ensures g.nodes[a][k].pkg in seen
    {
      assert Edge(g, a, g.nodes[a][k].pkg);
      ReachableStep(g, root, a, g.nodes[a][k].pkg);
    }
    forall x | x in seen && x != root
      ensures exists a, k, m :: a in seen && a in g.nodes && 0 <= k < |g.nodes[a]| && 0 <= m < |g.nodes[a][k].kinds|
                                && g.nodes[a][k].kinds[m] != Some("dev") && g.nodes[a][k].pkg == x
    {
      ghost var a := ReachableBefore(g, root, x);
    }
  }

  method Worklist(g: Graph, root: Id) returns (seen: set<Id>)
    ensures forall x :: x in seen <==> Reachable(g, root, x)
  {
    var pending := [root];
    seen := {};
    ghost var all := Mentioned(g, root);
    assert Reachable(g, root, root) by { assert Path(g, [root]); }
    while pending != []
      invariant seen <= all && forall i :: 0 <= i < |pending| ==> pending[i] in all
      invariant root in seen || root in pending
      invariant forall x :: x in seen || x in pending ==> Reachable(g, root, x)
      invariant forall a, b :: a in seen && Edge(g, a, b) ==> b in seen || b in pending
      decreases all - seen, |pending|
    {
      var pid := pending[|pending| - 1];
      assert pending == pending[..|pending| - 1] + [pid];
      pending := pending[..|pending| - 1];
      if pid in seen {
        continue;
      }
      seen := seen + {pid};
      if pid in g.nodes {
        var next := FollowedDeps(g.nodes[pid]);
        forall b | b in next
          ensures b in all && Reachable(g, root, b)
        {
          var k :| 0 <= k < |g.nodes[pid]| && g.nodes[pid][k].pkg == b && Follows(g.nodes[pid][k]);
          assert Edge(g, pid, b);
          ReachableStep(g, root, pid, b);
        }
        pending := pending + next;
      }
    }
    forall x | Reachable(g, root, x)
      ensures x in seen
    {
      var path :| Path(g, path) && path[0] == root && path[|path| - 1] == x;
      ClosedHoldsPath(g, seen, path);
    }
  }

  /** The packages one node's followed edges name, in order. */
  method FollowedDeps(deps: seq<Dep>) returns (next: seq<Id>)
    ensures forall b :: b in next <==> exists k :: 0 <= k < |deps| && deps[k].pkg == b && Follows(deps[k])
  {
    next := [];
    for n := 0 to |deps|
      invariant forall b :: b in next <==> exists k :: 0 <= k < n && deps[k].pkg == b && Follows(deps[k])
    {
      if Follows(deps[n]) {
        next := next + [deps[n].pkg];
      }
    }
  }
}
