/** The supersession graph and its belief walk (crates/turbomemory_graph/src/graph.rs). */
module Belief {
  import opened Wrappers

  type Node = nat

  datatype EdgeKind = Refines | Contradicts | OtherKind

  /** Edges in insertion order. `memory` says which nodes are memories. */
  datatype Edge = Edge(source: Node, target: Node, kind: EdgeKind)
  datatype Graph = Graph(edges: seq<Edge>, memory: set<Node>)

  predicate Supersedes(g: Graph, e: Edge, n: Node)
  {
    e.source == n && (e.kind.Refines? || e.kind.Contradicts?) && e.target in g.memory
  }

  /** `supersession_next`: the target of the latest supersession edge out of `n`. */
  function NextIn(g: Graph, n: Node, upTo: nat): (r: Option<Node>)
    requires upTo <= |g.edges|
    ensures r.Some? ==> r.value in g.memory
  {
    if upTo == 0 then None
    else if Supersedes(g, g.edges[upTo - 1], n) then Some(g.edges[upTo - 1].target)
    else NextIn(g, n, upTo - 1)
  }

  function Next(g: Graph, n: Node): (r: Option<Node>)
    ensures r.Some? ==> r.value in g.memory
  {
    NextIn(g, n, |g.edges|)
  }

  /** Nothing supersedes `n` exactly when no edge says so. */
  lemma {:induction false} NoNextIff(g: Graph, n: Node, upTo: nat)
    requires upTo <= |g.edges|
    ensures NextIn(g, n, upTo).None? <==> forall i :: 0 <= i < upTo ==> !Supersedes(g, g.edges[i], n)
  {
    if upTo > 0 {
      NoNextIff(g, n, upTo - 1);
    }
  }

  /** Of all supersession edges out of `n`, the one inserted last decides. */
  lemma {:induction false} LatestDecides(g: Graph, n: Node, x: Node, upTo: nat)
    requires upTo <= |g.edges|
    ensures NextIn(g, n, upTo) == Some(x) <==>
            exists i ::
              && 0 <= i < upTo && g.edges[i].source == n && g.edges[i].target == x && x in g.memory
              && (g.edges[i].kind == Refines || g.edges[i].kind == Contradicts)
              && forall j :: i < j < upTo && g.edges[j].source == n && g.edges[j].target in g.memory ==> g.edges[j].kind == OtherKind
  {
    if upTo > 0 {
      LatestDecides(g, n, x, upTo - 1);
    }
  }

  // ----- following supersessions -----------------------------------------------------------

  /** `j` hops lead from `v` to `x`. */
  ghost predicate Reaches(g: Graph, v: Node, j: nat, x: Node)
    decreases j
  {
    if j == 0 then v == x else Next(g, v).Some? && Reaches(g, Next(g, v).value, j - 1, x)
  }

  /** After `k` hops from `x` nothing newer is left. */
  ghost predicate Ends(g: Graph, x: Node, k: nat)
    decreases k
  {
    if k == 0 then Next(g, x).None? else Next(g, x).Some? && Ends(g, Next(g, x).value, k - 1)
  }

  /** The chain of `x` has a newest memory. */
  ghost predicate Halts(g: Graph, x: Node)
  {
    exists k: nat :: Ends(g, x, k)
  }

  lemma {:induction false} EndsOnce(g: Graph, x: Node, j: nat, k: nat)
    requires Ends(g, x, j) && Ends(g, x, k)
    ensures j == k
    decreases j
  {
    hide Next;
    if j > 0 && k > 0 {
      EndsOnce(g, Next(g, x).value, j - 1, k - 1);
    }
  }

  lemma {:induction false} ReachThenEnd(g: Graph, v: Node, j: nat, x: Node, k: nat)
    requires Reaches(g, v, j, x)
    ensures Ends(g, x, k) <==> Ends(g, v, j + k)
    decreases j
  {
    hide Next;
    if j > 0 {
      ReachThenEnd(g, Next(g, v).value, j - 1, x, k);
    }
  }

  lemma {:induction false} ReachConcat(g: Graph, v: Node, i: nat, x: Node, j: nat, y: Node)
    requires Reaches(g, v, i, x) && Reaches(g, x, j, y)
    ensures Reaches(g, v, i + j, y)
    decreases i
  {
    hide Next;
    if i > 0 {
      ReachConcat(g, Next(g, v).value, i - 1, x, j, y);
    }
  }

  lemma {:induction false} ReachSame(g: Graph, v: Node, j: nat, x: Node, y: Node)
    requires Reaches(g, v, j, x) && Reaches(g, v, j, y)
    ensures x == y
    decreases j
  {
    hide Next;
    if j > 0 {
      ReachSame(g, Next(g, v).value, j - 1, x, y);
    }
  }

  // ----- the walk ------------------------------------------------------------------------------

  /** The loop of `belief_head`, which stops before entering a node twice. */
  function Walk(g: Graph, cur: Node, visited: set<Node>): (h: Node)
    decreases |g.memory - visited|
  {
    match Next(g, cur)
    case None => cur
    case Some(next) =>
      if next in visited then cur
      else
        assert g.memory - (visited + {next}) == (g.memory - visited) - {next};
        Walk(g, next, visited + {next})
  }

  function Head(g: Graph, n: Node): (h: Node)
  {
    Walk(g, n, {n})
  }

  /** `belief_head` on interned nodes. It terminates on every graph, cyclic ones included. */
  method BeliefHead(g: Graph, n: Node) returns (h: Node)
    ensures h == Head(g, n)
  {
    hide Next;
    h := n;
    var visited := {n};
    while Next(g, h).Some? && Next(g, h).value !in visited
      invariant Walk(g, h, visited) == Head(g, n)
      decreases |g.memory - visited|
    {
      var next := Next(g, h).value;
      FewerLeft(g.memory, visited, next);
      h := next;
      visited := visited + {next};
    }
  }

  /** Every visited node leads to `cur`. */
  ghost predicate AllLeadTo(g: Graph, visited: set<Node>, cur: Node)
  {
    forall v :: v in visited ==> exists j: nat :: Reaches(g, v, j, cur)
  }

  lemma {:induction false} LeadOn(g: Graph, visited: set<Node>, cur: Node, next: Node)
    requires AllLeadTo(g, visited, cur) && Next(g, cur) == Some(next)
    ensures AllLeadTo(g, visited + {next}, next)
  {
    hide Next;
    forall v | v in visited + {next}
      ensures exists j: nat :: Reaches(g, v, j, next)
    {
      if v in visited {
        var j: nat :| Reaches(g, v, j, cur);
        assert Reaches(g, next, 0, next);
        assert Reaches(g, cur, 1, next);
        ReachConcat(g, v, j, cur, 1, next);
      } else {
        assert Reaches(g, v, 0, next);
      }
    }
  }

  lemma {:induction false} CycleNeverEnds(g: Graph, cur: Node, j: nat, k: nat)
    requires Next(g, cur).Some? && Reaches(g, Next(g, cur).value, j, cur)
    ensures !Ends(g, cur, k)
  {
    hide Next;
    if Ends(g, cur, k) {
      ReachThenEnd(g, cur, j + 1, cur, k);
      EndsOnce(g, cur, k, j + 1 + k);
      assert false;
    }
  }

  lemma {:induction false} HaltsNext(g: Graph, cur: Node)
    requires Next(g, cur).Some?
    ensures Halts(g, cur) <==> Halts(g, Next(g, cur).value)
  {
    hide Next;
    var next := Next(g, cur).value;
    if Halts(g, cur) {
      var k: nat :| Ends(g, cur, k);
      assert Ends(g, next, k - 1);
    }
    if Halts(g, next) {
      var k: nat :| Ends(g, next, k);
      assert Ends(g, cur, k + 1);
    }
  }

  /** The walk ends further along the chain, at a current belief exactly when the chain has one. */
  lemma {:induction false} WalkFinds(g: Graph, cur: Node, visited: set<Node>) returns (j: nat)
    requires AllLeadTo(g, visited, cur)
    ensures Reaches(g, cur, j, Walk(g, cur, visited))
    ensures Next(g, Walk(g, cur, visited)).None? <==> Halts(g, cur)
    decreases |g.memory - visited|
  {
    hide Next, AllLeadTo, Halts;
    j := 0;
    if Next(g, cur).None? {
      EndsHere(g, cur);
    } else {
      var next := Next(g, cur).value;
      if next in visited {
        ReturnNeverEnds(g, visited, cur);
      } else {
        FewerLeft(g.memory, visited, next);
        LeadOn(g, visited, cur, next);
        j := WalkFinds(g, next, visited + {next});
        j := j + 1;
        HaltsNext(g, cur);
      }
    }
  }

  lemma {:induction false} EndsHere(g: Graph, cur: Node)
    requires Next(g, cur).None?
    ensures Halts(g, cur)
  {
    assert Ends(g, cur, 0);
  }

  lemma {:induction false} ReturnNeverEnds(g: Graph, visited: set<Node>, cur: Node)
    requires AllLeadTo(g, visited, cur) && Next(g, cur).Some? && Next(g, cur).value in visited
    ensures !Halts(g, cur)
  {
    hide Next;
    var j: nat :| Reaches(g, Next(g, cur).value, j, cur);
    forall k: nat
      ensures !Ends(g, cur, k)
    {
      CycleNeverEnds(g, cur, j, k);
    }
  }

  /** The head is a memory nothing supersedes if and only if following supersessions ever ends. */
  lemma {:induction false} HeadIsCurrentIff(g: Graph, n: Node)
    ensures Next(g, Head(g, n)).None? <==> Halts(g, n)
    ensures exists j: nat :: Reaches(g, n, j, Head(g, n))
  {
    hide Next, Halts, Walk;
    OnlyItself(g, n);
    var j := WalkFinds(g, n, {n});
  }

  lemma {:induction false} OnlyItself(g: Graph, n: Node)
    ensures AllLeadTo(g, {n}, n)
  {
    assert Reaches(g, n, 0, n);
  }

  /** All members of a chain that ends agree on its head, and the head is its own head. */
  lemma {:induction false} ChainAgrees(g: Graph, n: Node, j: nat, m: Node)
    requires Halts(g, n) && Reaches(g, n, j, m)
    ensures Head(g, m) == Head(g, n) && Head(g, Head(g, n)) == Head(g, n)
  {
    hide Next, Head;
    HeadIsCurrentIff(g, n);
    var i: nat :| Reaches(g, n, i, Head(g, n));
    var h := Head(g, n);
    assert Ends(g, h, 0);
    ReachThenEnd(g, n, i, h, 0);
    EndsAt(g, n, i, j, m);
    assert Ends(g, m, i - j);
    HeadIsCurrentIff(g, m);
    var k: nat :| Reaches(g, m, k, Head(g, m));
    assert Ends(g, Head(g, m), 0);
    ReachThenEnd(g, m, k, Head(g, m), 0);
    EndsOnce(g, m, k, i - j);
    ReachConcat(g, n, j, m, k, Head(g, m));
    ReachSame(g, n, i, h, Head(g, m));
    CurrentIsItself(g, h);
  }

  lemma {:induction false} EndsAt(g: Graph, n: Node, i: nat, j: nat, m: Node)
    requires Ends(g, n, i) && Reaches(g, n, j, m)
    ensures j <= i && Ends(g, m, i - j)
    decreases j
  {
    hide Next;
    if j > 0 {
      EndsAt(g, Next(g, n).value, i - 1, j - 1, m);
    }
  }

  lemma {:induction false} CurrentIsItself(g: Graph, h: Node)
    requires Next(g, h).None?
    ensures Head(g, h) == h
  {
  }

  /** When every supersession points to a newer memory, every chain ends. */
  lemma {:induction false} NewerNeverCycles(g: Graph, age: Node -> nat, n: Node)
    requires forall e :: e in g.edges && Supersedes(g, e, e.source) ==> age(e.target) < age(e.source)
    ensures Halts(g, n)
    decreases age(n)
  {
    hide Halts;
    if Next(g, n).None? {
      EndsHere(g, n);
    } else {
      NextIsEdge(g, n, |g.edges|);
      NewerNeverCycles(g, age, Next(g, n).value);
      HaltsNext(g, n);
    }
  }

  lemma {:induction false} NextIsEdge(g: Graph, n: Node, upTo: nat)
    requires upTo <= |g.edges| && NextIn(g, n, upTo).Some?
    ensures exists e :: e in g.edges && Supersedes(g, e, n) && e.target == NextIn(g, n, upTo).value
  {
    if Supersedes(g, g.edges[upTo - 1], n) {
      assert g.edges[upTo - 1] in g.edges;
    } else {
      NextIsEdge(g, n, upTo - 1);
    }
  }

  /** Two memories committed as each other's replacement: each is reported as superseded by the other. */
  lemma {:induction false} MutualSupersessionHasNoCurrent()
    ensures var g := Graph([Edge(0, 1, Refines), Edge(1, 0, Refines)], {0, 1});
            Head(g, 0) == 1 && Head(g, 1) == 0
  {
    var g := Graph([Edge(0, 1, Refines), Edge(1, 0, Refines)], {0, 1});
    assert Next(g, 0) == Some(1) by { assert NextIn(g, 0, 1) == Some(1); }
    assert Next(g, 1) == Some(0);
    assert Walk(g, 1, {0} + {1}) == 1;
    assert Walk(g, 0, {1} + {0}) == 0;
  }
}
