/** `get_agent_tree`: it ends, and visits every descendant exactly once. */
module AgentTree {
  import opened Wrappers
  import opened Ordering
  import opened AgentModel
  import opened AgentTheorems

  datatype Tree = Node(agent: AgentId, children: seq<Tree>)

  /** Children are younger than their parents, which is why the recursion ends. */
  function TreeOf(agents: seq<Agent>, id: AgentId): Tree
    requires Structured(agents) && id < |agents|
    decreases |agents| - id, |agents[id].children| + 1
  {
    ChildrenAreYounger(agents, id);
    Node(id, Branches(agents, id, agents[id].children))
  }

  function Branches(agents: seq<Agent>, parent: AgentId, ids: seq<AgentId>): seq<Tree>
    requires Structured(agents) && forall i | 0 <= i < |ids| :: parent < ids[i] < |agents|
    decreases |agents| - parent, |ids|
  {
    if ids == [] then [] else [TreeOf(agents, ids[0])] + Branches(agents, parent, ids[1..])
  }

  lemma ChildrenAreYounger(agents: seq<Agent>, id: AgentId)
    requires Structured(agents) && id < |agents|
    ensures forall i | 0 <= i < |agents[id].children| :: id < agents[id].children[i] < |agents|
    ensures forall i | 0 <= i < |agents[id].children| :: agents[agents[id].children[i]].parent == Some(id)
  {
    forall i | 0 <= i < |agents[id].children|
      ensures id < agents[id].children[i] < |agents| && agents[agents[id].children[i]].parent == Some(id)
    {
      assert agents[id].children[i] in agents[id].children;
      assert IsChild(agents, id, agents[id].children[i]);
    }
  }

  /** The agents of a tree in the order in which they are visited. */
  function Visited(t: Tree): seq<AgentId> {
    [t.agent] + VisitedIn(t.children)
  }

  function VisitedIn(ts: seq<Tree>): seq<AgentId> {
    if ts == [] then [] else Visited(ts[0]) + VisitedIn(ts[1..])
  }

  /** The reference: following parent links from `d` leads to `a`. */
  predicate Descends(agents: seq<Agent>, a: AgentId, d: AgentId)
    requires Rooted(agents)
    decreases d
  {
    d < |agents| && (d == a || (agents[d].parent.Some? && Descends(agents, a, agents[d].parent.value)))
  }

  lemma {:induction false} DescendantsAreYounger(agents: seq<Agent>, a: AgentId, d: AgentId)
    requires Rooted(agents) && Descends(agents, a, d)
    ensures a <= d
    decreases d
  {
    if d != a {
      DescendantsAreYounger(agents, a, agents[d].parent.value);
    }
  }

  /** Two ancestors of one agent are related. */
  lemma {:induction false} AncestorsAreRelated(agents: seq<Agent>, a: AgentId, b: AgentId, d: AgentId)
    requires Rooted(agents) && Descends(agents, a, d) && Descends(agents, b, d)
    ensures Descends(agents, a, b) || Descends(agents, b, a)
    decreases d
  {
    if d != a && d != b {
      AncestorsAreRelated(agents, a, b, agents[d].parent.value);
    }
  }

  lemma SiblingsShareNothing(agents: seq<Agent>, p: AgentId, a: AgentId, b: AgentId, d: AgentId)
    requires Rooted(agents) && IsChild(agents, p, a) && IsChild(agents, p, b) && a != b
    ensures !(Descends(agents, a, d) && Descends(agents, b, d))
  {
    if Descends(agents, a, d) && Descends(agents, b, d) {
      AncestorsAreRelated(agents, a, b, d);
      if Descends(agents, a, b) {
        DescendantsAreYounger(agents, a, p);
      } else {
        DescendantsAreYounger(agents, b, p);
      }
    }
  }

  /** Below an agent come its children and what descends from them. */
  lemma {:induction false} DescentStartsAtAChild(agents: seq<Agent>, a: AgentId, d: AgentId) returns (c: AgentId)
    requires Rooted(agents) && Descends(agents, a, d) && d != a
    ensures IsChild(agents, a, c) && Descends(agents, c, d)
    decreases d
  {
    var up := agents[d].parent.value;
    if up == a {
      c := d;
    } else {
      c := DescentStartsAtAChild(agents, a, up);
    }
  }

  lemma {:induction false} ChildrenDescend(agents: seq<Agent>, a: AgentId, c: AgentId, d: AgentId)
    requires Rooted(agents) && IsChild(agents, a, c) && a < |agents| && Descends(agents, c, d)
    ensures Descends(agents, a, d)
    decreases d
  {
    if d != c {
      ChildrenDescend(agents, a, c, agents[d].parent.value);
    }
  }

  /** `get_agent_tree` visits exactly the descendants of an agent. */
  lemma {:induction false} TreeVisitsDescendants(agents: seq<Agent>, id: AgentId, d: AgentId)
    requires Structured(agents) && id < |agents|
    ensures d in Visited(TreeOf(agents, id)) <==> Descends(agents, id, d)
    decreases |agents| - id, |agents[id].children| + 1
  {
    ChildrenAreYounger(agents, id);
    BranchesVisitDescendants(agents, id, agents[id].children, d);
    var kids := agents[id].children;
    if Descends(agents, id, d) && d != id {
      var c := DescentStartsAtAChild(agents, id, d);
      assert c in kids;
    }
    if d in VisitedIn(Branches(agents, id, kids)) {
      var i :| 0 <= i < |kids| && Descends(agents, kids[i], d);
      ChildrenDescend(agents, id, kids[i], d);
    }
  }

  lemma {:induction false} BranchesVisitDescendants(agents: seq<Agent>, parent: AgentId, ids: seq<AgentId>, d: AgentId)
    requires Structured(agents) && forall i | 0 <= i < |ids| :: parent < ids[i] < |agents|
    ensures d in VisitedIn(Branches(agents, parent, ids)) <==> exists i | 0 <= i < |ids| :: Descends(agents, ids[i], d)
    decreases |agents| - parent, |ids|
  {
    if ids != [] {
      TreeVisitsDescendants(agents, ids[0], d);
      BranchesVisitDescendants(agents, parent, ids[1..], d);
      var t, ts := TreeOf(agents, ids[0]), Branches(agents, parent, ids[1..]);
      assert Branches(agents, parent, ids)[1..] == ts;
      assert d in VisitedIn(Branches(agents, parent, ids)) <==> d in Visited(t) || d in VisitedIn(ts);
      if i :| 0 <= i < |ids| && Descends(agents, ids[i], d) {
        assert i > 0 ==> ids[1..][i - 1] == ids[i];
      }
    }
  }

  /** It visits none of them twice. */
  lemma {:induction false} TreeVisitsOnce(agents: seq<Agent>, id: AgentId)
    requires Structured(agents) && id < |agents|
    ensures NoDuplicates(Visited(TreeOf(agents, id)))
    decreases |agents| - id, |agents[id].children| + 1
  {
    ChildrenAreYounger(agents, id);
    var kids := agents[id].children;
    BranchesVisitOnce(agents, id, kids);
    var below := VisitedIn(Branches(agents, id, kids));
    BranchesVisitDescendants(agents, id, kids, id);
    if id in below {
      var i :| 0 <= i < |kids| && Descends(agents, kids[i], id);
      DescendantsAreYounger(agents, kids[i], id);
    }
    assert Visited(TreeOf(agents, id)) == [id] + below;
  }

  lemma {:induction false} BranchesVisitOnce(agents: seq<Agent>, parent: AgentId, ids: seq<AgentId>)
    requires Structured(agents) && Ascending(ids)
    requires forall i | 0 <= i < |ids| :: parent < ids[i] < |agents| && agents[ids[i]].parent == Some(parent)
    ensures NoDuplicates(VisitedIn(Branches(agents, parent, ids)))
    decreases |agents| - parent, |ids|
  {
    if ids != [] {
      TreeVisitsOnce(agents, ids[0]);
      BranchesVisitOnce(agents, parent, ids[1..]);
      var first, rest := Visited(TreeOf(agents, ids[0])), VisitedIn(Branches(agents, parent, ids[1..]));
      forall d | d in first ensures d !in rest {
        TreeVisitsDescendants(agents, ids[0], d);
        BranchesVisitDescendants(agents, parent, ids[1..], d);
        if i :| 0 <= i < |ids[1..]| && Descends(agents, ids[1..][i], d) {
          SiblingsShareNothing(agents, parent, ids[0], ids[1..][i], d);
        }
      }
      assert Branches(agents, parent, ids)[1..] == Branches(agents, parent, ids[1..]);
      JoinDistinct(first, rest);
    }
  }

  lemma JoinDistinct(a: seq<AgentId>, b: seq<AgentId>)
    requires NoDuplicates(a) && NoDuplicates(b) && forall x | x in a :: x !in b
    ensures NoDuplicates(a + b)
  {
    forall i, j | 0 <= i < j < |a + b| ensures (a + b)[i] != (a + b)[j] {
      if i < |a| <= j {
        assert a[i] in a && b[j - |a|] in b;
      }
    }
  }
}
