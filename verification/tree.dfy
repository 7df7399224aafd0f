/** The transmission tree: one node per infected animal (plus the artificial ROOT), and a
    directed edge from every infector to every animal it infected. Nodes are identified by
    the animal id, so the vertex set is a map from id to node. */
module Transmission {
  import opened Common

  const ROOT_ID: string := "ROOT"

  /** An infection event as kept in the tree. The SNP set is a snapshot taken when the node
      is built; the dates are nullable Integers in the source. */
  datatype Node = Node(
    id: string,
    locationId: string,
    snp: set<int>,
    infectionDate: Option<int>,
    detectionDate: Option<int>,
    cow: bool)

  datatype Tree = Tree(nodes: map<string, Node>, edges: set<(string, string)>)

  /** `new InfectionNode(id, locationId, snps, infectionDate, detectionDate, isACow)`. */
  function NewNode(id: string, locationId: string, snps: set<int>, infectionDate: Option<int>,
                   detectionDate: Option<int>, isACow: bool): (n: Node)
    ensures n.id == id && n.locationId == locationId && n.snp == snps
    ensures n.infectionDate == infectionDate && n.detectionDate == detectionDate && n.cow == isACow
  {
    Node(id, locationId, snps, infectionDate, detectionDate, isACow)
  }

  /** The copy constructor `new InfectionNode(node)`: every field is copied, so the copy is
      indistinguishable from the original. */
  function CopyNode(n: Node): (m: Node)
    ensures m.id == n.id && m.locationId == n.locationId && m.snp == n.snp
    ensures m.infectionDate == n.infectionDate && m.detectionDate == n.detectionDate && m.cow == n.cow
    ensures m == n
  {
    NewNode(n.id, n.locationId, n.snp, n.infectionDate, n.detectionDate, n.cow)
  }

  predicate NodeEquals(a: Node, b: Node) { a.id == b.id }

  function NodeHash(n: Node): int { JavaHash(n.id) }

  /** Node equality is by id only, consistent with the hash: a node whose detection date has
      been set is still the same vertex. */
  lemma NodeIdentity(a: Node, b: Node, date: Option<int>)
    ensures NodeEquals(a, b) ==> NodeHash(a) == NodeHash(b) && NodeEquals(b, a)
    ensures NodeEquals(a, a.(detectionDate := date, snp := b.snp))
    ensures NodeEquals(a, b) <==> a.id == b.id
  {
  }

  // ---------------------------------------------------------------------------
  // CSV record
  // ---------------------------------------------------------------------------

  /** StringBuilder.append(boolean). */
  function BoolText(b: bool): string { if b then "true" else "false" }

  /** StringBuilder.append(Integer): a null date prints as "null". */
  function DateText(d: Option<int>): string
  {
    match d
    case None => "null"
    case Some(x) => IntToString(x)
  }

  const NodeColumns: seq<string> := ["animal_ID", "isCow", "InfectionDate", "DetectionDate", "SNPs"]

  /** `InfectionNode.Header`. */
  const NodeHeader: string := Join(NodeColumns, ',') + "\n"

  /** `InfectionNode.record`; `order` is the iteration order of the SNP set. */
  function NodeRecord(n: Node, order: seq<int>): string
    requires Enumerates(order, n.snp)
  {
    Join([n.id, BoolText(n.cow), DateText(n.infectionDate), DateText(n.detectionDate),
          Join(IntTexts(order), ';')], ',')
  }

  predicate DateInRange(d: Option<int>) { d.Some? ==> INT_MIN <= d.value <= INT_MAX }

  /** A date field reads back as the date it was written from, "null" meaning no date. */
  lemma DateTextRoundTrip(d: Option<int>)
    requires DateInRange(d)
    ensures DateText(d) == "null" <==> d.None?
    ensures d.Some? ==> ParseInt(DateText(d)) == d
    ensures ',' !in DateText(d)
  {
    match d
    case None =>
    case Some(x) =>
      IntToStringRoundTrip(x);
      IntToStringAvoids(x, ',');
      assert DateText(d)[0] != 'n';
  }

  /** A node record has one field per header column, each recovering what was written. */
  lemma NodeRecordFields(n: Node, order: seq<int>)
    requires Enumerates(order, n.snp)
    requires ',' !in n.id
    requires DateInRange(n.infectionDate) && DateInRange(n.detectionDate)
    ensures var f := SplitAll(NodeRecord(n, order), ',');
      && |f| == |NodeColumns| == 5
      && f[0] == n.id
      && (f[1] == "true" <==> n.cow)
      && (f[2] == "null" <==> n.infectionDate.None?)
      && (n.infectionDate.Some? ==> ParseInt(f[2]) == n.infectionDate)
      && (f[3] == "null" <==> n.detectionDate.None?)
      && (n.detectionDate.Some? ==> ParseInt(f[3]) == n.detectionDate)
  {
    var texts := IntTexts(order);
    forall i | 0 <= i < |texts| ensures ',' !in texts[i] {
      IntToStringAvoids(order[i], ',');
    }
    JoinAvoids(texts, ';', ',');
    DateTextRoundTrip(n.infectionDate);
    DateTextRoundTrip(n.detectionDate);
    SplitJoin([n.id, BoolText(n.cow), DateText(n.infectionDate), DateText(n.detectionDate), Join(texts, ';')], ',');
  }

  // ---------------------------------------------------------------------------
  // Graph structure
  // ---------------------------------------------------------------------------

  /** Every edge joins two vertices and every vertex is stored under its own id. */
  predicate WellFormed(t: Tree)
  {
    && (forall e :: e in t.edges ==> e.0 in t.nodes && e.1 in t.nodes)
    && (forall id :: id in t.nodes ==> t.nodes[id].id == id)
  }

  /** `addVertex`: a vertex whose id is already present is left as it is. */
  function AddVertex(t: Tree, n: Node): (r: Tree)
    ensures r.nodes.Keys == t.nodes.Keys + {n.id} && r.edges == t.edges
    ensures n.id !in t.nodes ==> r.nodes[n.id] == n
    ensures forall id :: id in t.nodes ==> r.nodes[id] == t.nodes[id]
  {
    if n.id in t.nodes then t else Tree(t.nodes[n.id := n], t.edges)
  }

  /** `addVertex(child)` followed by `addEdge(parent, child)`, as done for every new infection. */
  function AddChild(t: Tree, parentId: string, child: Node): (r: Tree)
    requires WellFormed(t) && parentId in t.nodes
    ensures WellFormed(r)
    ensures r.nodes.Keys == t.nodes.Keys + {child.id}
    ensures child.id !in t.nodes ==> r.nodes[child.id] == child
    ensures forall id :: id in t.nodes ==> r.nodes[id] == t.nodes[id]
    ensures r.edges == t.edges + {(parentId, child.id)}
  {
    var s := AddVertex(t, child);
    Tree(s.nodes, s.edges + {(parentId, child.id)})
  }

  /** `setDetectionDate` on the vertex of an animal that has just been sampled. */
  function SetDetectionDate(t: Tree, id: string, date: int): (r: Tree)
    requires id in t.nodes
    ensures r.nodes.Keys == t.nodes.Keys && r.edges == t.edges
    ensures r.nodes[id].detectionDate == Some(date)
    ensures r.nodes[id].(detectionDate := t.nodes[id].detectionDate) == t.nodes[id]
    ensures forall k :: k in t.nodes && k != id ==> r.nodes[k] == t.nodes[k]
  {
    Tree(t.nodes[id := t.nodes[id].(detectionDate := Some(date))], t.edges)
  }

  /** Pruning one vertex: each parent of `n` is linked to each child of `n`, then `n` and every
      edge touching it are removed. */
  function RemoveNode(t: Tree, n: string): (r: Tree)
    ensures r.nodes == t.nodes - {n}
  {
    var bridged := set i, o | i in t.edges && o in t.edges && i.1 == n && o.0 == n :: (i.0, o.1);
    Tree(t.nodes - {n}, set e | e in t.edges + bridged && e.0 != n && e.1 != n)
  }

  lemma RemoveNodeWellFormed(t: Tree, n: string)
    requires WellFormed(t)
    ensures WellFormed(RemoveNode(t, n))
  {
  }

  /** A chain of edges. */
  ghost predicate Path(t: Tree, p: seq<string>)
  {
    |p| >= 1 && forall i :: 0 <= i < |p| - 1 ==> (p[i], p[i + 1]) in t.edges
  }

  ghost predicate Reaches(t: Tree, a: string, b: string)
  {
    exists p :: Path(t, p) && p[0] == a && p[|p| - 1] == b
  }

  /** A path of the full tree between two other vertices survives the removal of `n`: every
      detour through `n` is replaced by the bridging edge. */
  lemma {:induction false} PathSurvivesRemoval(t: Tree, n: string, p: seq<string>) returns (q: seq<string>)
    requires Path(t, p) && p[0] != n && p[|p| - 1] != n
    ensures Path(RemoveNode(t, n), q) && q[0] == p[0] && q[|q| - 1] == p[|p| - 1]
    decreases |p|
  {
    var r := RemoveNode(t, n);
    if |p| == 1 {
      q := p;
    } else if p[1] != n {
      var rest := PathSurvivesRemoval(t, n, p[1..]);
      assert (p[0], p[1]) in r.edges;
      q := [p[0]] + rest;
      assert Path(r, q) by {
        forall i | 0 <= i < |q| - 1 ensures (q[i], q[i + 1]) in r.edges {
          if i > 0 {
            assert q[i] == rest[i - 1] && q[i + 1] == rest[i];
          }
        }
      }
    } else if p[2] != n {
      // p[0] -> n -> p[2] becomes the bridge p[0] -> p[2]
      assert (p[0], n) in t.edges && (n, p[2]) in t.edges;
      assert (p[0], p[2]) in r.edges;
      var rest := PathSurvivesRemoval(t, n, p[2..]);
      q := [p[0]] + rest;
      assert Path(r, q) by {
        forall i | 0 <= i < |q| - 1 ensures (q[i], q[i + 1]) in r.edges {
          if i > 0 {
            assert q[i] == rest[i - 1] && q[i + 1] == rest[i];
          }
        }
      }
    } else {
      // a self-loop on n: drop one repetition of n
      var shorter := [p[0]] + p[2..];
      assert Path(t, shorter) by {
        forall i | 0 <= i < |shorter| - 1 ensures (shorter[i], shorter[i + 1]) in t.edges {
          if i > 0 {
            assert shorter[i] == p[i + 1] && shorter[i + 1] == p[i + 2];
          }
        }
      }
      q := PathSurvivesRemoval(t, n, shorter);
    }
  }

  /** Conversely every path after the removal comes from a path of the full tree: each
      bridging edge stands for a two-step detour through `n`. */
  lemma {:induction false} PathComesFromTree(t: Tree, n: string, q: seq<string>) returns (p: seq<string>)
    requires Path(RemoveNode(t, n), q)
    ensures Path(t, p) && p[0] == q[0] && p[|p| - 1] == q[|q| - 1]
    decreases |q|
  {
    if |q| == 1 {
      p := q;
    } else {
      var rest := PathComesFromTree(t, n, q[1..]);
      assert (q[0], q[1]) in RemoveNode(t, n).edges;
      if (q[0], q[1]) in t.edges {
        p := [q[0]] + rest;
        assert Path(t, p) by {
          forall i | 0 <= i < |p| - 1 ensures (p[i], p[i + 1]) in t.edges {
            if i > 0 {
              assert p[i] == rest[i - 1] && p[i + 1] == rest[i];
            }
          }
        }
      } else {
        assert (q[0], n) in t.edges && (n, q[1]) in t.edges;
        p := [q[0], n] + rest;
        assert Path(t, p) by {
          forall i | 0 <= i < |p| - 1 ensures (p[i], p[i + 1]) in t.edges {
            if i > 1 {
              assert p[i] == rest[i - 2] && p[i + 1] == rest[i - 1];
            }
          }
        }
      }
    }
  }

  /** Removing a vertex changes no reachability between the other vertices: each surviving
      node stays below exactly the surviving ancestors it had. */
  lemma RemoveNodePreservesReach(t: Tree, n: string, a: string, b: string)
    requires a != n && b != n
    ensures Reaches(RemoveNode(t, n), a, b) <==> Reaches(t, a, b)
  {
    if Reaches(t, a, b) {
      var p :| Path(t, p) && p[0] == a && p[|p| - 1] == b;
      var q := PathSurvivesRemoval(t, n, p);
    }
    if Reaches(RemoveNode(t, n), a, b) {
      var q :| Path(RemoveNode(t, n), q) && q[0] == a && q[|q| - 1] == b;
      var p := PathComesFromTree(t, n, q);
    }
  }
}
