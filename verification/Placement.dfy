/** Rendezvous placement with failure domains: internal/placement/placement.go.

    The reference is a ranking: the best node of every domain first, by score, then all the other
    nodes by score. A pick is the first n of the ranking, and adding a node never improves the rank
    of another one, which is why at most one node is displaced. */
module PlacementSpec {
  import opened Lists
  import opened Order

  datatype Node = Node(id: string, addr: string, domain: string)

  /** hrwScore for one chunk: any function of the node id. */
  type Score = string -> nat

  /** Higher score first, ties by id. */
  predicate Beats(score: Score, a: Node, b: Node) {
    score(a.id) > score(b.id) || (score(a.id) == score(b.id) && Less(a.id, b.id))
  }

  function ByScore(score: Score): (r: (Node, Node) -> bool) { (a, b) => Beats(score, a, b) }

  ghost predicate DistinctIDs(nodes: set<Node>) {
    forall a, b :: a in nodes && b in nodes && a.id == b.id ==> a == b
  }

  lemma BeatsIsOrder(score: Score, a: Node, b: Node, c: Node)
    ensures !Beats(score, a, a)
    ensures Beats(score, a, b) ==> !Beats(score, b, a)
    ensures Beats(score, a, b) && Beats(score, b, c) ==> Beats(score, a, c)
    ensures a.id != b.id ==> Beats(score, a, b) || Beats(score, b, a)
  {
    LessIrreflexive(a.id);
    LessAsymmetric(a.id, b.id);
    LessTotal(a.id, b.id);
    if Less(a.id, b.id) && Less(b.id, c.id) { LessTransitive(a.id, b.id, c.id); }
  }

  /** The best node of its domain. */
  ghost predicate IsHead(score: Score, nodes: set<Node>, y: Node) {
    forall z <- nodes :: z.domain == y.domain && z != y ==> Beats(score, y, z)
  }

  /** y comes before z in the ranking of the node set. */
  ghost predicate Before(score: Score, nodes: set<Node>, y: Node, z: Node) {
    if IsHead(score, nodes, y) == IsHead(score, nodes, z) then Beats(score, y, z)
    else IsHead(score, nodes, y)
  }

  ghost function Ahead(score: Score, nodes: set<Node>, y: Node): (s: set<Node>) {
    set z | z in nodes && Before(score, nodes, z, y)
  }

  /** The nodes that fewer than n others precede. */
  ghost function Picked(score: Score, nodes: set<Node>, n: int): (s: set<Node>) {
    set y | y in nodes && |Ahead(score, nodes, y)| < n
  }

  /** used holds the domains of the first k nodes. */
  ghost predicate DomainsOf(s: seq<Node>, k: nat, used: set<string>) {
    k <= |s| && forall d :: d in used <==> exists i :: 0 <= i < k && s[i].domain == d
  }

  ghost predicate IdsOf(out: seq<Node>, used: set<string>) {
    forall id :: id in used <==> exists y :: y in out && y.id == id
  }

  // ---- adding a node ----

  /** With x added, a head stays a head or loses its domain to x, and nobody else becomes a head. */
  lemma HeadsAfterAdding(score: Score, nodes: set<Node>, x: Node, y: Node)
    requires DistinctIDs(nodes + {x}) && x !in nodes && y in nodes
    ensures IsHead(score, nodes + {x}, y) ==> IsHead(score, nodes, y)
    ensures IsHead(score, nodes, y) && !IsHead(score, nodes + {x}, y) ==>
      y.domain == x.domain && Beats(score, x, y) && IsHead(score, nodes + {x}, x)
  {
    BeatsIsOrder(score, x, y, y);
    if IsHead(score, nodes, y) && !IsHead(score, nodes + {x}, y) {
      forall z | z in nodes && z.domain == x.domain && z != x ensures Beats(score, x, z) {
        BeatsIsOrder(score, x, y, z);
      }
    }
  }

  /** Two heads of one domain are the same node. */
  lemma OneHeadPerDomain(score: Score, nodes: set<Node>, y: Node, z: Node)
    requires y in nodes && z in nodes && y.domain == z.domain
    requires IsHead(score, nodes, y) && IsHead(score, nodes, z)
    ensures y == z
  {
    BeatsIsOrder(score, y, z, z);
  }

  /** Whoever was ahead of y still is, except that x may stand in for the head it replaced. */
  lemma StillAhead(score: Score, nodes: set<Node>, x: Node, y: Node, z: Node)
    requires DistinctIDs(nodes + {x}) && x !in nodes && y in nodes && z in Ahead(score, nodes, y)
    requires z !in Ahead(score, nodes + {x}, y)
    ensures x in Ahead(score, nodes + {x}, y)
    ensures IsHead(score, nodes, z) && z.domain == x.domain
  {
    HeadsAfterAdding(score, nodes, x, y);
    HeadsAfterAdding(score, nodes, x, z);
    BeatsIsOrder(score, x, z, y);
  }

  /** Adding a node does not bring any other node forward. */
  lemma RankNeverImproves(score: Score, nodes: set<Node>, x: Node, y: Node)
    requires DistinctIDs(nodes + {x}) && x !in nodes && y in nodes
    ensures |Ahead(score, nodes, y)| <= |Ahead(score, nodes + {x}, y)|
  {
    var was, now := Ahead(score, nodes, y), Ahead(score, nodes + {x}, y);
    if was <= now {
      CardinalityOfSubset(was, now);
    } else {
      var h :| h in was && h !in now;
      StillAhead(score, nodes, x, y, h);
      forall z | z in was && z != h ensures z in now {
        if z !in now {
          StillAhead(score, nodes, x, y, z);
          OneHeadPerDomain(score, nodes, z, h);
        }
      }
      CardinalityOfSubset(was - {h} + {x}, now);
    }
  }

  lemma CardinalityOfSubset(a: set<Node>, b: set<Node>)
    requires a <= b
    ensures |a| <= |b|
  {
    assert b == a + (b - a);
  }

  /** The pick after adding x: old picks and possibly x. */
  lemma AddingOneNode(score: Score, nodes: set<Node>, x: Node, n: int)
    requires DistinctIDs(nodes + {x}) && x !in nodes
    ensures Picked(score, nodes + {x}, n) <= Picked(score, nodes, n) + {x}
  {
    forall y | y in Picked(score, nodes + {x}, n) && y != x ensures y in Picked(score, nodes, n) {
      RankNeverImproves(score, nodes, x, y);
    }
  }
}

/** The two pickers, proved against the ranking. */
module Placement {
  import opened Lists
  import opened Order
  import opened PlacementSpec

  /** Every node once, and no two nodes with one id. */
  ghost predicate DistinctNodes(nodes: seq<Node>) { forall i, j :: 0 <= i < j < |nodes| ==> nodes[i].id != nodes[j].id }

  /** out lists the first |out| nodes of the ranking, in order. */
  ghost predicate Ranked(score: Score, nodes: set<Node>, out: seq<Node>) {
    forall i :: 0 <= i < |out| ==> out[i] in nodes && Ahead(score, nodes, out[i]) == Elems(out[..i])
  }

  ghost predicate IsSortOf(score: Score, nodes: seq<Node>, s: seq<Node>) {
    multiset(s) == multiset(nodes) && Elems(s) == Elems(nodes) && Sorted(ByScore(score), s)
  }

  /** sort.Slice by descending score, ties by id. */
  method SortByScore(score: Score, nodes: seq<Node>) returns (s: seq<Node>)
    requires DistinctNodes(nodes)
    ensures |s| == |nodes| && IsSortOf(score, nodes, s) && NoRepeats(s) && DistinctIDs(Elems(nodes))
  {
    var before := ByScore(score);
    s := Sort(before, nodes);
    BeatsOrders(score, nodes);
    SortSorted(before, nodes);
    forall y ensures y in s <==> y in nodes { SameMembers(s, nodes, y); }
    assert |multiset(s)| == |multiset(nodes)|;
    forall i, j | 0 <= i < j < |s| ensures s[i] != s[j] { BeatsIsOrder(score, s[i], s[j], s[j]); }
  }

  lemma BeatsOrders(score: Score, nodes: seq<Node>)
    requires DistinctNodes(nodes)
    ensures Orders(ByScore(score), nodes) && NoRepeats(nodes) && DistinctIDs(Elems(nodes))
  {
    forall a, b, c | a in nodes && b in nodes && c in nodes
      ensures a != b ==> Beats(score, a, b) || Beats(score, b, a)
      ensures Beats(score, a, b) ==> !Beats(score, b, a)
      ensures Beats(score, a, b) && Beats(score, b, c) ==> Beats(score, a, c)
      ensures a.id == b.id ==> a == b
    {
      BeatsIsOrder(score, a, b, c);
    }
  }

  /** A node already listed is not ahead of itself, so a ranked list has no repeats. */
  lemma RankedNoRepeats(score: Score, nodes: set<Node>, out: seq<Node>)
    requires Ranked(score, nodes, out)
    ensures NoRepeats(out)
  {
    forall i, j | 0 <= i < j < |out| ensures out[i] != out[j] {
      assert out[..j][i] in Elems(out[..j]);
      BeatsIsOrder(score, out[j], out[j], out[j]);
    }
  }

  /** Of two different nodes one comes before the other. */
  lemma BeforeTotal(score: Score, nodes: set<Node>, y: Node, z: Node)
    requires DistinctIDs(nodes) && y in nodes && z in nodes && y != z
    ensures Before(score, nodes, y, z) || Before(score, nodes, z, y)
  {
    BeatsIsOrder(score, y, z, z);
  }

  /** A full-length ranked list is the pick. */
  lemma RankedIsPicked(score: Score, nodes: set<Node>, out: seq<Node>, n: nat)
    requires DistinctIDs(nodes) && Ranked(score, nodes, out)
    requires |out| == n || (|out| < n && Elems(out) == nodes)
    ensures Elems(out) == Picked(score, nodes, n)
  {
    RankedNoRepeats(score, nodes, out);
    forall y | y in nodes ensures y in out <==> y in Picked(score, nodes, n) {
      if y in out {
        var i :| 0 <= i < |out| && out[i] == y;
        SizeNoRepeats(out[..i]);
      } else {
        forall i | 0 <= i < |out| ensures out[i] in Ahead(score, nodes, y) {
          assert y !in Elems(out[..i]);
          BeforeTotal(score, nodes, out[i], y);
        }
        SizeNoRepeats(out);
        CardinalityOfSubset(Elems(out), Ahead(score, nodes, y));
      }
    }
  }

  // ---- the walk over the sorted nodes ----

  /** s[k] is a head exactly when no earlier node shares its domain. */
  lemma HeadIsFirst(score: Score, nodes: seq<Node>, s: seq<Node>, k: nat, used: set<string>)
    requires k < |s| && IsSortOf(score, nodes, s) && DomainsOf(s, k, used)
    ensures IsHead(score, Elems(nodes), s[k]) <==> s[k].domain !in used
    ensures DomainsOf(s, k + 1, used + {s[k].domain})
    ensures s[k].domain in used ==> DomainsOf(s, k + 1, used)
  {
    forall i | 0 <= i < k ensures s[i] in Elems(nodes) && !Beats(score, s[k], s[i]) && s[i] != s[k] {
      assert s[i] in Elems(s);
      BeatsIsOrder(score, s[i], s[k], s[k]);
    }
    if s[k].domain !in used {
      forall z | z in Elems(nodes) && z.domain == s[k].domain && z != s[k] ensures Beats(score, s[k], z) {
        assert z in Elems(s);
        var j :| 0 <= j < |s| && s[j] == z;
      }
    }
  }

  /** In the sorted list a node is beaten exactly by those in front of it. */
  lemma BeatenByPrefix(score: Score, nodes: seq<Node>, s: seq<Node>, k: nat, z: Node)
    requires k < |s| && IsSortOf(score, nodes, s) && z in Elems(nodes)
    ensures Beats(score, z, s[k]) <==> z in s[..k]
  {
    assert z in Elems(s);
    var j :| 0 <= j < |s| && s[j] == z;
    if j < k { assert z == s[..k][j]; }
    BeatsIsOrder(score, z, s[k], z);
    if z in s[..k] { var i :| 0 <= i < k && s[..k][i] == z; }
  }

  /** The first pass lists the heads met so far. */
  ghost predicate HeadsOf(score: Score, nodes: seq<Node>, s: seq<Node>, k: nat, out: seq<Node>)
    requires k <= |s|
  {
    forall y :: y in out <==> y in s[..k] && IsHead(score, Elems(nodes), y)
  }

  /** The second pass has listed all heads and every node met so far. */
  ghost predicate HeadsAnd(score: Score, nodes: seq<Node>, s: seq<Node>, k: nat, out: seq<Node>)
    requires k <= |s|
  {
    forall y :: y in out <==> y in s && (y in s[..k] || IsHead(score, Elems(nodes), y))
  }

  lemma NextHead(score: Score, nodes: seq<Node>, s: seq<Node>, k: nat, out: seq<Node>)
    requires k < |s| && IsSortOf(score, nodes, s)
    requires HeadsOf(score, nodes, s, k, out) && Ranked(score, Elems(nodes), out)
    ensures !IsHead(score, Elems(nodes), s[k]) ==> HeadsOf(score, nodes, s, k + 1, out)
    ensures IsHead(score, Elems(nodes), s[k]) ==>
      HeadsOf(score, nodes, s, k + 1, out + [s[k]]) && Ranked(score, Elems(nodes), out + [s[k]])
  {
    assert s[..k + 1] == s[..k] + [s[k]];
    if IsHead(score, Elems(nodes), s[k]) {
      forall z | z in Elems(nodes) ensures z in Ahead(score, Elems(nodes), s[k]) <==> z in Elems(out) {
        BeatenByPrefix(score, nodes, s, k, z);
      }
      forall z | z in Elems(out) ensures z in Elems(nodes) { assert z in s[..k]; assert z in Elems(s); }
      assert s[k] in Elems(s);
      ExtendRanked(score, Elems(nodes), out, s[k]);
    }
  }

  lemma ExtendRanked(score: Score, nodes: set<Node>, out: seq<Node>, y: Node)
    requires Ranked(score, nodes, out) && y in nodes && Ahead(score, nodes, y) == Elems(out)
    ensures Ranked(score, nodes, out + [y])
  {
    var r := out + [y];
    forall i | 0 <= i < |r| ensures r[i] in nodes && Ahead(score, nodes, r[i]) == Elems(r[..i]) {
      if i < |out| { assert r[..i] == out[..i]; } else { assert r[..i] == out; }
    }
  }

  lemma NextRest(score: Score, nodes: seq<Node>, s: seq<Node>, k: nat, out: seq<Node>)
    requires k < |s| && IsSortOf(score, nodes, s)
    requires HeadsAnd(score, nodes, s, k, out) && Ranked(score, Elems(nodes), out)
    ensures s[k] in out ==> HeadsAnd(score, nodes, s, k + 1, out)
    ensures s[k] !in out ==>
      HeadsAnd(score, nodes, s, k + 1, out + [s[k]]) && Ranked(score, Elems(nodes), out + [s[k]])
  {
    assert s[..k + 1] == s[..k] + [s[k]];
    if s[k] !in out {
      forall z | z in Elems(nodes) ensures z in Ahead(score, Elems(nodes), s[k]) <==> z in Elems(out) {
        BeatenByPrefix(score, nodes, s, k, z);
        assert z in Elems(s);
      }
      forall z | z in Elems(out) ensures z in Elems(nodes) { assert z in Elems(s); }
      assert s[k] in Elems(s);
      ExtendRanked(score, Elems(nodes), out, s[k]);
    }
  }

  /** First pass: the top node of each domain. */
  method PickHeads(score: Score, nodes: seq<Node>, s: seq<Node>, n: nat)
    returns (out: seq<Node>, usedID: set<string>)
    requires IsSortOf(score, nodes, s)
    ensures |out| <= n && Ranked(score, Elems(nodes), out) && (|out| == n || HeadsOf(score, nodes, s, |s|, out))
    ensures IdsOf(out, usedID)
  {
    out, usedID := [], {};
    var usedDomain: set<string> := {};
    var k := 0;
    while k < |s| && |out| < n
      invariant k <= |s| && |out| <= n
      invariant DomainsOf(s, k, usedDomain)
      invariant HeadsOf(score, nodes, s, k, out) && Ranked(score, Elems(nodes), out)
      invariant IdsOf(out, usedID)
    {
      HeadIsFirst(score, nodes, s, k, usedDomain);
      NextHead(score, nodes, s, k, out);
      if s[k].domain !in usedDomain {
        out := out + [s[k]];
        usedDomain := usedDomain + {s[k].domain};
        usedID := usedID + {s[k].id};
      }
      k := k + 1;
    }
  }

  /** Second pass: the remaining slots by score alone. */
  method FillRest(score: Score, nodes: seq<Node>, s: seq<Node>, n: nat, heads: seq<Node>, ids: set<string>)
    returns (out: seq<Node>)
    requires IsSortOf(score, nodes, s) && DistinctIDs(Elems(nodes)) && |heads| <= n
    requires Ranked(score, Elems(nodes), heads) && HeadsOf(score, nodes, s, |s|, heads)
    requires IdsOf(heads, ids)
    ensures |out| <= n && Ranked(score, Elems(nodes), out) && (|out| == n || Elems(out) == Elems(nodes))
  {
    out := heads;
    var usedID := ids;
    var k := 0;
    assert s[..|s|] == s;
    while k < |s| && |out| < n
      invariant k <= |s| && |out| <= n
      invariant HeadsAnd(score, nodes, s, k, out) && Ranked(score, Elems(nodes), out)
      invariant IdsOf(out, usedID)
    {
      NextRest(score, nodes, s, k, out);
      IdDecides(nodes, s, k, out);
      if s[k].id !in usedID {
        out := out + [s[k]];
        usedID := usedID + {s[k].id};
      }
      k := k + 1;
    }
    if |out| < n { forall y ensures y in out <==> y in s { } assert Elems(out) == Elems(s); }
  }

  lemma IdDecides(nodes: seq<Node>, s: seq<Node>, k: nat, out: seq<Node>)
    requires k < |s| && Elems(s) == Elems(nodes) && DistinctIDs(Elems(nodes)) && forall y :: y in out ==> y in s
    ensures s[k] in out <==> exists y :: y in out && y.id == s[k].id
  {
  }

  function Least(a: int, b: int): (r: int) { if a < b then a else b }

  /** The top n nodes by score. */
  method PickFromNodes(score: Score, nodes: seq<Node>, n: int) returns (out: seq<Node>)
    requires DistinctNodes(nodes)
    ensures |out| == if n <= 0 then 0 else Least(n, |nodes|)
    ensures forall y :: y in out ==> y in nodes
    ensures Sorted(ByScore(score), out)
    ensures forall y, z :: y in out && z in nodes && z !in out ==> Beats(score, y, z)
    ensures forall y, z :: y in out && z in nodes && z !in out ==> score(y.id) >= score(z.id)
    ensures forall i, j :: 0 <= i < j < |out| ==> score(out[i].id) >= score(out[j].id)
  {
    if n <= 0 || |nodes| == 0 { return []; }
    var m := Least(n, |nodes|);
    var s := SortByScore(score, nodes);
    out := s[..m];
    forall y | y in out ensures y in nodes { assert y in Elems(s); }
    forall q | 0 <= q < m ensures s[q] in out { assert out[q] == s[q]; }
    forall y, z | y in out && z in nodes && z !in out ensures Beats(score, y, z) {
      assert z in Elems(nodes) && z in Elems(s);
      var i, j :| 0 <= i < m && s[i] == y && 0 <= j < |s| && s[j] == z;
    }
  }

  /** With no domain labels the best node is the only head, so the ranking is the score order. */
  lemma NoDomainsRanked(score: Score, nodes: seq<Node>, out: seq<Node>)
    requires DistinctIDs(Elems(nodes)) && (forall y <- nodes :: y.domain == "")
    requires (forall y :: y in out ==> y in nodes) && Sorted(ByScore(score), out)
    requires forall y, z :: y in out && z in nodes && z !in out ==> Beats(score, y, z)
    ensures Ranked(score, Elems(nodes), out)
  {
    forall i | 0 <= i < |out| ensures out[i] in Elems(nodes) && Ahead(score, Elems(nodes), out[i]) == Elems(out[..i]) {
      forall z | z in Elems(nodes) ensures Before(score, Elems(nodes), z, out[i]) <==> z in out[..i] {
        NoDomainsBefore(score, Elems(nodes), z, out[i]);
        BeatsIsOrder(score, z, out[i], z);
        if z in out {
          var j :| 0 <= j < |out| && out[j] == z;
          if j < i { assert z == out[..i][j]; }
        }
      }
    }
  }

  lemma NoDomainsBefore(score: Score, nodes: set<Node>, y: Node, z: Node)
    requires DistinctIDs(nodes) && y in nodes && z in nodes && forall w <- nodes :: w.domain == ""
    ensures Before(score, nodes, y, z) <==> Beats(score, y, z)
  {
    BeatsIsOrder(score, y, z, y);
  }

  /** The domain-aware pick: the first n nodes of the ranking. */
  method PickFromNodesByDomain(score: Score, nodes: seq<Node>, n: int) returns (out: seq<Node>)
    requires DistinctNodes(nodes)
    ensures |out| == if n <= 0 then 0 else Least(n, |nodes|)
    ensures Ranked(score, Elems(nodes), out)
    ensures Elems(out) == Picked(score, Elems(nodes), n)
    ensures forall i, z :: 0 <= i < |out| && z in nodes && z !in out[..i] ==> Outranks(score, nodes, out[i], z)
  {
    BeatsOrders(score, nodes);
    if n <= 0 || |nodes| == 0 { return []; }
    var m := Least(n, |nodes|);
    var hasDomain := exists y <- nodes :: y.domain != "";
    if !hasDomain {
      out := PickFromNodes(score, nodes, m);
      NoDomainsRanked(score, nodes, out);
    } else {
      var s := SortByScore(score, nodes);
      var usedID;
      out, usedID := PickHeads(score, nodes, s, m);
      if |out| < m { out := FillRest(score, nodes, s, m, out, usedID); }
    }
    FullLength(score, nodes, out, m);
    RankedIsPicked(score, Elems(nodes), out, m);
    PickedBeyondSize(score, Elems(nodes), n, m);
    forall i, z | 0 <= i < |out| && z in nodes && z !in out[..i] ensures Outranks(score, nodes, out[i], z) {
      RankedOutranks(score, nodes, out, i, z);
    }
  }

  /** y has the highest score in its domain. */
  ghost predicate TopOfDomain(score: Score, nodes: seq<Node>, y: Node) {
    forall w <- nodes :: w.domain == y.domain ==> score(w.id) <= score(y.id)
  }

  /** Why y is picked and z is not, or later: y has at least z's score, or is the top of its domain while
      another node of z's domain has at least z's score. */
  ghost predicate Outranks(score: Score, nodes: seq<Node>, y: Node, z: Node) {
    || score(y.id) >= score(z.id)
    || (&& TopOfDomain(score, nodes, y)
        && exists w <- nodes :: w != z && w.domain == z.domain && score(w.id) >= score(z.id))
  }

  lemma RankedOutranks(score: Score, nodes: seq<Node>, out: seq<Node>, i: nat, z: Node)
    requires DistinctIDs(Elems(nodes)) && Ranked(score, Elems(nodes), out) && i < |out|
    requires z in nodes && z !in out[..i]
    ensures Outranks(score, nodes, out[i], z)
  {
    var y := out[i];
    assert y in Elems(nodes) && z !in Ahead(score, Elems(nodes), y);
    if y != z {
      BeforeTotal(score, Elems(nodes), y, z);
      if !Beats(score, y, z) {
        var w :| w in Elems(nodes) && w.domain == z.domain && w != z && !Beats(score, z, w);
        BeatsIsOrder(score, z, w, w);
      }
    }
  }

  lemma FullLength(score: Score, nodes: seq<Node>, out: seq<Node>, m: nat)
    requires DistinctNodes(nodes) && Ranked(score, Elems(nodes), out) && |out| <= m <= |nodes|
    requires |out| == m || Elems(out) == Elems(nodes)
    ensures |out| == m && |Elems(nodes)| == |nodes|
  {
    RankedNoRepeats(score, Elems(nodes), out);
    SizeNoRepeats(out);
    SizeNoRepeats(nodes);
  }

  lemma PickedBeyondSize(score: Score, nodes: set<Node>, n: nat, m: nat)
    requires m == n || m == |nodes| <= n
    ensures Picked(score, nodes, n) == Picked(score, nodes, m)
  {
    forall y | y in nodes && m < n ensures |Ahead(score, nodes, y)| < m {
      BeatsIsOrder(score, y, y, y);
      CardinalityOfSubset(Ahead(score, nodes, y) + {y}, nodes);
    }
  }

  // ---- what the ranking promises about picks ----

  /** out is what PickFromNodesByDomain returns. */
  ghost predicate IsPick(score: Score, nodes: set<Node>, n: nat, out: seq<Node>) {
    Ranked(score, nodes, out) && |out| == Least(n, |nodes|) && Elems(out) == Picked(score, nodes, n)
  }

  /** Two picks, before and after x joins: all of the new one but x was picked before, and at most
      one of the old one is displaced. */
  lemma AtMostOneDisplaced(score: Score, nodes: set<Node>, x: Node, n: nat, before: seq<Node>, after: seq<Node>)
    requires DistinctIDs(nodes + {x}) && x !in nodes
    requires IsPick(score, nodes, n, before) && IsPick(score, nodes + {x}, n, after)
    ensures Elems(after) <= Elems(before) + {x}
    ensures |Elems(before) - Elems(after)| <= 1
    ensures x !in after ==> Elems(after) == Elems(before)
  {
    AddingOneNode(score, nodes, x, n);
    RankedNoRepeats(score, nodes, before);
    RankedNoRepeats(score, nodes + {x}, after);
    SizeNoRepeats(before);
    SizeNoRepeats(after);
    assert x !in Elems(before);
    OneGone(Elems(before), Elems(after), x);
  }

  lemma OneGone(b: set<Node>, a: set<Node>, x: Node)
    requires x !in b && a <= b + {x} && |b| <= |a|
    ensures |b - a| <= 1 && (x !in a ==> a == b)
  {
    assert b == (a - {x}) + (b - a);
    if x !in a { assert a - {x} == a; }
  }

  lemma HeadExists(score: Score, nodes: set<Node>, y: Node) returns (h: Node)
    requires DistinctIDs(nodes) && y in nodes
    ensures h in nodes && h.domain == y.domain && IsHead(score, nodes, h)
    decreases |set z | z in nodes && Beats(score, z, y)|
  {
    if IsHead(score, nodes, y) { return y; }
    var z :| z in nodes && z.domain == y.domain && z != y && !Beats(score, y, z);
    BeatsIsOrder(score, y, z, z);
    var fewer, more := set w | w in nodes && Beats(score, w, z), set w | w in nodes && Beats(score, w, y);
    forall w | w in fewer ensures w in more - {z} { BeatsIsOrder(score, w, z, y); BeatsIsOrder(score, z, z, z); }
    CardinalityOfSubset(fewer, more - {z});
    h := HeadExists(score, nodes, z);
  }

  /** A domain is used twice only once every domain of the cluster is represented. */
  lemma DomainsSpread(score: Score, nodes: set<Node>, out: seq<Node>, i: nat, j: nat, y: Node)
    requires DistinctIDs(nodes) && Ranked(score, nodes, out) && y in nodes
    requires i < j < |out| && out[i].domain == out[j].domain
    ensures exists k :: 0 <= k < j && out[k].domain == y.domain
  {
    RankedNoRepeats(score, nodes, out);
    assert out[..j][i] in Elems(out[..j]);
    BeatsIsOrder(score, out[i], out[j], out[j]);
    assert !IsHead(score, nodes, out[j]);
    var h := HeadExists(score, nodes, y);
    assert h in Elems(out[..j]);
    var k :| 0 <= k < j && out[..j][k] == h;
    assert out[k].domain == y.domain;
  }
}
