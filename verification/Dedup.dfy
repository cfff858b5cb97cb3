// Transitive clustering of results by title similarity.
module Dedup {
  import opened Seqs

  datatype Item = Item(title: string, url: string, source: string)
  datatype Alternative = Alternative(url: string, source: string, similarity: real)
  datatype Deduplicated = Deduplicated(primary: Item, alternatives: seq<Alternative>)

  /** One dictionary value: clusters are compared by identity, so they are objects. */
  class Cluster {
    const members: set<nat>

    constructor (members: set<nat>)
      ensures this.members == members
    {
      this.members := members;
    }
  }

  // ---- Specification: connected components of the similarity graph ----

  type Edge = (nat, nat) -> bool

  /** Similarity is evaluated once per pair, earlier item first. */
  predicate Linked(edge: Edge, i: nat, j: nat) {
    (i < j && edge(i, j)) || (j < i && edge(j, i))
  }

  predicate IsChain(edge: Edge, n: nat, path: seq<nat>) {
    && |path| > 0
    && (forall k | 0 <= k < |path| :: path[k] < n)
    && forall k | 0 < k < |path| :: Linked(edge, path[k - 1], path[k])
  }

  predicate Chains(edge: Edge, n: nat, path: seq<nat>, i: nat, j: nat) {
    IsChain(edge, n, path) && path[0] == i && path[|path| - 1] == j
  }

  /** A chain of similar pairs joins i and j. */
  ghost predicate Joined(edge: Edge, n: nat, i: nat, j: nat) {
    exists path :: Chains(edge, n, path, i, j)
  }

  lemma JoinedReflexive(edge: Edge, n: nat, i: nat)
    requires i < n
    ensures Joined(edge, n, i, i)
  {
    assert Chains(edge, n, [i], i, i);
  }

  lemma JoinedTransitive(edge: Edge, n: nat, i: nat, j: nat, k: nat)
    requires Joined(edge, n, i, j) && Joined(edge, n, j, k)
    ensures Joined(edge, n, i, k)
  {
    var p :| Chains(edge, n, p, i, j);
    var q :| Chains(edge, n, q, j, k);
    var r := p + q[1..];
    forall m | 0 < m < |r| ensures Linked(edge, r[m - 1], r[m]) {
      if m >= |p| {
        assert r[m] == q[m - |p| + 1] && r[m - 1] == q[m - |p|];
      }
    }
    assert Chains(edge, n, r, i, k);
  }

  lemma JoinedSymmetric(edge: Edge, n: nat, i: nat, j: nat)
    requires Joined(edge, n, i, j)
    ensures Joined(edge, n, j, i)
  {
    var p :| Chains(edge, n, p, i, j);
    var r := seq(|p|, k requires 0 <= k < |p| => p[|p| - 1 - k]);
    forall m | 0 < m < |r| ensures Linked(edge, r[m - 1], r[m]) {
      assert Linked(edge, p[|p| - 1 - m], p[|p| - m]);
    }
    assert Chains(edge, n, r, j, i);
  }

  lemma LinkedJoined(edge: Edge, n: nat, i: nat, j: nat)
    requires i < n && j < n && Linked(edge, i, j)
    ensures Joined(edge, n, i, j)
  {
    assert Chains(edge, n, [i, j], i, j);
  }

  /** A partition closed under similar pairs is closed under chains. */
  lemma {:induction false} ClosedUnderChains(edge: Edge, n: nat, part: seq<set<nat>>, path: seq<nat>)
    requires |part| == n && IsChain(edge, n, path)
    requires forall i, j | 0 <= i < n && 0 <= j < n && Linked(edge, i, j) :: part[i] == part[j]
    ensures part[path[0]] == part[path[|path| - 1]]
  {
    if |path| > 1 {
      ClosedUnderChains(edge, n, part, path[..|path| - 1]);
      assert Linked(edge, path[|path| - 2], path[|path| - 1]);
    }
  }

  // ---- The merge loop ----

  /** Each index is in its own cluster, and two indices share a cluster object exactly when each lists the other. */
  ghost predicate IsPartition(clusters: array<Cluster>)
    reads clusters, clusters[..]
  {
    && (forall i | 0 <= i < clusters.Length :: i in clusters[i].members)
    && (forall i, j | 0 <= i < clusters.Length && j in clusters[i].members ::
        j < clusters.Length && clusters[j] == clusters[i])
  }

  ghost predicate Sound(edge: Edge, clusters: array<Cluster>)
    reads clusters, clusters[..]
  {
    forall i, j | 0 <= i < clusters.Length && j in clusters[i].members :: Joined(edge, clusters.Length, i, j)
  }

  /** Similar pairs that come before (i, j) in loop order already share a cluster. */
  ghost predicate Covered(edge: Edge, clusters: array<Cluster>, i: nat, j: nat)
    reads clusters
  {
    forall a, b | 0 <= a < b < clusters.Length && edge(a, b) && (a < i || (a == i && b < j)) ::
        clusters[a] == clusters[b]
  }

  /** Points every member at the merged cluster, in any order. */
  method Redirect(clusters: array<Cluster>, merged: Cluster)
    requires forall m | m in merged.members :: m < clusters.Length
    modifies clusters
    ensures forall k | 0 <= k < clusters.Length ::
              clusters[k] == if k in merged.members then merged else old(clusters[k])
  {
    var todo := merged.members;
    while todo != {}
      invariant todo <= merged.members
      invariant forall k | 0 <= k < clusters.Length ::
                  clusters[k] == if k in merged.members && k !in todo then merged else old(clusters[k])
    {
      var m :| m in todo;
      clusters[m] := merged;
      todo := todo - {m};
    }
  }

  /** Handles one similar pair: the two clusters become one. */
  method Merge(edge: Edge, clusters: array<Cluster>, i: nat, j: nat)
    requires i < j < clusters.Length && edge(i, j)
    requires IsPartition(clusters) && Sound(edge, clusters)
    modifies clusters
    ensures IsPartition(clusters) && Sound(edge, clusters)
    ensures clusters[i] == clusters[j]
    ensures forall a, b | 0 <= a < clusters.Length && 0 <= b < clusters.Length && old(clusters[a] == clusters[b]) ::
              clusters[a] == clusters[b]
  {
    var ci, cj := clusters[i], clusters[j];
    if ci != cj {
      var merged := new Cluster(ci.members + cj.members);
      MergedJoined(edge, clusters, i, j);
      assert i in merged.members && j in merged.members;
      ghost var before := clusters[..];
      Redirect(clusters, merged);
      forall a, b | 0 <= a < clusters.Length && b in clusters[a].members
        ensures b < clusters.Length && clusters[b] == clusters[a]
      {
        if a !in merged.members {
          assert clusters[a] == before[a] && a in before[a].members && before[b] == before[a];
        }
      }
    }
  }

  lemma MergedJoined(edge: Edge, clusters: array<Cluster>, i: nat, j: nat)
    requires i < j < clusters.Length && edge(i, j)
    requires IsPartition(clusters) && Sound(edge, clusters)
    ensures forall a, b | a in clusters[i].members + clusters[j].members
              && b in clusters[i].members + clusters[j].members ::
              Joined(edge, clusters.Length, a, b)
  {
    var n := clusters.Length;
    LinkedJoined(edge, n, i, j);
    forall a | a in clusters[i].members + clusters[j].members ensures Joined(edge, n, i, a) {
      if a in clusters[j].members {
        JoinedTransitive(edge, n, i, j, a);
      }
    }
    forall a, b | a in clusters[i].members + clusters[j].members && b in clusters[i].members + clusters[j].members
      ensures Joined(edge, n, a, b)
    {
      JoinedSymmetric(edge, n, i, a);
      JoinedTransitive(edge, n, a, i, b);
    }
  }

  /** The nested pair loop. Its final clusters are exactly the connected components. */
  method BuildClusters(edge: Edge, n: nat) returns (clusters: array<Cluster>)
    ensures fresh(clusters) && clusters.Length == n && IsPartition(clusters)
    ensures forall i, j | 0 <= i < n && 0 <= j :: j in clusters[i].members <==> j < n && Joined(edge, n, i, j)
  {
    clusters := Singletons(n);
    forall i | 0 <= i < n ensures Joined(edge, n, i, i) { JoinedReflexive(edge, n, i); }
    for i := 0 to n
      invariant IsPartition(clusters) && Sound(edge, clusters) && Covered(edge, clusters, i, 0)
    {
      for j := i + 1 to n
        invariant IsPartition(clusters) && Sound(edge, clusters) && Covered(edge, clusters, i, j)
      {
        if edge(i, j) {
          Merge(edge, clusters, i, j);
        }
      }
    }
    Complete(edge, clusters);
  }

  method Singletons(n: nat) returns (clusters: array<Cluster>)
    ensures fresh(clusters) && clusters.Length == n
    ensures forall i | 0 <= i < n :: clusters[i].members == {i}
    ensures IsPartition(clusters)
  {
    var zero := new Cluster({});
    clusters := new Cluster[n](_ => zero);
    for i := 0 to n
      invariant forall k | 0 <= k < i :: clusters[k].members == {k}
    {
      clusters[i] := new Cluster({i});
    }
  }

  lemma Complete(edge: Edge, clusters: array<Cluster>)
    requires IsPartition(clusters) && Sound(edge, clusters) && Covered(edge, clusters, clusters.Length, 0)
    ensures forall i, j | 0 <= i < clusters.Length && 0 <= j ::
              j in clusters[i].members <==> j < clusters.Length && Joined(edge, clusters.Length, i, j)
  {
    var n := clusters.Length;
    var part := seq(n, i reads clusters, clusters[..] requires 0 <= i < n => clusters[i].members);
    forall i, j | 0 <= i < n && 0 <= j < n && Joined(edge, n, i, j) ensures j in clusters[i].members {
      var path :| Chains(edge, n, path, i, j);
      ClosedUnderChains(edge, n, part, path);
      assert j in part[j];
    }
  }

  // ---- Output ----

  /** The least index of its component. */
  ghost predicate IsLeast(edge: Edge, n: nat, i: nat) {
    i < n && forall j: nat | j < i :: !Joined(edge, n, i, j)
  }

  predicate Ascending(s: seq<nat>) {
    forall i, j :: 0 <= i < j < |s| ==> s[i] < s[j]
  }

  /** One index per component, the least, in increasing order. */
  ghost predicate IsRepresentatives(edge: Edge, n: nat, reps: seq<nat>) {
    && Ascending(reps)
    && forall i: nat :: i in reps <==> IsLeast(edge, n, i)
  }

  /** Group g lists component g's other indices in increasing order. */
  ghost predicate IsGroups(edge: Edge, n: nat, reps: seq<nat>, others: seq<seq<nat>>) {
    |others| == |reps| && forall g | 0 <= g < |reps| :: IsGroup(edge, n, reps[g], others[g])
  }

  ghost predicate IsGroup(edge: Edge, n: nat, rep: nat, group: seq<nat>) {
    Ascending(group) && forall i: nat :: i in group <==> i < n && i != rep && Joined(edge, n, rep, i)
  }

  lemma LeastIsFirstSeen(edge: Edge, n: nat, clusters: array<Cluster>, seen: set<Cluster>, i: nat)
    requires clusters.Length == n && i < n && IsPartition(clusters)
    requires forall i, j | 0 <= i < n && 0 <= j :: j in clusters[i].members <==> j < n && Joined(edge, n, i, j)
    requires forall c | c in seen :: exists j: nat :: j < i && clusters[j] == c
    requires forall j: nat | j < i :: clusters[j] in seen
    ensures clusters[i] !in seen <==> IsLeast(edge, n, i)
  {
    if clusters[i] in seen {
      var j: nat :| j < i && clusters[j] == clusters[i];
      assert j in clusters[i].members;
    }
    forall j: nat | j < i && Joined(edge, n, i, j) ensures clusters[i] in seen {
      assert j in clusters[i].members && clusters[j] in seen && clusters[j] == clusters[i];
    }
  }

  lemma AscendingAppend(s: seq<nat>, x: nat)
    requires Ascending(s) && forall y | y in s :: y < x
    ensures Ascending(s + [x])
  {
    assert forall i | 0 <= i < |s| :: s[i] in s;
  }

  /** sorted() on a set of indices. */
  method SortedMembers(s: set<nat>, n: nat) returns (r: seq<nat>)
    requires forall x | x in s :: x < n
    ensures Ascending(r) && forall x: nat :: x in r <==> x in s
  {
    r := [];
    for k := 0 to n
      invariant Ascending(r) && forall x: nat :: x in r <==> x in s && x < k
    {
      if k in s {
        AscendingAppend(r, k);
        r := r + [k];
      }
    }
  }

  /** The twin in the router: one item per cluster, kept at its first index. */
  method Representatives(edge: Edge, n: nat) returns (reps: seq<nat>)
    ensures IsRepresentatives(edge, n, reps)
  {
    var clusters := BuildClusters(edge, n);
    var seen: set<Cluster> := {};
    reps := [];
    for i := 0 to n
      invariant Ascending(reps) && forall k: nat :: k in reps <==> k < i && IsLeast(edge, n, k)
      invariant forall c | c in seen :: exists j: nat :: j < i && clusters[j] == c
      invariant forall j: nat | j < i :: clusters[j] in seen
      modifies {}
    {
      LeastIsFirstSeen(edge, n, clusters, seen, i);
      if clusters[i] !in seen {
        AscendingAppend(reps, i);
        seen := seen + {clusters[i]};
        reps := reps + [i];
      }
    }
  }

  /** A new cluster's first index and its other indices, in order. */
  method FirstGroup(edge: Edge, n: nat, cluster: Cluster, i: nat) returns (primary: nat, group: seq<nat>)
    requires IsLeast(edge, n, i) && forall x :: 0 <= x ==> (x in cluster.members <==> x < n && Joined(edge, n, i, x))
    ensures primary == i && IsGroup(edge, n, i, group)
  {
    var indices := SortedMembers(cluster.members, n);
    FirstIsLeast(edge, n, i, indices);
    primary, group := indices[0], indices[1..];
  }

  /** The search service: each new cluster contributes its least index and the others in order. */
  method Groups(edge: Edge, n: nat) returns (reps: seq<nat>, others: seq<seq<nat>>)
    ensures IsRepresentatives(edge, n, reps) && IsGroups(edge, n, reps, others)
  {
    var clusters := BuildClusters(edge, n);
    var seen: set<Cluster> := {};
    reps, others := [], [];
    for i := 0 to n
      invariant Ascending(reps) && forall k: nat :: k in reps <==> k < i && IsLeast(edge, n, k)
      invariant IsGroups(edge, n, reps, others)
      invariant forall c | c in seen :: exists j: nat :: j < i && clusters[j] == c
      invariant forall j: nat | j < i :: clusters[j] in seen
      modifies {}
    {
      LeastIsFirstSeen(edge, n, clusters, seen, i);
      if clusters[i] !in seen {
        AscendingAppend(reps, i);
        seen := seen + {clusters[i]};
        var primary, group := FirstGroup(edge, n, clusters[i], i);
        reps, others := reps + [primary], others + [group];
      }
    }
  }

  lemma FirstIsLeast(edge: Edge, n: nat, i: nat, indices: seq<nat>)
    requires IsLeast(edge, n, i) && Ascending(indices)
    requires forall x: nat :: x in indices <==> x < n && Joined(edge, n, i, x)
    ensures |indices| > 0 && indices[0] == i
    ensures IsGroup(edge, n, i, indices[1..])
  {
    JoinedReflexive(edge, n, i);
    assert i in indices;
    var k :| 0 <= k < |indices| && indices[k] == i;
    var first := indices[0];
    assert first in indices;
    assert k == 0;
    forall x: nat | x in indices && x != i ensures x in indices[1..] {
      var m :| 0 <= m < |indices| && indices[m] == x;
      assert indices[1..][m - 1] == x;
    }
    forall x: nat | x in indices[1..] ensures x in indices && x != i {
      var m :| 0 <= m < |indices| - 1 && indices[1..][m] == x;
      assert indices[m + 1] == x;
    }
  }

  // ---- Conservation, determinism, idempotence ----

  /** Every index has a least index in its component. */
  lemma LeastOf(edge: Edge, n: nat, i: nat) returns (r: nat)
    requires i < n
    ensures IsLeast(edge, n, r) && Joined(edge, n, i, r)
    decreases i
  {
    JoinedReflexive(edge, n, i);
    if IsLeast(edge, n, i) {
      r := i;
    } else {
      var j: nat :| j < i && Joined(edge, n, i, j);
      r := LeastOf(edge, n, j);
      JoinedTransitive(edge, n, i, j, r);
    }
  }

  predicate InGroup(reps: seq<nat>, others: seq<seq<nat>>, g: nat, i: nat)
    requires |others| == |reps|
  {
    g < |reps| && (reps[g] == i || i in others[g])
  }

  /** Conservation: every input index is in exactly one output group, as its primary or as an alternative. */
  lemma GroupsPartition(edge: Edge, n: nat, reps: seq<nat>, others: seq<seq<nat>>, i: nat)
    requires i < n && IsRepresentatives(edge, n, reps) && IsGroups(edge, n, reps, others)
    ensures exists g :: InGroup(reps, others, g, i)
    ensures forall g, h :: InGroup(reps, others, g, i) && InGroup(reps, others, h, i) ==> g == h
  {
    var r := LeastOf(edge, n, i);
    JoinedSymmetric(edge, n, i, r);
    assert r in reps;
    var g :| 0 <= g < |reps| && reps[g] == r;
    assert InGroup(reps, others, g, i);
    forall g: nat, h: nat | InGroup(reps, others, g, i) && InGroup(reps, others, h, i) ensures g == h {
      GroupMember(edge, n, reps, others, g, i);
      GroupMember(edge, n, reps, others, h, i);
      JoinedSymmetric(edge, n, reps[h], i);
      JoinedTransitive(edge, n, reps[g], i, reps[h]);
      JoinedSymmetric(edge, n, reps[g], reps[h]);
    }
  }

  lemma GroupMember(edge: Edge, n: nat, reps: seq<nat>, others: seq<seq<nat>>, g: nat, i: nat)
    requires IsRepresentatives(edge, n, reps) && IsGroups(edge, n, reps, others) && InGroup(reps, others, g, i)
    ensures IsLeast(edge, n, reps[g]) && Joined(edge, n, reps[g], i)
  {
    assert reps[g] in reps;
    JoinedReflexive(edge, n, reps[g]);
  }

  lemma {:induction false} AscendingUnique(s: seq<nat>, t: seq<nat>)
    requires Ascending(s) && Ascending(t) && forall x: nat :: x in s <==> x in t
    ensures s == t
  {
    assert (s == [] || s[0] in s) && (t == [] || t[0] in t);
    if |s| == 0 {
    } else {
      assert s[|s| - 1] in t && t[|t| - 1] in s;
      assert s[|s| - 1] == t[|t| - 1];
      var s', t' := s[..|s| - 1], t[..|t| - 1];
      forall x: nat ensures x in s' <==> x in t' {
        assert x in s' <==> x in s && x != s[|s| - 1];
        assert x in t' <==> x in t && x != t[|t| - 1];
      }
      AscendingUnique(s', t');
      assert s == s[..|s| - 1] + [s[|s| - 1]] && t == t[..|t| - 1] + [t[|t| - 1]];
    }
  }

  /** The clustering determines its output, so the merge order and the two implementations cannot differ. */
  lemma RepresentativesUnique(edge: Edge, n: nat, r1: seq<nat>, r2: seq<nat>)
    requires IsRepresentatives(edge, n, r1) && IsRepresentatives(edge, n, r2)
    ensures r1 == r2
  {
    AscendingUnique(r1, r2);
  }

  function Gather(items: seq<Item>, reps: seq<nat>): (r: seq<Item>)
    requires forall k | 0 <= k < |reps| :: reps[k] < |items|
    ensures |r| == |reps| && forall g :: 0 <= g < |r| ==> r[g] == items[reps[g]]
  {
    seq(|reps|, g requires 0 <= g < |reps| => items[reps[g]])
  }

  function TitleEdge(items: seq<Item>, similarity: (string, string) -> real, threshold: real): Edge {
    (i: nat, j: nat) => i < |items| && j < |items| && similarity(items[i].title, items[j].title) >= threshold
  }

  /** out holds the first item of every cluster of similar titles, in input order. */
  ghost predicate IsDedup(items: seq<Item>, similarity: (string, string) -> real, threshold: real, out: seq<Item>) {
    exists reps: seq<nat> ::
      && IsRepresentatives(TitleEdge(items, similarity, threshold), |items|, reps)
      && (forall k | 0 <= k < |reps| :: reps[k] < |items|)
      && out == Gather(items, reps)
  }

  /** Among representatives no two titles are similar, in the order they are compared. */
  lemma RepresentativesUnlinked(edge: Edge, n: nat, reps: seq<nat>, a: nat, b: nat)
    requires IsRepresentatives(edge, n, reps) && a < b < |reps|
    ensures !edge(reps[a], reps[b])
  {
    assert reps[a] in reps && reps[b] in reps;
    if edge(reps[a], reps[b]) {
      LinkedJoined(edge, n, reps[b], reps[a]);
    }
  }

  /** Two items are linked exactly when the earlier title compared with the later one reaches the threshold; reaching it
      exactly is enough. */
  lemma TitlesLinkedIff(items: seq<Item>, similarity: (string, string) -> real, threshold: real, i: nat, j: nat)
    requires i < j < |items|
    ensures Linked(TitleEdge(items, similarity, threshold), i, j)
            <==> similarity(items[i].title, items[j].title) >= threshold
    ensures Linked(TitleEdge(items, similarity, threshold), j, i)
            <==> similarity(items[i].title, items[j].title) >= threshold
  {
  }

  /** No kept title, compared with a later kept one, reaches the threshold. */
  lemma KeptAreUnlike(items: seq<Item>, similarity: (string, string) -> real, threshold: real, out: seq<Item>, a: nat,
      b: nat)
    requires IsDedup(items, similarity, threshold, out) && a < b < |out|
    ensures similarity(out[a].title, out[b].title) < threshold
  {
    var edge := TitleEdge(items, similarity, threshold);
    var reps: seq<nat> :| IsRepresentatives(edge, |items|, reps) && (forall k | 0 <= k < |reps| :: reps[k] < |items|)
        && out == Gather(items, reps);
    RepresentativesUnlinked(edge, |items|, reps, a, b);
  }

  /** An item that reaches the threshold with an earlier one is dropped: whatever is kept, its position is not. */
  lemma SimilarIsDropped(items: seq<Item>, similarity: (string, string) -> real, threshold: real, reps: seq<nat>,
      i: nat, j: nat)
    requires IsRepresentatives(TitleEdge(items, similarity, threshold), |items|, reps) && i < j < |items|
    requires similarity(items[i].title, items[j].title) >= threshold
    ensures j !in reps
  {
    LinkedJoined(TitleEdge(items, similarity, threshold), |items|, j, i);
  }

  /** Two items: one is kept when they reach the threshold, both when they do not. */
  lemma PairIff(x: Item, y: Item, similarity: (string, string) -> real, threshold: real, out: seq<Item>)
    requires IsDedup([x, y], similarity, threshold, out)
    ensures out == if similarity(x.title, y.title) >= threshold then [x] else [x, y]
  {
    var items := [x, y];
    var edge := TitleEdge(items, similarity, threshold);
    var reps: seq<nat> :| IsRepresentatives(edge, |items|, reps) && (forall k | 0 <= k < |reps| :: reps[k] < |items|)
        && out == Gather(items, reps);
    PairReps(edge, reps);
    PairGathered(x, y);
  }

  lemma PairGathered(x: Item, y: Item)
    ensures Gather([x, y], [0]) == [x] && Gather([x, y], [0, 1]) == [x, y]
  {
  }

  lemma PairReps(edge: Edge, reps: seq<nat>)
    requires IsRepresentatives(edge, 2, reps)
    ensures reps == if edge(0, 1) then [0] else [0, 1]
  {
    assert IsLeast(edge, 2, 0);
    if edge(0, 1) {
      LinkedJoined(edge, 2, 1, 0);
      AscendingUnique(reps, [0]);
    } else {
      if Joined(edge, 2, 1, 0) { NoLinksNoJoins(edge, 2, 1, 0); }
      assert IsLeast(edge, 2, 1);
      AscendingUnique(reps, [0, 1]);
    }
  }

  lemma NoLinksNoJoins(edge: Edge, n: nat, i: nat, j: nat)
    requires forall a: nat, b: nat | a < b < n :: !edge(a, b)
    requires Joined(edge, n, i, j)
    ensures i == j
  {
    var path :| Chains(edge, n, path, i, j);
    assert |path| > 1 ==> Linked(edge, path[0], path[1]);
  }

  /** Deduplicating an already deduplicated list at the same threshold returns it unchanged. */
  lemma DedupIdempotent(items: seq<Item>, similarity: (string, string) -> real, threshold: real, out: seq<Item>,
      again: seq<Item>)
    requires IsDedup(items, similarity, threshold, out) && IsDedup(out, similarity, threshold, again)
    ensures again == out
  {
    var edge, edge' := TitleEdge(items, similarity, threshold), TitleEdge(out, similarity, threshold);
    var reps: seq<nat> :| IsRepresentatives(edge, |items|, reps) && (forall k | 0 <= k < |reps| :: reps[k] < |items|)
        && out == Gather(items, reps);
    var reps': seq<nat> :| IsRepresentatives(edge', |out|, reps') && (forall k | 0 <= k < |reps'| :: reps'[k] < |out|)
        && again == Gather(out, reps');
    forall a: nat, b: nat | a < b < |out| ensures !edge'(a, b) {
      RepresentativesUnlinked(edge, |items|, reps, a, b);
      assert reps[a] in reps && reps[b] in reps;
    }
    forall i: nat ensures i in reps' <==> i in Range(|out|) {
      if i < |out| {
        forall j: nat | j < i ensures !Joined(edge', |out|, i, j) {
          if Joined(edge', |out|, i, j) { NoLinksNoJoins(edge', |out|, i, j); }
        }
      }
    }
    AscendingUnique(reps', Range(|out|));
  }

  /** The router's _deduplicate_items_by_title. */
  method DeduplicateByTitle(items: seq<Item>, similarity: (string, string) -> real, threshold: real)
    returns (out: seq<Item>)
    ensures IsDedup(items, similarity, threshold, out)
  {
    var reps := Representatives(TitleEdge(items, similarity, threshold), |items|);
    assert forall k | 0 <= k < |reps| :: reps[k] in reps;
    out := Gather(items, reps);
  }

  function Alternates(items: seq<Item>, similarity: (string, string) -> real, primary: Item,
      others: seq<nat>): (r: seq<Alternative>)
    requires forall k | 0 <= k < |others| :: others[k] < |items|
    ensures |r| == |others|
    ensures forall m :: 0 <= m < |r| ==>
              r[m] == Alternative(items[others[m]].url, items[others[m]].source,
                  similarity(primary.title, items[others[m]].title))
  {
    seq(|others|, m requires 0 <= m < |others| =>
      Alternative(items[others[m]].url, items[others[m]].source, similarity(primary.title, items[others[m]].title)))
  }

  ghost predicate IsConsolidation(results: seq<Item>, similarity: (string, string) -> real, reps: seq<nat>,
      others: seq<seq<nat>>,
                                  out: seq<Deduplicated>) {
    && |out| == |reps| == |others|
    && forall g | 0 <= g < |out| ::
         && reps[g] < |results| && (forall k | 0 <= k < |others[g]| :: others[g][k] < |results|)
         && out[g] == Deduplicated(results[reps[g]], Alternates(results, similarity, results[reps[g]], others[g]))
  }

  /** One output item per component: its first item, with the component's other items as alternative sources, in
      order. */
  ghost predicate IsConsolidated(results: seq<Item>, similarity: (string, string) -> real, threshold: real,
      out: seq<Deduplicated>) {
    var edge := TitleEdge(results, similarity, threshold);
    exists reps, others :: IsRepresentatives(edge, |results|, reps) && IsGroups(edge, |results|, reps, others)
                           && IsConsolidation(results, similarity, reps, others, out)
  }

  /** The search service's _deduplicate_results. */
  method DeduplicateResults(results: seq<Item>, similarity: (string, string) -> real, threshold: real)
    returns (out: seq<Deduplicated>)
    ensures IsConsolidated(results, similarity, threshold, out)
  {
    var reps, others := Groups(TitleEdge(results, similarity, threshold), |results|);
    out := [];
    for g := 0 to |reps|
      invariant |out| == g
      invariant forall h | 0 <= h < g ::
                  && reps[h] < |results| && (forall k | 0 <= k < |others[h]| :: others[h][k] < |results|)
                  && out[h] == Deduplicated(results[reps[h]],
                      Alternates(results, similarity, results[reps[h]], others[h]))
    {
      assert reps[g] in reps && forall k | 0 <= k < |others[g]| :: others[g][k] in others[g];
      var primary := results[reps[g]];
      out := out + [Deduplicated(primary, Alternates(results, similarity, primary, others[g]))];
    }
    assert IsConsolidation(results, similarity, reps, others, out);
  }

  /** On one similarity the two implementations keep the same items. */
  lemma SamePrimaries(results: seq<Item>, similarity: (string, string) -> real, threshold: real,
                      out: seq<Deduplicated>, kept: seq<Item>)
    requires IsConsolidated(results, similarity, threshold, out) && IsDedup(results, similarity, threshold, kept)
    ensures |kept| == |out| && forall g | 0 <= g < |out| :: kept[g] == out[g].primary
  {
    var edge := TitleEdge(results, similarity, threshold);
    var reps, others :| IsRepresentatives(edge, |results|, reps) && IsGroups(edge, |results|, reps, others)
                        && IsConsolidation(results, similarity, reps, others, out);
    var r2: seq<nat> :| IsRepresentatives(edge, |results|, r2) && (forall k | 0 <= k < |r2| :: r2[k] < |results|)
                        && kept == Gather(results, r2);
    RepresentativesUnique(edge, |results|, reps, r2);
  }
}
