/** Replica placement: filter, score, round, sort, take the first n. */
module Scheduler {
  import opened Sequences
  import opened Records

  // ------------------------------------------------------------------ scoring

  /** The weighted score before rounding, over exact reals. */
  function RawScore(node: NodeRecord): real {
    node.upload / 1000.0 * 30.0
    + (if node.allocatedSpace > 0
       then (1.0 - node.usedSpace as real / node.allocatedSpace as real) * 25.0
       else 0.0)
    + node.download / 1000.0 * 20.0
    + node.onlineRate * 15.0
    + (100.0 - node.cpu - node.memory) / 100.0 * 10.0
  }

  /** math.Round: nearest integer, halves away from zero. */
  function Round(x: real): int {
    if x >= 0.0 then (x + 0.5).Floor else -((-x + 0.5).Floor)
  }

  function ScoreNode(node: NodeRecord): real {
    Round(RawScore(node) * 100.0) as real / 100.0
  }

  /** A factor within its nominal range: bandwidths up to 1000 Mbit/s, a rate and percentages. */
  predicate Nominal(node: NodeRecord) {
    && 0.0 <= node.upload <= 1000.0 && 0.0 <= node.download <= 1000.0 && 0.0 <= node.onlineRate <= 1.0
    && 0.0 <= node.cpu <= 100.0 && 0.0 <= node.memory <= 100.0
    && 0 <= node.usedSpace <= node.allocatedSpace
  }

  /** The share of its allocation a node still has free. */
  function FreeShare(node: NodeRecord): real {
    if node.allocatedSpace > 0 then 1.0 - node.usedSpace as real / node.allocatedSpace as real else 0.0
  }

  /** What each factor contributes: 30, 25, 20, 15 and 10 points out of 100 for upload, free space,
      download, online rate and load. Load alone can cost a node up to 10 points. */
  lemma ScoreWeights(x: NodeRecord, y: NodeRecord)
    ensures RawScore(x) - RawScore(y)
            == 30.0 * (x.upload - y.upload) / 1000.0 + 25.0 * (FreeShare(x) - FreeShare(y))
               + 20.0 * (x.download - y.download) / 1000.0 + 15.0 * (x.onlineRate - y.onlineRate)
               - 10.0 * (x.cpu + x.memory - y.cpu - y.memory) / 100.0
    ensures Nominal(x) ==> -10.0 <= RawScore(x) <= 100.0
    ensures Nominal(x) && x.allocatedSpace > 0 ==>
              (RawScore(x) == 100.0 <==>
                 x.upload == 1000.0 && x.download == 1000.0 && x.onlineRate == 1.0 && x.cpu == x.memory == 0.0 && x.usedSpace == 0)
  {
    FreeShareBounds(x);
  }

  lemma FreeShareBounds(x: NodeRecord)
    ensures 0 <= x.usedSpace <= x.allocatedSpace ==> 0.0 <= FreeShare(x) <= 1.0 && (x.allocatedSpace > 0 ==> (FreeShare(x) == 1.0 <==> x.usedSpace == 0))
  {
    if 0 <= x.usedSpace <= x.allocatedSpace && x.allocatedSpace > 0 {
      var u, a := x.usedSpace as real, x.allocatedSpace as real;
      var q := u / a;
      assert q * a == u;
    }
  }

  /** A score is a whole number of hundredths, at most half a hundredth away from the exact value, and away
      from zero when it is exactly half-way. */
  lemma RoundedScore(x: NodeRecord)
    ensures -0.005 <= ScoreNode(x) - RawScore(x) <= 0.005
    ensures (ScoreNode(x) * 100.0).Floor as real == ScoreNode(x) * 100.0
    ensures ScoreNode(x) - RawScore(x) == 0.005 ==> RawScore(x) > 0.0
    ensures ScoreNode(x) - RawScore(x) == -0.005 ==> RawScore(x) < 0.0
  {
    var p := RawScore(x) * 100.0;
    var n := Round(p);
    assert ScoreNode(x) == n as real / 100.0;
    hide RawScore;
    assert -0.5 <= n as real - p <= 0.5;
  }

  /** Rounding to two decimals can hide a difference of less than one hundredth, never more. */
  lemma RoundingGap(x: NodeRecord, y: NodeRecord)
    requires ScoreNode(x) >= ScoreNode(y)
    ensures RawScore(y) - RawScore(x) < 0.01
  {
    var p, q := RawScore(x) * 100.0, RawScore(y) * 100.0;
    assert Round(p) >= Round(q);
    assert q - p < 1.0;
  }

  // ---------------------------------------------------------------- selection

  predicate Eligible(node: NodeRecord, exclude: set<string>) {
    node.status == Online && node.storagePath != "" && node.nodeID !in exclude
  }

  ghost predicate Keyed(nodes: map<string, NodeRecord>) {
    forall k :: k in nodes ==> nodes[k].nodeID == k
  }

  function EligibleIDs(nodes: map<string, NodeRecord>, exclude: set<string>): set<string> {
    set k | k in nodes && Eligible(nodes[k], exclude)
  }

  function IDs(sel: seq<NodeRecord>): set<string> {
    set x | x in sel :: x.nodeID
  }

  function NodeIDs(sel: seq<NodeRecord>): (ids: seq<string>)
    ensures |ids| == |sel| && forall i :: 0 <= i < |sel| ==> ids[i] == sel[i].nodeID
  {
    if sel == [] then [] else [sel[0].nodeID] + NodeIDs(sel[1..])
  }

  ghost predicate DistinctNodes(sel: seq<NodeRecord>) {
    forall i, j :: 0 <= i < j < |sel| ==> sel[i].nodeID != sel[j].nodeID
  }

  ghost predicate Descending(sel: seq<NodeRecord>) {
    forall i, j :: 0 <= i < j < |sel| ==> ScoreNode(sel[i]) >= ScoreNode(sel[j])
  }

  /** What SelectNodes may return, whatever the map iteration order and the order of ties. */
  ghost predicate IsSelection(nodes: map<string, NodeRecord>, n: int, exclude: set<string>, sel: seq<NodeRecord>) {
    var eligible := EligibleIDs(nodes, exclude);
    && DistinctNodes(sel)
    && (forall x :: x in sel ==> x.nodeID in eligible && nodes[x.nodeID] == x)
    && |sel| == (if |eligible| < n then |eligible| else if n < 0 then 0 else n)
    && (n <= |eligible| ==>
          Descending(sel)
          && forall x, k :: x in sel && k in eligible && k !in IDs(sel) ==> ScoreNode(x) >= ScoreNode(nodes[k]))
  }

  lemma {:induction false} IDsCount(sel: seq<NodeRecord>)
    requires DistinctNodes(sel)
    ensures |IDs(sel)| == |sel|
  {
    if sel != [] {
      IDsCount(sel[1..]);
      assert IDs(sel) == {sel[0].nodeID} + IDs(sel[1..]);
      assert sel[0].nodeID !in IDs(sel[1..]);
    }
  }

  // --------------------------------------------------------------- the method

  datatype NodeScore = NodeScore(node: NodeRecord, score: real)

  function Nodes(scores: seq<NodeScore>): (nodes: seq<NodeRecord>)
    ensures |nodes| == |scores| && forall i :: 0 <= i < |nodes| ==> nodes[i] == scores[i].node
  {
    if scores == [] then [] else [scores[0].node] + Nodes(scores[1..])
  }

  ghost predicate DistinctScores(scores: seq<NodeScore>) {
    forall i, j :: 0 <= i < j < |scores| ==> scores[i].node.nodeID != scores[j].node.nodeID
  }

  predicate NoneAbove(x: NodeScore, s: seq<NodeScore>) {
    forall j :: 0 <= j < |s| ==> x.score >= s[j].score
  }

  ghost predicate DescendingScores(s: seq<NodeScore>) {
    forall i, j :: 0 <= i < j < |s| ==> s[i].score >= s[j].score
  }

  lemma {:induction false} MaximumExists(s: seq<NodeScore>)
    requires s != []
    ensures exists i :: 0 <= i < |s| && NoneAbove(s[i], s)
  {
    if |s| == 1 {
      assert NoneAbove(s[0], s);
    } else {
      var t := s[..|s| - 1];
      MaximumExists(t);
      var i :| 0 <= i < |t| && NoneAbove(t[i], t);
      var k := if s[|s| - 1].score > s[i].score then |s| - 1 else i;
      forall j | 0 <= j < |s| ensures s[k].score >= s[j].score {
        if j < |t| { assert t[j] == s[j]; }
      }
      assert NoneAbove(s[k], s);
    }
  }

  lemma RemoveAt<T>(s: seq<T>, i: nat)
    requires i < |s|
    ensures multiset(s) == multiset(s[..i] + s[i + 1..]) + multiset{s[i]}
  {
    assert s == s[..i] + [s[i]] + s[i + 1..];
  }

  /** sort.Slice with the comparison of SelectNodes. It is not stable: any remaining node of
      maximal score may come next. */
  method SortByScore(scores: seq<NodeScore>) returns (sorted: seq<NodeScore>)
    ensures multiset(sorted) == multiset(scores)
    ensures DescendingScores(sorted)
  {
    sorted := [];
    var rest := scores;
    while rest != []
      invariant multiset(sorted) + multiset(rest) == multiset(scores)
      invariant DescendingScores(sorted)
      invariant forall i :: 0 <= i < |sorted| ==> NoneAbove(sorted[i], rest)
      decreases |rest|
    {
      MaximumExists(rest);
      var i :| 0 <= i < |rest| && NoneAbove(rest[i], rest);
      RemoveAt(rest, i);
      sorted, rest := sorted + [rest[i]], rest[..i] + rest[i + 1..];
    }
  }

  lemma Twice<T>(s: seq<T>, i: nat, j: nat)
    requires i < j < |s| && s[i] == s[j]
    ensures multiset(s)[s[i]] >= 2
  {
    RemoveAt(s, j);
    assert (s[..j] + s[j + 1..])[i] == s[i];
  }

  lemma {:induction false} OccursOnce(a: seq<NodeScore>, x: NodeScore)
    requires DistinctScores(a)
    ensures multiset(a)[x] <= 1
  {
    if a != [] {
      OccursOnce(a[1..], x);
      assert a == [a[0]] + a[1..];
      if a[0] == x { assert x !in a[1..]; }
    }
  }

  /** A rearrangement of distinctly named nodes is distinctly named. */
  lemma RearrangedDistinct(a: seq<NodeScore>, b: seq<NodeScore>)
    requires DistinctScores(a) && multiset(a) == multiset(b)
    ensures DistinctScores(b) && |a| == |b|
    ensures forall x :: x in a <==> x in b
  {
    assert |a| == |multiset(a)| == |multiset(b)| == |b|;
    forall x ensures x in a <==> x in b { assert x in multiset(a) <==> x in multiset(b); }
    forall i, j | 0 <= i < j < |b| ensures b[i].node.nodeID != b[j].node.nodeID {
      if b[i].node.nodeID == b[j].node.nodeID {
        assert b[i] in a && b[j] in a;
        assert b[i] == b[j];
        Twice(b, i, j);
        OccursOnce(a, b[i]);
      }
    }
  }

  /** The scored nodes are exactly the eligible ones. */
  ghost predicate Scored(nodes: map<string, NodeRecord>, ids: set<string>, scores: seq<NodeScore>) {
    && DistinctScores(scores)
    && (forall s :: s in scores ==>
          s.node.nodeID in ids && s.node.nodeID in nodes && nodes[s.node.nodeID] == s.node
          && s.score == ScoreNode(s.node))
    && (forall k :: k in ids ==> exists s :: s in scores && s.node.nodeID == k)
  }

  /** Nothing left behind by the first m of the sorted scores scores higher. */
  lemma LeftBehind(nodes: map<string, NodeRecord>, ids: set<string>, scores: seq<NodeScore>, m: nat, a: nat, k: string)
    requires Scored(nodes, ids, scores) && DescendingScores(scores)
    requires a < m <= |scores| && k in ids
    requires forall j :: 0 <= j < m ==> scores[j].node.nodeID != k
    ensures k in nodes && ScoreNode(scores[a].node) >= ScoreNode(nodes[k])
  {
    hide ScoreNode;
    var s :| s in scores && s.node.nodeID == k;
    var b :| 0 <= b < |scores| && scores[b] == s;
    assert scores[a] in scores;
  }

  lemma TopDescending(nodes: map<string, NodeRecord>, ids: set<string>, scores: seq<NodeScore>, m: nat)
    requires Scored(nodes, ids, scores) && DescendingScores(scores) && m <= |scores|
    ensures Descending(Nodes(scores[..m]))
  {
    var sel := Nodes(scores[..m]);
    forall i, j | 0 <= i < j < |sel| ensures ScoreNode(sel[i]) >= ScoreNode(sel[j]) {
      assert scores[i] in scores && scores[j] in scores;
    }
  }

  /** The first n of the sorted scores are a selection. */
  lemma TopIsSelection(nodes: map<string, NodeRecord>, n: int, exclude: set<string>, scores: seq<NodeScore>)
    requires Scored(nodes, EligibleIDs(nodes, exclude), scores) && DescendingScores(scores)
    requires |scores| == |EligibleIDs(nodes, exclude)| && n <= |scores|
    ensures IsSelection(nodes, n, exclude, Nodes(scores[..if n < 0 then 0 else n]))
  {
    hide ScoreNode;
    var ids := EligibleIDs(nodes, exclude);
    var m := if n < 0 then 0 else n;
    var sel := Nodes(scores[..m]);
    assert forall i :: 0 <= i < m ==> scores[i] in scores;
    TopDescending(nodes, ids, scores, m);
    NothingBetterLeft(nodes, ids, scores, m);
  }

  lemma NothingBetterLeft(nodes: map<string, NodeRecord>, ids: set<string>, scores: seq<NodeScore>, m: nat)
    requires Scored(nodes, ids, scores) && DescendingScores(scores) && m <= |scores|
    ensures var sel := Nodes(scores[..m]);
            forall x, k :: x in sel && k in ids && k !in IDs(sel) ==> k in nodes && ScoreNode(x) >= ScoreNode(nodes[k])
  {
    hide ScoreNode;
    var sel := Nodes(scores[..m]);
    forall x, k | x in sel && k in ids && k !in IDs(sel) ensures k in nodes && ScoreNode(x) >= ScoreNode(nodes[k]) {
      var a :| 0 <= a < |sel| && sel[a] == x;
      forall j | 0 <= j < m ensures scores[j].node.nodeID != k { assert sel[j] in sel; }
      LeftBehind(nodes, ids, scores, m, a, k);
    }
  }

  lemma AppendNode(sel: seq<NodeRecord>, x: NodeRecord)
    requires DistinctNodes(sel) && x.nodeID !in IDs(sel)
    ensures DistinctNodes(sel + [x]) && IDs(sel + [x]) == IDs(sel) + {x.nodeID}
  {
    var sel' := sel + [x];
    assert forall i :: 0 <= i < |sel| ==> sel[i].nodeID in IDs(sel);
    assert sel'[|sel|] == x && forall i :: 0 <= i < |sel| ==> sel'[i] == sel[i];
    forall y | y in sel' ensures y in sel || y == x {}
    forall id | id in IDs(sel) + {x.nodeID} ensures id in IDs(sel') {
      if id != x.nodeID {
        var y :| y in sel && y.nodeID == id;
        assert y in sel';
      }
    }
  }

  lemma EligibleStep(nodes: map<string, NodeRecord>, exclude: set<string>, left: set<string>, k: string)
    requires k in left && k in nodes
    ensures EligibleIDs(nodes, exclude) - (left - {k})
            == EligibleIDs(nodes, exclude) - left + if Eligible(nodes[k], exclude) then {k} else {}
  {
  }

  /** The filtering loop, in whatever order the map is iterated. */
  method EligibleNodes(nodes: map<string, NodeRecord>, exclude: set<string>) returns (available: seq<NodeRecord>)
    requires Keyed(nodes)
    ensures DistinctNodes(available) && IDs(available) == EligibleIDs(nodes, exclude)
    ensures forall x :: x in available ==> x.nodeID in nodes && nodes[x.nodeID] == x
  {
    hide DistinctNodes, IDs, EligibleIDs, Eligible;
    available := [];
    var left := nodes.Keys;
    StartEmpty(nodes, exclude);
    while left != {}
      invariant left <= nodes.Keys
      invariant DistinctNodes(available)
      invariant IDs(available) == EligibleIDs(nodes, exclude) - left
      invariant forall x :: x in available ==> x.nodeID in nodes && nodes[x.nodeID] == x
      decreases |left|
    {
      var k :| k in left;
      EligibleStep(nodes, exclude, left, k);
      if Eligible(nodes[k], exclude) {
        AppendNode(available, nodes[k]);
        available := available + [nodes[k]];
      }
      left := left - {k};
    }
  }

  lemma StartEmpty(nodes: map<string, NodeRecord>, exclude: set<string>)
    ensures DistinctNodes([]) && IDs([]) == EligibleIDs(nodes, exclude) - nodes.Keys
  {
  }

  method ScoreAll(nodes: map<string, NodeRecord>, ids: set<string>, available: seq<NodeRecord>)
    returns (scores: seq<NodeScore>)
    requires DistinctNodes(available) && IDs(available) == ids
    requires forall x :: x in available ==> x.nodeID in nodes && nodes[x.nodeID] == x
    ensures Scored(nodes, ids, scores) && |scores| == |available|
  {
    scores := [];
    for i := 0 to |available|
      invariant |scores| == i
      invariant forall j :: 0 <= j < i ==> scores[j] == NodeScore(available[j], ScoreNode(available[j]))
    {
      scores := scores + [NodeScore(available[i], ScoreNode(available[i]))];
    }
    forall k | k in ids ensures exists s :: s in scores && s.node.nodeID == k {
      var j :| 0 <= j < |available| && available[j].nodeID == k;
      assert scores[j] in scores;
    }
  }

  lemma AllAvailable(nodes: map<string, NodeRecord>, n: int, exclude: set<string>, available: seq<NodeRecord>)
    requires DistinctNodes(available) && IDs(available) == EligibleIDs(nodes, exclude)
    requires forall x :: x in available ==> x.nodeID in nodes && nodes[x.nodeID] == x
    requires |available| < n
    ensures IsSelection(nodes, n, exclude, available)
  {
    IDsCount(available);
  }

  /** Every element of `excludeNodes` ends up in the exclusion map. */
  method ExcludeMap(excludeNodes: seq<string>) returns (exclude: set<string>)
    ensures exclude == Elements(excludeNodes)
  {
    exclude := {};
    for i := 0 to |excludeNodes|
      invariant exclude == Elements(excludeNodes[..i])
    {
      assert excludeNodes[..i + 1] == excludeNodes[..i] + [excludeNodes[i]];
      exclude := exclude + {excludeNodes[i]};
    }
    assert excludeNodes[..|excludeNodes|] == excludeNodes;
  }

  method SelectNodes(nodes: map<string, NodeRecord>, n: int, excludeNodes: seq<string>)
    returns (selected: seq<NodeRecord>)
    requires Keyed(nodes)
    ensures IsSelection(nodes, n, Elements(excludeNodes), selected)
  {
    var exclude := ExcludeMap(excludeNodes);
    var available := EligibleNodes(nodes, exclude);
    if |available| < n {
      AllAvailable(nodes, n, exclude, available);
      return available;
    }
    IDsCount(available);
    var scores := ScoreAll(nodes, EligibleIDs(nodes, exclude), available);
    var sorted := SortByScore(scores);
    RearrangedDistinct(scores, sorted);
    TopIsSelection(nodes, n, exclude, sorted);
    selected := TakeNodes(sorted, n);
  }

  /** The final loop of SelectNodes; it takes nothing for a negative n. */
  method TakeNodes(scores: seq<NodeScore>, n: int) returns (selected: seq<NodeRecord>)
    requires n <= |scores|
    ensures selected == Nodes(scores[..if n < 0 then 0 else n])
  {
    selected := [];
    var i := 0;
    while i < n && i < |scores|
      invariant 0 <= i <= |scores| && i <= (if n < 0 then 0 else n)
      invariant |selected| == i && forall j :: 0 <= j < i ==> selected[j] == scores[j].node
    {
      selected := selected + [scores[i].node];
      i := i + 1;
    }
  }

  // ---------------------------------------------------------- near-optimality

  ghost function Total(nodes: map<string, NodeRecord>, ids: set<string>): real
    requires ids <= nodes.Keys
  {
    if ids == {} then 0.0 else
      var k :| k in ids;
      RawScore(nodes[k]) + Total(nodes, ids - {k})
  }

  lemma {:induction false} TotalRemove(nodes: map<string, NodeRecord>, ids: set<string>, k: string)
    requires ids <= nodes.Keys && k in ids
    ensures Total(nodes, ids) == RawScore(nodes[k]) + Total(nodes, ids - {k})
    decreases |ids|
  {
    var m :| m in ids && Total(nodes, ids) == RawScore(nodes[m]) + Total(nodes, ids - {m});
    if m != k {
      TotalRemove(nodes, ids - {m}, k);
      TotalRemove(nodes, ids - {k}, m);
      assert ids - {m} - {k} == ids - {k} - {m};
    }
  }

  lemma {:induction false} TotalUnion(nodes: map<string, NodeRecord>, a: set<string>, b: set<string>)
    requires a + b <= nodes.Keys && a !! b
    ensures Total(nodes, a + b) == Total(nodes, a) + Total(nodes, b)
    decreases |a|
  {
    if a == {} {
      assert a + b == b;
    } else {
      var k :| k in a;
      TotalRemove(nodes, a, k);
      TotalRemove(nodes, a + b, k);
      TotalUnion(nodes, a - {k}, b);
      assert (a + b) - {k} == (a - {k}) + b;
    }
  }

  /** Exchange argument: trading every node of `b` for one of `a` gains less than 0.01 each. */
  lemma {:induction false} Exchange(nodes: map<string, NodeRecord>, a: set<string>, b: set<string>)
    requires a + b <= nodes.Keys && |a| == |b|
    requires forall x, y :: x in a && y in b ==> RawScore(nodes[x]) - RawScore(nodes[y]) < 0.01
    ensures a != {} ==> Total(nodes, a) - Total(nodes, b) < 0.01 * |a| as real
    ensures a == {} ==> Total(nodes, a) == Total(nodes, b)
    decreases |a|
  {
    if a != {} {
      assert |b| != 0;
      var x :| x in a;
      var y :| y in b;
      TotalRemove(nodes, a, x);
      TotalRemove(nodes, b, y);
      Exchange(nodes, a - {x}, b - {y});
      assert |a - {x}| == |a| - 1;
    } else {
      assert |b| == 0;
    }
  }

  /** No other choice of as many eligible nodes beats the selection by 0.01 or more for
      each node in which it differs. */
  lemma NearOptimal(nodes: map<string, NodeRecord>, n: int, exclude: set<string>,
                    sel: seq<NodeRecord>, other: set<string>)
    requires Keyed(nodes) && IsSelection(nodes, n, exclude, sel)
    requires other <= EligibleIDs(nodes, exclude) && |other| == |sel|
    ensures IDs(sel) <= nodes.Keys
    ensures other != IDs(sel) ==>
              Total(nodes, other) - Total(nodes, IDs(sel)) < 0.01 * |other - IDs(sel)| as real
  {
    hide RawScore, ScoreNode, Total;
    var chosen := IDs(sel);
    var eligible := EligibleIDs(nodes, exclude);
    IDsCount(sel);
    assert chosen <= eligible && eligible <= nodes.Keys;
    var a, b, c := other - chosen, chosen - other, other * chosen;
    assert other == a + c && chosen == b + c;
    TotalUnion(nodes, a, c);
    TotalUnion(nodes, b, c);
    if |eligible| < n {
      AllOf(other, eligible);
      AllOf(chosen, eligible);
    } else if other != chosen {
      forall x, y | x in a && y in b ensures RawScore(nodes[x]) - RawScore(nodes[y]) < 0.01 {
        var node :| node in sel && node.nodeID == y;
        RoundingGap(nodes[y], nodes[x]);
      }
      SameSizeDifferences(other, chosen);
      Exchange(nodes, a, b);
    }
  }

  lemma SameSizeDifferences(s: set<string>, t: set<string>)
    requires |s| == |t| && s != t
    ensures |s - t| == |t - s| && s - t != {}
  {
    assert |s| == |s - t| + |s * t| && |t| == |t - s| + |s * t|;
    if s - t == {} { AllOf(s, t); }
  }

  lemma AllOf(a: set<string>, b: set<string>)
    requires a <= b && |a| == |b|
    ensures a == b
  {
    assert |b - a| == |b| - |a|;
    assert b == a + (b - a);
  }

  /** The replica list of a write names distinct nodes, at most as many as were asked for,
      and is empty only when nobody is eligible or nobody was asked for. */
  lemma SelectionShape(nodes: map<string, NodeRecord>, n: int, exclude: set<string>, sel: seq<NodeRecord>)
    requires IsSelection(nodes, n, exclude, sel)
    ensures Distinct(NodeIDs(sel))
    ensures sel != [] ==> |sel| <= n
    ensures sel == [] <==> (n <= 0 || EligibleIDs(nodes, exclude) == {})
  {
    if n > 0 && EligibleIDs(nodes, exclude) != {} {
      assert |EligibleIDs(nodes, exclude)| > 0;
    }
  }

  /** Every node selected is online, has a storage path and is not excluded; and when fewer were selected than
      asked for, every such node was. */
  lemma SelectedNodes(nodes: map<string, NodeRecord>, n: int, exclude: set<string>, sel: seq<NodeRecord>)
    requires IsSelection(nodes, n, exclude, sel)
    ensures forall x :: x in sel ==>
              x.nodeID in nodes && nodes[x.nodeID] == x && x.status == Online && x.storagePath != "" && x.nodeID !in exclude
    ensures 0 <= n && |sel| < n ==>
              forall k :: k in nodes && nodes[k].status == Online && nodes[k].storagePath != "" && nodes[k].nodeID !in exclude ==>
                k in NodeIDs(sel)
  {
    hide ScoreNode;
    if 0 <= n && |sel| < n {
      IDsCount(sel);
      assert IDs(sel) <= EligibleIDs(nodes, exclude);
      AllOf(IDs(sel), EligibleIDs(nodes, exclude));
      forall k | k in nodes && nodes[k].status == Online && nodes[k].storagePath != "" && nodes[k].nodeID !in exclude
        ensures k in NodeIDs(sel)
      {
        assert k in IDs(sel);
        var x :| x in sel && x.nodeID == k;
        var i :| 0 <= i < |sel| && sel[i] == x;
        assert NodeIDs(sel)[i] == k;
      }
    }
  }
}
