/** A bbolt bucket: entries in strictly increasing byte order of their keys, with
    replacement on Put and a cursor that walks the order. */
module Bucket {
  import opened Keys
  import opened Records

  datatype Entry<+V> = Entry(key: string, value: V)

  ghost predicate Ordered<V>(b: seq<Entry<V>>) {
    forall i, j :: 0 <= i < j < |b| ==> Less(b[i].key, b[j].key)
  }

  function Put<V>(b: seq<Entry<V>>, key: string, value: V): seq<Entry<V>> {
    if b == [] then [Entry(key, value)]
    else if b[0].key == key then [Entry(key, value)] + b[1..]
    else if Less(key, b[0].key) then [Entry(key, value)] + b
    else [b[0]] + Put(b[1..], key, value)
  }

  function Remove<V>(b: seq<Entry<V>>, key: string): seq<Entry<V>> {
    if b == [] then []
    else if b[0].key == key then b[1..]
    else [b[0]] + Remove(b[1..], key)
  }

  /** The bucket as a finite map, forgetting the order. */
  function AsMap<V>(b: seq<Entry<V>>): map<string, V> {
    if b == [] then map[] else AsMap(b[1..])[b[0].key := b[0].value]
  }

  lemma {:induction false} AsMapKeys<V>(b: seq<Entry<V>>)
    ensures forall k :: k in AsMap(b) <==> exists i :: 0 <= i < |b| && b[i].key == k
  {
    if b != [] {
      AsMapKeys(b[1..]);
      forall k ensures k in AsMap(b) <==> exists i :: 0 <= i < |b| && b[i].key == k {
        if k in AsMap(b) && k != b[0].key {
          assert k in AsMap(b[1..]);
          var i :| 0 <= i < |b[1..]| && b[1..][i].key == k;
          assert b[i + 1].key == k;
        }
        if i :| 0 <= i < |b| && b[i].key == k && i > 0 {
          assert b[1..][i - 1].key == k;
        }
      }
    }
  }

  lemma {:induction false} AsMapAt<V>(b: seq<Entry<V>>, i: nat)
    requires Ordered(b) && i < |b|
    ensures b[i].key in AsMap(b) && AsMap(b)[b[i].key] == b[i].value
  {
    if i > 0 {
      AsMapAt(b[1..], i - 1);
      assert Less(b[0].key, b[i].key);
      LessIrreflexive(b[0].key);
    }
  }

  lemma OrderedCons<V>(e: Entry<V>, rest: seq<Entry<V>>)
    requires Ordered(rest)
    requires forall x :: x in rest ==> Less(e.key, x.key)
    ensures Ordered([e] + rest)
  {
    var r := [e] + rest;
    forall i, j | 0 <= i < j < |r| ensures Less(r[i].key, r[j].key) {
      assert r[j] in rest;
    }
  }

  lemma OrderedTail<V>(b: seq<Entry<V>>)
    requires Ordered(b) && b != []
    ensures Ordered(b[1..])
    ensures forall x :: x in b[1..] ==> Less(b[0].key, x.key)
    ensures b[0].key !in AsMap(b[1..])
  {
    forall x | x in b[1..] ensures Less(b[0].key, x.key) {
      var i :| 0 <= i < |b[1..]| && b[1..][i] == x;
      assert b[i + 1] == x;
    }
    AsMapKeys(b[1..]);
    LessIrreflexive(b[0].key);
  }

  /** Put keeps the order and updates exactly one key. */
  lemma {:induction false} PutSpec<V>(b: seq<Entry<V>>, key: string, value: V)
    requires Ordered(b)
    ensures Ordered(Put(b, key, value))
    ensures AsMap(Put(b, key, value)) == AsMap(b)[key := value]
    ensures forall e :: e in Put(b, key, value) ==> e in b || e == Entry(key, value)
  {
    if b != [] {
      OrderedTail(b);
      if b[0].key == key {
        assert Put(b, key, value)[1..] == b[1..];
        OrderedCons(Entry(key, value), b[1..]);
      } else if Less(key, b[0].key) {
        assert Put(b, key, value)[1..] == b;
        forall x | x in b ensures Less(key, x.key) {
          if x != b[0] {
            assert x in b[1..];
            LessTransitive(key, b[0].key, x.key);
          }
        }
        OrderedCons(Entry(key, value), b);
      } else {
        var rest := Put(b[1..], key, value);
        PutSpec(b[1..], key, value);
        LessTotal(key, b[0].key);
        forall x | x in rest ensures Less(b[0].key, x.key) {
          assert x in b[1..] || x == Entry(key, value);
        }
        OrderedCons(b[0], rest);
        assert Put(b, key, value)[1..] == rest;
      }
    }
  }

  /** Remove keeps the order and deletes exactly one key. */
  lemma {:induction false} RemoveSpec<V>(b: seq<Entry<V>>, key: string)
    requires Ordered(b)
    ensures Ordered(Remove(b, key))
    ensures AsMap(Remove(b, key)) == AsMap(b) - {key}
    ensures forall e :: e in Remove(b, key) ==> e in b
  {
    if b != [] {
      OrderedTail(b);
      if b[0].key != key {
        var rest := Remove(b[1..], key);
        RemoveSpec(b[1..], key);
        forall x | x in rest ensures Less(b[0].key, x.key) { assert x in b[1..]; }
        OrderedCons(b[0], rest);
        assert Remove(b, key)[1..] == rest;
      }
    }
  }

  // ------------------------------------------------------------- prefix scan

  /** Where Cursor.Seek lands: the first key at or after `key`. */
  function Seek<V>(b: seq<Entry<V>>, key: string): (i: nat)
    ensures i <= |b|
    ensures forall j :: 0 <= j < i ==> Less(b[j].key, key)
    ensures i < |b| ==> !Less(b[i].key, key)
  {
    if b == [] || !Less(b[0].key, key) then 0 else 1 + Seek(b[1..], key)
  }

  /** Entry `i` takes part in a search for the newest result under `prefix`. */
  predicate Candidate(b: seq<Entry<Option<SpeedTest>>>, prefix: string, i: int) {
    0 <= i < |b| && prefix <= b[i].key && b[i].value.Some?
  }

  /** `latest` is what a filter over the whole bucket followed by a first-maximum
      search finds, considering only entries below position `n`. */
  ghost predicate FirstNewest(b: seq<Entry<Option<SpeedTest>>>, prefix: string, n: int, latest: Option<SpeedTest>)
  {
    match latest
    case None => forall j :: 0 <= j < n ==> !Candidate(b, prefix, j)
    case Some(r) =>
      exists i :: 0 <= i < n && Candidate(b, prefix, i) && b[i].value == Some(r)
        && (forall j :: 0 <= j < n && Candidate(b, prefix, j) ==> b[j].value.value.testTime <= r.testTime)
        && (forall j :: 0 <= j < i && Candidate(b, prefix, j) ==> b[j].value.value.testTime < r.testTime)
  }

  /** The keys under a prefix form one block of an ordered bucket. */
  lemma PrefixBlock<V>(b: seq<Entry<V>>, prefix: string, i: nat, j: nat)
    requires Ordered(b)
    requires i < j < |b| && Seek(b, prefix) <= i && prefix <= b[j].key
    ensures prefix <= b[i].key
  {
    var s := Seek(b, prefix);
    LessTotal(b[s].key, prefix);
    if s < i {
      if b[s].key != prefix { LessTransitive(prefix, b[s].key, b[i].key); }
    }
    assert AtMost(prefix, b[i].key);
    PrefixContiguous(prefix, b[i].key, b[j].key);
  }

  /** GetLatestSpeedTest: seek to the prefix and walk while it matches. The early
      stop loses nothing: the result is that of the search over the whole bucket. */
  method GetLatestSpeedTest(b: seq<Entry<Option<SpeedTest>>>, nodeID: string) returns (latest: Option<SpeedTest>)
    requires Ordered(b)
    ensures FirstNewest(b, nodeID + "_", |b|, latest)
  {
    latest := None;
    var prefix := nodeID + "_";
    var c := Seek(b, prefix);
    NothingBefore(b, prefix);
    hide Ordered, Seek;
    while c < |b| && prefix <= b[c].key
      invariant Seek(b, prefix) <= c <= |b|
      invariant FirstNewest(b, prefix, c, latest)
    {
      match b[c].value {
        case Some(r) =>
          if latest.None? || r.testTime > latest.value.testTime {
            latest := Some(r);
            assert Candidate(b, prefix, c);
          }
        case None =>
      }
      c := c + 1;
    }
    NothingBeyond(b, prefix, c);
  }

  /** Where the walk stops, nothing more is to come. */
  lemma NothingBeyond(b: seq<Entry<Option<SpeedTest>>>, prefix: string, c: nat)
    requires Ordered(b) && Seek(b, prefix) <= c <= |b| && (c < |b| ==> !(prefix <= b[c].key))
    ensures forall j :: c <= j < |b| ==> !Candidate(b, prefix, j)
  {
    hide Ordered, Seek;
    forall j | c <= j < |b| ensures !Candidate(b, prefix, j) {
      if prefix <= b[j].key && c < j { PrefixBlock(b, prefix, c, j); }
    }
  }

  lemma NothingBefore(b: seq<Entry<Option<SpeedTest>>>, prefix: string)
    requires Ordered(b)
    ensures forall j :: 0 <= j < Seek(b, prefix) ==> !Candidate(b, prefix, j)
  {
    forall j | 0 <= j < Seek(b, prefix) ensures !Candidate(b, prefix, j) {
      if prefix <= b[j].key {
        PrefixFirst(prefix, b[j].key);
        if prefix != b[j].key { LessTransitive(prefix, b[j].key, prefix); }
        LessIrreflexive(prefix);
      }
    }
  }

  /** The key SaveSpeedTestResult uses; `time` is an RFC 3339 text. */
  function SpeedTestKey(nodeID: string, time: string): string {
    nodeID + "_" + time
  }

  /** The scan for `nodeID` meets a result saved for `owner` exactly when they are the same
      node or `owner`'s identifier itself continues "<nodeID>_". */
  lemma SpeedTestOwner(nodeID: string, owner: string, time: string)
    requires '_' !in time
    ensures (nodeID + "_") <= SpeedTestKey(owner, time) <==> (owner == nodeID || (nodeID + "_") <= owner)
  {
    var p, k := nodeID + "_", SpeedTestKey(owner, time);
    assert forall i :: |owner| < i < |k| ==> k[i] == time[i - |owner| - 1];
    assert p[|nodeID|] == '_' && p[..|nodeID|] == nodeID;
    assert k[..|owner|] == owner && k[|owner|] == '_';
    if p <= k {
      assert k[|nodeID|] == '_';
      assert |nodeID| <= |owner|;
      if |nodeID| == |owner| {
        assert k[..|nodeID|] == p[..|nodeID|];
      } else {
        assert owner[..|p|] == k[..|p|];
      }
    }
    if owner == nodeID { assert k[..|p|] == p; }
    if p <= owner { assert k[..|p|] == owner[..|p|]; }
  }

  /** The key was saved for `owner`. */
  ghost predicate OwnedBy(key: string, owner: string) {
    exists time :: '_' !in time && key == SpeedTestKey(owner, time)
  }

  lemma OneOwner(key: string, a: string, b: string)
    requires OwnedBy(key, a) && OwnedBy(key, b)
    ensures a == b
  {
    var s :| '_' !in s && key == SpeedTestKey(a, s);
    var t :| '_' !in t && key == SpeedTestKey(b, t);
    UnderscoreSplit(a, s, b, t);
  }

  /** Every key of the bucket was written by SaveSpeedTestResult. */
  ghost predicate AllOwned(b: seq<Entry<Option<SpeedTest>>>) {
    forall e :: e in b ==> exists owner :: OwnedBy(e.key, owner)
  }

  /** A key of another node that the scan for `nodeID` meets. */
  ghost predicate Foreign(key: string, nodeID: string) {
    exists owner :: (nodeID + "_") <= owner && OwnedBy(key, owner)
  }

  /** Entry j is preferred to entry k: newer, or as new and met earlier. */
  predicate Beats(b: seq<Entry<Option<SpeedTest>>>, j: int, k: int)
    requires 0 <= j < |b| && 0 <= k < |b| && b[j].value.Some? && b[k].value.Some?
  {
    var t, u := b[j].value.value.testTime, b[k].value.value.testTime;
    t > u || (t == u && j < k)
  }

  /** Entry i is the one the scan answers with. */
  ghost predicate Winner(b: seq<Entry<Option<SpeedTest>>>, prefix: string, i: int) {
    Candidate(b, prefix, i) && forall k :: Candidate(b, prefix, k) && k != i ==> Beats(b, i, k)
  }

  lemma WinnerIsLatest(b: seq<Entry<Option<SpeedTest>>>, prefix: string, latest: SpeedTest)
    requires FirstNewest(b, prefix, |b|, Some(latest))
    ensures exists i :: Winner(b, prefix, i) && b[i].value == Some(latest)
  {
    var i :| 0 <= i < |b| && Candidate(b, prefix, i) && b[i].value == Some(latest)
      && (forall j :: 0 <= j < |b| && Candidate(b, prefix, j) ==> b[j].value.value.testTime <= latest.testTime)
      && (forall j :: 0 <= j < i && Candidate(b, prefix, j) ==> b[j].value.value.testTime < latest.testTime);
    assert Winner(b, prefix, i);
  }

  /** What the scan meets is the node's own or foreign, and not both. */
  lemma OwnOrForeign(b: seq<Entry<Option<SpeedTest>>>, nodeID: string, k: int)
    requires AllOwned(b) && Candidate(b, nodeID + "_", k)
    ensures OwnedBy(b[k].key, nodeID) <==> !Foreign(b[k].key, nodeID)
  {
    assert b[k] in b;
    var owner :| OwnedBy(b[k].key, owner);
    var time :| '_' !in time && b[k].key == SpeedTestKey(owner, time);
    SpeedTestOwner(nodeID, owner, time);
    assert !((nodeID + "_") <= nodeID);
    forall other | OwnedBy(b[k].key, other) ensures other == owner { OneOwner(b[k].key, owner, other); }
  }

  /** Every result of another node that the scan meets is beaten by one of the node's own. */
  ghost predicate OwnPrevails(b: seq<Entry<Option<SpeedTest>>>, nodeID: string) {
    forall k :: Candidate(b, nodeID + "_", k) && Foreign(b[k].key, nodeID) ==>
      exists j :: Candidate(b, nodeID + "_", j) && OwnedBy(b[j].key, nodeID) && Beats(b, j, k)
  }

  lemma WinnerOwnIff(b: seq<Entry<Option<SpeedTest>>>, nodeID: string, i: int)
    requires AllOwned(b) && Winner(b, nodeID + "_", i)
    ensures OwnedBy(b[i].key, nodeID) <==> OwnPrevails(b, nodeID)
  {
    hide OwnedBy, Foreign, AllOwned;
    OwnOrForeign(b, nodeID, i);
    if OwnedBy(b[i].key, nodeID) {
      forall k | Candidate(b, nodeID + "_", k) && Foreign(b[k].key, nodeID)
        ensures exists j :: Candidate(b, nodeID + "_", j) && OwnedBy(b[j].key, nodeID) && Beats(b, j, k)
      {
        assert Beats(b, i, k);
      }
    } else {
      forall j | Candidate(b, nodeID + "_", j) ensures !Beats(b, j, i) {
        if j != i { assert Beats(b, i, j); }
      }
    }
  }

  /** What GetLatestSpeedTest answers for a node is a result of its own if and only if every result of
      another node whose identifier continues "<nodeID>_" is beaten by one of its own. */
  lemma OwnResultIff(b: seq<Entry<Option<SpeedTest>>>, nodeID: string, latest: SpeedTest)
    requires AllOwned(b) && FirstNewest(b, nodeID + "_", |b|, Some(latest))
    ensures exists i :: Winner(b, nodeID + "_", i) && b[i].value == Some(latest)
              && (OwnedBy(b[i].key, nodeID) <==> OwnPrevails(b, nodeID))
  {
    hide OwnedBy, OwnPrevails, AllOwned;
    WinnerIsLatest(b, nodeID + "_", latest);
    var i :| Winner(b, nodeID + "_", i) && b[i].value == Some(latest);
    WinnerOwnIff(b, nodeID, i);
  }

  /** So a node can be reported another node's bandwidth. */
  lemma SpeedTestConfusion()
    ensures var b := Put([], SpeedTestKey("nas_1", "2026-01-01T00:00:00Z"), Some(SpeedTest(1.0, 1.0, 0, 0)));
            && AllOwned(b)
            && FirstNewest(b, "nas" + "_", |b|, Some(SpeedTest(1.0, 1.0, 0, 0)))
  {
    var key := SpeedTestKey("nas_1", "2026-01-01T00:00:00Z");
    var b := Put([], key, Some(SpeedTest(1.0, 1.0, 0, 0)));
    SpeedTestOwner("nas", "nas_1", "2026-01-01T00:00:00Z");
    assert ("nas" + "_") <= "nas_1";
    assert OwnedBy(key, "nas_1");
    assert Candidate(b, "nas" + "_", 0);
  }
}
