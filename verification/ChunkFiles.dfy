/** Uploads of one chunk to one node that overlap in time. Every upload of a chunk writes the same
    temporary name, truncating whatever is there, and renames that name when it has written its
    bytes. Inodes are modelled: an open file keeps its inode when its name moves away. */
module ChunkFiles {
  import opened Records

  /** An upload that has opened the temporary file: its inode and how much it has written. */
  datatype Upload = Upload(file: nat, written: nat)

  /** The inodes, the two names of the chunk ("temp/<id>.tmp" and "chunks/<id>"), and the uploads in flight. */
  datatype Disk = Disk(inodes: seq<Bytes>, temp: Option<nat>, chunk: Option<nat>, open: map<nat, Upload>)

  datatype Step =
    | Open(k: nat)
    | Write(k: nat, n: nat)
    | Fail(k: nat)
    | Rename(k: nat)
    | Delete

  const EMPTY: Disk := Disk([], None, None, map[])

  function Zeros(n: nat): Bytes { seq(n, _ => 0) }

  /** Writing at an offset; a gap reads as zeros. */
  function Overlay(content: Bytes, offset: nat, piece: Bytes): Bytes {
    var front := if offset <= |content| then content[..offset] else content + Zeros(offset - |content|);
    front + piece + if offset + |piece| <= |content| then content[offset + |piece|..] else []
  }

  /** All uploads of the chunk carry `body`. An upload renames only what it has written completely. */
  predicate Enabled(s: Disk, body: Bytes, step: Step) {
    match step
    case Open(k) => k !in s.open
    case Write(k, n) => k in s.open && s.open[k].file < |s.inodes| && 0 < n <= |body| - s.open[k].written
    case Fail(k) => k in s.open
    case Rename(k) => k in s.open && s.open[k].written == |body|
    case Delete => true
  }

  function Next(s: Disk, body: Bytes, step: Step): Disk
    requires Enabled(s, body, step)
  {
    match step
    case Open(k) =>
      if s.temp.Some? && s.temp.value < |s.inodes| then
        s.(inodes := s.inodes[s.temp.value := []], open := s.open[k := Upload(s.temp.value, 0)])
      else
        s.(inodes := s.inodes + [[]], temp := Some(|s.inodes|), open := s.open[k := Upload(|s.inodes|, 0)])
    case Write(k, n) =>
      var u := s.open[k];
      s.(inodes := s.inodes[u.file := Overlay(s.inodes[u.file], u.written, body[u.written..u.written + n])],
         open := s.open[k := u.(written := u.written + n)])
    case Fail(k) => s.(open := s.open - {k})
    case Rename(k) =>
      if s.temp.None? then s.(open := s.open - {k})
      else s.(chunk := s.temp, temp := None, open := s.open - {k})
    case Delete => s.(chunk := None)
  }

  ghost predicate Legal(s: Disk, body: Bytes, run: seq<Step>)
    decreases run
  {
    run == [] || (Enabled(s, body, run[0]) && Legal(Next(s, body, run[0]), body, run[1..]))
  }

  ghost function Final(s: Disk, body: Bytes, run: seq<Step>): Disk
    requires Legal(s, body, run)
    decreases run
  {
    if run == [] then s else Final(Next(s, body, run[0]), body, run[1..])
  }

  /** What a download of the chunk returns. */
  function Seen(s: Disk): Option<Bytes> {
    if s.chunk.Some? && s.chunk.value < |s.inodes| then Some(s.inodes[s.chunk.value]) else None
  }

  ghost predicate Whole(s: Disk, body: Bytes) {
    Seen(s).Some? ==> Seen(s).value == body
  }

  // ---------------------------------------------------------- when a PUT may start

  /** Losing what this upload has written so far would do no harm: it has more to write, and what it
      has written reads the same as a gap. In particular when it has written nothing yet. */
  predicate Restartable(body: Bytes, u: Upload) {
    u.written < |body| && body[..u.written] == Zeros(u.written)
  }

  /** Every upload in flight writes the file that is still temporary, and could lose its bytes. */
  ghost predicate Calm(s: Disk, body: Bytes) {
    forall k :: k in s.open ==> s.temp == Some(s.open[k].file) && Restartable(body, s.open[k])
  }

  ghost predicate UploadOk(s: Disk, body: Bytes, u: Upload) {
    && u.file < |s.inodes| && u.written <= |body|
    && (u.written <= |s.inodes[u.file]| || Restartable(body, u))
    && (if s.temp.Some? then s.temp.value == u.file else s.inodes[u.file] == body)
  }

  /** The chunk's file is whole, and nobody's bytes are missing from the temporary one. */
  ghost predicate Good(s: Disk, body: Bytes) {
    && (s.temp.Some? ==> s.temp.value < |s.inodes|)
    && (s.chunk.Some? ==> s.chunk.value < |s.inodes| && s.inodes[s.chunk.value] == body && s.chunk != s.temp)
    && (forall k :: k in s.open ==> UploadOk(s, body, s.open[k]))
    && (s.temp.Some? && s.open != map[] ==> s.inodes[s.temp.value] <= body)
  }

  /** Writing more of the body over a prefix of it gives a prefix that includes what was written. */
  lemma OverlayPrefix(content: Bytes, body: Bytes, offset: nat, n: nat)
    requires content <= body && offset + n <= |body|
    requires offset <= |content| || body[..offset] == Zeros(offset)
    ensures var r := Overlay(content, offset, body[offset..offset + n]);
            r <= body && |r| >= |content| && |r| >= offset + n
  {
    var r := Overlay(content, offset, body[offset..offset + n]);
    forall p | 0 <= p < |r| ensures r[p] == body[p] {
      if |content| <= p < offset { assert body[..offset][p] == Zeros(offset)[p]; }
    }
    assert r == body[..|r|];
  }

  lemma WriteKeepsGood(s: Disk, body: Bytes, k: nat, n: nat)
    requires Good(s, body) && Enabled(s, body, Write(k, n))
    ensures Good(Next(s, body, Write(k, n)), body) && Seen(Next(s, body, Write(k, n))) == Seen(s)
  {
    var u, s' := s.open[k], Next(s, body, Write(k, n));
    assert UploadOk(s, body, u);
    var content := s.inodes[u.file];
    assert content <= body;
    OverlayPrefix(content, body, u.written, n);
    hide Overlay;
    assert content == body ==> s'.inodes[u.file] == body;
    forall j | j in s'.open ensures UploadOk(s', body, s'.open[j]) {
      assert UploadOk(s, body, s.open[j]);
    }
  }

  lemma RenameKeepsGood(s: Disk, body: Bytes, k: nat)
    requires Good(s, body) && Enabled(s, body, Rename(k))
    ensures var s' := Next(s, body, Rename(k));
            Good(s', body) && Seen(s') == if s.temp.Some? then Some(body) else Seen(s)
  {
    var s' := Next(s, body, Rename(k));
    assert UploadOk(s, body, s.open[k]);
    if s.temp.Some? { assert s.inodes[s.temp.value] == body; }
    forall j | j in s'.open ensures UploadOk(s', body, s'.open[j]) { assert UploadOk(s, body, s.open[j]); }
  }

  lemma OpenKeepsGood(s: Disk, body: Bytes, k: nat)
    requires Good(s, body) && Enabled(s, body, Open(k)) && Calm(s, body) && body != []
    ensures Good(Next(s, body, Open(k)), body) && Seen(Next(s, body, Open(k))) == Seen(s)
  {
    var s' := Next(s, body, Open(k));
    forall j | j in s'.open ensures UploadOk(s', body, s'.open[j]) {
      if j != k { assert UploadOk(s, body, s.open[j]) && s.temp == Some(s.open[j].file); }
    }
  }

  lemma EndKeepsGood(s: Disk, body: Bytes, step: Step)
    requires Good(s, body) && Enabled(s, body, step) && (step.Fail? || step.Delete?)
    ensures Good(Next(s, body, step), body)
    ensures Seen(Next(s, body, step)) == if step.Delete? then None else Seen(s)
  {
    var s' := Next(s, body, step);
    forall j | j in s'.open ensures UploadOk(s', body, s'.open[j]) { assert UploadOk(s, body, s.open[j]); }
  }

  /** As long as uploads start only when all is calm, a download sees the body from the first
      acknowledged rename to the next delete, and nothing else: an upload is one atomic write. */
  lemma CalmStepIsAtomic(s: Disk, body: Bytes, step: Step)
    requires Good(s, body) && Enabled(s, body, step) && body != [] && (step.Open? ==> Calm(s, body))
    ensures var s' := Next(s, body, step);
            && Good(s', body) && Whole(s', body)
            && Seen(s') == if step.Rename? && s.temp.Some? then Some(body) else if step.Delete? then None else Seen(s)
  {
    hide UploadOk, Calm;
    match step
    case Open(k) => OpenKeepsGood(s, body, k);
    case Write(k, n) => WriteKeepsGood(s, body, k, n);
    case Rename(k) => RenameKeepsGood(s, body, k);
    case _ => EndKeepsGood(s, body, step);
  }

  /** Every upload of the run starts when all is calm. */
  ghost predicate StartsCalmly(s: Disk, body: Bytes, run: seq<Step>)
    requires Legal(s, body, run)
    decreases run
  {
    run == [] || ((run[0].Open? ==> Calm(s, body)) && StartsCalmly(Next(s, body, run[0]), body, run[1..]))
  }

  lemma {:induction false} CalmRunsStayGood(s: Disk, body: Bytes, run: seq<Step>)
    requires Good(s, body) && body != [] && Legal(s, body, run) && StartsCalmly(s, body, run)
    ensures Good(Final(s, body, run), body)
    decreases run
  {
    hide Good, Enabled, Calm, Next;
    if run != [] {
      CalmStepIsAtomic(s, body, run[0]);
      CalmRunsStayGood(Next(s, body, run[0]), body, run[1..]);
    }
  }

  /** In every such run the chunk's file is whole at all times, whatever writes and renames fail. */
  lemma CalmRunsAreWhole(body: Bytes, run: seq<Step>)
    requires body != [] && Legal(EMPTY, body, run) && StartsCalmly(EMPTY, body, run)
    ensures Whole(Final(EMPTY, body, run), body)
  {
    CalmRunsStayGood(EMPTY, body, run);
  }

  // ------------------------------------------------------------- and when it may not

  ghost predicate NoOpens(run: seq<Step>) {
    forall step :: step in run ==> !step.Open?
  }

  lemma {:induction false} NoOpensIsCalm(s: Disk, body: Bytes, run: seq<Step>)
    requires Legal(s, body, run) && NoOpens(run)
    ensures StartsCalmly(s, body, run)
    decreases run
  {
    if run != [] {
      assert run[0] in run;
      assert forall step :: step in run[1..] ==> step in run;
      NoOpensIsCalm(Next(s, body, run[0]), body, run[1..]);
    }
  }

  /** Upload j writes what it has left, if anything, and renames. */
  function Finish(s: Disk, body: Bytes, j: nat): seq<Step>
    requires j in s.open && s.open[j].written <= |body|
  {
    if s.open[j].written == |body| then [Rename(j)] else [Write(j, |body| - s.open[j].written), Rename(j)]
  }

  /** The state just before j renames. */
  function Completed(s: Disk, body: Bytes, j: nat): Disk
    requires j in s.open && s.open[j].written <= |body| && s.open[j].file < |s.inodes|
  {
    if s.open[j].written == |body| then s else Next(s, body, Write(j, |body| - s.open[j].written))
  }

  lemma FinishRuns(s: Disk, body: Bytes, j: nat)
    requires j in s.open && s.open[j].written <= |body| && s.open[j].file < |s.inodes|
    ensures Enabled(Completed(s, body, j), body, Rename(j))
    ensures Legal(s, body, Finish(s, body, j))
            && Final(s, body, Finish(s, body, j)) == Next(Completed(s, body, j), body, Rename(j))
  {
    hide Overlay;
    var c := Completed(s, body, j);
    var run := Finish(s, body, j);
    assert [Rename(j)][1..] == [];
    assert Legal(c, body, [Rename(j)]) && Final(c, body, [Rename(j)]) == Next(c, body, Rename(j));
    if s.open[j].written < |body| { assert run[1..] == [Rename(j)]; }
  }

  /** The file another upload has just truncated or created is torn when j is ready to rename it. */
  lemma CompletedTorn(s: Disk, body: Bytes, j: nat, k: nat)
    requires Good(s, body) && body != [] && k !in s.open
    requires j in s.open && !(s.temp == Some(s.open[j].file) && Restartable(body, s.open[j]))
    ensures var s1 := Next(s, body, Open(k));
            && j in s1.open && s1.open[j].written <= |body| && s1.open[j].file < |s1.inodes|
            && var c := Completed(s1, body, j);
               c.temp.Some? && c.temp.value < |c.inodes| && c.inodes[c.temp.value] != body
  {
    hide Overlay;
    assert UploadOk(s, body, s.open[j]);
    if s.temp.Some? && s.open[j].written < |body| { GapRemains(body, s.open[j].written); }
  }

  lemma OpenEnabled(s: Disk, body: Bytes, k: nat)
    ensures Enabled(s, body, Open(k)) <==> k !in s.open
  {
  }

  lemma RenamedTorn(s: Disk, body: Bytes, j: nat)
    requires Enabled(s, body, Rename(j)) && s.temp.Some? && s.temp.value < |s.inodes| && s.inodes[s.temp.value] != body
    ensures !Whole(Next(s, body, Rename(j)), body)
  {
  }

  /** Another upload truncates or replaces the temporary file; then j renames it. */
  lemma FinishTears(s: Disk, body: Bytes, j: nat, k: nat)
    requires Good(s, body) && body != [] && k !in s.open
    requires j in s.open && !(s.temp == Some(s.open[j].file) && Restartable(body, s.open[j]))
    ensures var s1 := Next(s, body, Open(k));
            j in s1.open && s1.open[j].written <= |body| && Legal(s1, body, Finish(s1, body, j))
            && !Whole(Final(s1, body, Finish(s1, body, j)), body)
  {
    hide *;
    OpenEnabled(s, body, k);
    CompletedTorn(s, body, j, k);
    var s1 := Next(s, body, Open(k));
    FinishRuns(s1, body, j);
    RenamedTorn(Completed(s1, body, j), body, j);
  }

  lemma GapRemains(body: Bytes, offset: nat)
    requires offset < |body| && body[..offset] != Zeros(offset)
    ensures Overlay([], offset, body[offset..offset + (|body| - offset)]) != body
  {
    assert Overlay([], offset, body[offset..])[..offset] == Zeros(offset);
  }

  /** A PUT of a chunk may start without risk if and only if every PUT of the chunk in flight
      still writes the temporary file and could lose what it has written; most simply, when none
      is in flight. Otherwise one of those can be acknowledged and leave a torn file. */
  lemma NewUploadSafeIff(s: Disk, body: Bytes, k: nat)
    requires Good(s, body) && body != [] && k !in s.open
    ensures (forall more :: Legal(Next(s, body, Open(k)), body, more) && NoOpens(more) ==>
               Whole(Final(Next(s, body, Open(k)), body, more), body))
            <==> Calm(s, body)
  {
    var s1 := Next(s, body, Open(k));
    if Calm(s, body) {
      CalmStepIsAtomic(s, body, Open(k));
      hide Next, Calm, Good;
      forall more | Legal(s1, body, more) && NoOpens(more) ensures Whole(Final(s1, body, more), body) {
        NoOpensIsCalm(s1, body, more);
        CalmRunsStayGood(s1, body, more);
        GoodIsWhole(Final(s1, body, more), body);
      }
    } else {
      var j :| j in s.open && !(s.temp == Some(s.open[j].file) && Restartable(body, s.open[j]));
      FinishTears(s, body, j, k);
      assert NoOpens(Finish(s1, body, j));
    }
  }

  lemma GoodIsWhole(s: Disk, body: Bytes)
    requires Good(s, body)
    ensures Whole(s, body)
  {
  }

  /** The shortest way: PUT 1 has written everything, PUT 2 truncates the file, PUT 1 renames it and
      is acknowledged, PUT 2 fails. Nothing is in flight any more, and the chunk is an empty file. */
  lemma TornForGood(body: Bytes)
    requires body != []
    ensures var run := [Open(1), Write(1, |body|), Open(2), Rename(1), Fail(2)];
            Legal(EMPTY, body, run)
            && Final(EMPTY, body, run).open == map[] && Seen(Final(EMPTY, body, run)) == Some([])
  {
    var s1 := Next(EMPTY, body, Open(1));
    var s2 := Next(s1, body, Write(1, |body|));
    var s3 := Next(s2, body, Open(2));
    var s4 := Next(s3, body, Rename(1));
    var s5 := Next(s4, body, Fail(2));
    var r5: seq<Step> := [];
    var r4 := [Fail(2)];
    var r3 := [Rename(1), Fail(2)];
    var r2 := [Open(2), Rename(1), Fail(2)];
    var r1 := [Write(1, |body|), Open(2), Rename(1), Fail(2)];
    var run := [Open(1), Write(1, |body|), Open(2), Rename(1), Fail(2)];
    assert run[1..] == r1 && r1[1..] == r2 && r2[1..] == r3 && r3[1..] == r4 && r4[1..] == r5;
    assert Legal(s5, body, r5) && Legal(s4, body, r4) && Legal(s3, body, r3) && Legal(s2, body, r2) && Legal(s1, body, r1);
    assert Final(s4, body, r4) == s5;
    assert Final(s3, body, r3) == s5;
    assert Final(s2, body, r2) == s5;
    assert Final(s1, body, r1) == s5;
    assert s5.open == map[];
  }
}
