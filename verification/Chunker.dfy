/** Cutting a file into chunks: the size table, the count in 64-bit arithmetic, the
    client's chunker and its random-access reader. */
module Chunker {
  import opened Sequences
  import opened Records

  const MAX_INT64: int := 0x7FFF_FFFF_FFFF_FFFF
  const MB: int := 0x10_0000

  /** Two's-complement wrap-around of a 64-bit signed result. */
  function Int64(x: int): int {
    (x + 0x8000_0000_0000_0000) % 0x1_0000_0000_0000_0000 - 0x8000_0000_0000_0000
  }

  /** Integer division rounding toward zero, for a positive divisor. */
  function Quotient(a: int, b: int): int
    requires b > 0
  {
    if a >= 0 then a / b else -((-a) / b)
  }

  /** The size table, identical in the client's chunker and in the server's upload handler. */
  function ChunkSize(fileSize: int): int {
    if fileSize < 10 * MB then fileSize
    else if fileSize < 100 * MB then 4 * MB
    else if fileSize < 1024 * MB then 16 * MB
    else if fileSize < 10240 * MB then 64 * MB
    else 128 * MB
  }

  /** (fileSize + chunkSize - 1) / chunkSize as the machine computes it. */
  function CountFor(fileSize: int, chunkSize: int): int
    requires chunkSize > 0
  {
    Quotient(Int64(fileSize + chunkSize - 1), chunkSize)
  }

  function ChunkCount(fileSize: nat): int {
    var chunkSize := ChunkSize(fileSize);
    if chunkSize == 0 then 0 else CountFor(fileSize, chunkSize)
  }

  // -------------------------------------------------------------- the pieces

  /** The intended cut: full pieces, the last one possibly shorter. */
  function Split(data: Bytes, size: nat): seq<Bytes>
    requires size > 0
    decreases |data|
  {
    if data == [] then []
    else if |data| <= size then [data]
    else [data[..size]] + Split(data[size..], size)
  }

  /** Wrap-around changes a number by a multiple of two to the 64th, into the signed range. */
  lemma Int64Spec(x: int)
    ensures -0x8000_0000_0000_0000 <= Int64(x) <= 0x7FFF_FFFF_FFFF_FFFF
    ensures (x - Int64(x)) % 0x1_0000_0000_0000_0000 == 0
  {
  }

  /** The remainder of the machine's division has the sign of the dividend. */
  lemma QuotientSpec(a: int, b: int)
    requires b > 0
    ensures var rest := a - Quotient(a, b) * b;
            if a >= 0 then 0 <= rest < b else -b < rest <= 0
  {
    if a < 0 { assert -a == ((-a) / b) * b + (-a) % b; }
  }

  /** The number of pieces, rounding up. */
  function Ceiling(n: nat, size: nat): nat
    requires size > 0
  {
    (n + size - 1) / size
  }

  lemma DivideExact(n: nat, size: nat, q: nat, r: nat)
    requires r < size && n == q * size + r
    ensures n / size == q
  {
    var q', r' := n / size, n % size;
    assert q' * size + r' == n;
    assert (q + 1) * size == q * size + size;
    assert (q' + 1) * size == q' * size + size;
    if q' < q { MulMonotone(q' + 1, q, size); }
  }

  lemma DivideAdd(n: nat, size: nat)
    requires size > 0
    ensures (n + size) / size == n / size + 1
  {
    var q, r := n / size, n % size;
    assert (q + 1) * size == q * size + size;
    DivideExact(n + size, size, q + 1, r);
  }

  lemma DivideOff(n: nat, size: nat)
    requires size > 0 && n > size
    ensures Ceiling(n, size) == 1 + Ceiling(n - size, size)
  {
    DivideAdd(n - size + size - 1, size);
  }

  lemma CeilingSmall(n: nat, size: nat)
    requires 0 < n <= size
    ensures Ceiling(n, size) == 1
  {
    DivideExact(n + size - 1, size, 1, n - 1);
  }

  /** The pieces put together are the file. */
  lemma {:induction false} SplitWhole(data: Bytes, size: nat)
    requires size > 0
    ensures Flatten(Split(data, size)) == data
    decreases |data|
  {
    if data == [] {
    } else if |data| <= size {
      assert Split(data, size)[1..] == [];
    } else {
      var rest := data[size..];
      SplitWhole(rest, size);
      FlattenCons(data[..size], Split(rest, size));
      hide Flatten;
      assert data == data[..size] + rest;
    }
  }

  function Min(a: int, b: int): int { if a < b then a else b }

  lemma {:induction false} SplitCount(data: Bytes, size: nat)
    requires size > 0
    ensures |Split(data, size)| == Ceiling(|data|, size)
    decreases |data|
  {
    if data == [] {
      DivideExact(size - 1, size, 0, size - 1);
    } else if |data| <= size {
      CeilingSmall(|data|, size);
    } else {
      DivideOff(|data|, size);
      SplitCount(data[size..], size);
    }
  }

  /** Piece i is the i-th window of the file: contiguous, never empty, and full unless last. */
  lemma {:induction false} SplitAt(data: Bytes, size: nat, i: nat)
    requires size > 0 && i < |Split(data, size)|
    ensures 0 <= i * size < |data|
    ensures Split(data, size)[i] == data[i * size..Min(i * size + size, |data|)]
    ensures 0 < |Split(data, size)[i]| <= size
    ensures i + 1 < |Split(data, size)| ==> |Split(data, size)[i]| == size
    decreases |data|
  {
    if |data| > size {
      var rest := data[size..];
      if i > 0 {
        SplitAt(rest, size, i - 1);
        assert i * size == (i - 1) * size + size;
        assert Split(data, size)[i] == Split(rest, size)[i - 1];
      }
    } else {
      assert i == 0;
    }
  }

  // --------------------------------------------------------- the 64-bit count

  /** The computed count is the true one exactly when the rounding sum does not overflow;
      past that point the loop runs zero times. */
  lemma CountExact(fileSize: nat, chunkSize: nat)
    requires fileSize <= MAX_INT64 && 0 < chunkSize <= MAX_INT64
    ensures CountFor(fileSize, chunkSize) == Ceiling(fileSize, chunkSize)
            <==> fileSize + chunkSize - 1 <= MAX_INT64
    ensures fileSize + chunkSize - 1 > MAX_INT64 ==> CountFor(fileSize, chunkSize) <= 0
  {
    var sum := fileSize + chunkSize - 1;
    if sum > MAX_INT64 {
      assert Int64(sum) == sum - 0x1_0000_0000_0000_0000;
      NotNegative(-Int64(sum), chunkSize);
      DivideAdd(fileSize - 1, chunkSize);
      NotNegative(fileSize - 1, chunkSize);
    } else {
      Int64Small(sum);
    }
  }

  lemma NotNegative(a: nat, b: nat)
    requires b > 0
    ensures a / b >= 0
  {
  }

  lemma Int64Small(x: nat)
    requires x <= MAX_INT64
    ensures Int64(x) == x
  {
  }

  /** Every size below the margin is cut completely. */
  lemma ChunkCountExact(fileSize: nat)
    requires fileSize + 128 * MB <= MAX_INT64
    ensures ChunkSize(fileSize) == 0 <==> fileSize == 0
    ensures fileSize > 0 ==> 0 < ChunkSize(fileSize) <= 128 * MB
                             && ChunkCount(fileSize) == Ceiling(fileSize, ChunkSize(fileSize))
  {
    if fileSize > 0 { CountExact(fileSize, ChunkSize(fileSize)); }
  }

  // -------------------------------------------------------- the client's loops

  datatype ChunkMeta = ChunkMeta(index: int, size: int, hash: string, offset: int)

  /** ReadAt into a buffer of `size` bytes, with the end-of-file error ignored: bytes
      past the end stay zero. */
  function ReadAt(content: Bytes, offset: nat, size: nat): (data: Bytes)
    ensures |data| == size
    ensures offset + size <= |content| ==> data == content[offset..offset + size]
  {
    if offset >= |content| then seq(size, _ => 0)
    else if offset + size <= |content| then content[offset..offset + size]
    else content[offset..] + seq(size - (|content| - offset), _ => 0)
  }

  lemma WindowBounds(fileSize: nat, chunkSize: nat, i: nat)
    requires chunkSize > 0 && i < Ceiling(fileSize, chunkSize)
    ensures i * chunkSize < fileSize
    ensures i + 1 < Ceiling(fileSize, chunkSize) ==> (i + 1) * chunkSize < fileSize
    ensures i + 1 == Ceiling(fileSize, chunkSize) ==> fileSize <= (i + 1) * chunkSize
  {
    var c := Ceiling(fileSize, chunkSize);
    assert c * chunkSize <= fileSize + chunkSize - 1 < c * chunkSize + chunkSize by {
      var q, r := (fileSize + chunkSize - 1) / chunkSize, (fileSize + chunkSize - 1) % chunkSize;
      assert fileSize + chunkSize - 1 == q * chunkSize + r;
    }
    assert (i + 1) * chunkSize == i * chunkSize + chunkSize;
    MulMonotone(i + 1, c, chunkSize);
    if i + 1 < c {
      MulMonotone(i + 2, c, chunkSize);
      assert (i + 2) * chunkSize == (i + 1) * chunkSize + chunkSize;
    }
  }

  lemma MulMonotone(a: nat, b: nat, c: nat)
    requires a <= b
    ensures a * c <= b * c
  {
    assert b * c == a * c + (b - a) * c;
  }

  /** The size of window i, and where the next one starts. */
  lemma WindowStep(fileSize: nat, chunkSize: nat, i: nat)
    requires chunkSize > 0 && i < Ceiling(fileSize, chunkSize)
    ensures i * chunkSize < fileSize
    ensures Min((i + 1) * chunkSize, fileSize) == Min(i * chunkSize + chunkSize, fileSize)
    ensures i + 1 < Ceiling(fileSize, chunkSize) ==> Min((i + 1) * chunkSize, fileSize) == (i + 1) * chunkSize
    ensures i + 1 == Ceiling(fileSize, chunkSize) ==> Min((i + 1) * chunkSize, fileSize) == fileSize
  {
    WindowBounds(fileSize, chunkSize, i);
    assert (i + 1) * chunkSize == i * chunkSize + chunkSize;
  }

  /** What ChunkFile records about a list of pieces. */
  ghost predicate Describes(chunks: seq<ChunkMeta>, pieces: seq<Bytes>, chunkSize: nat, hash: Bytes -> string) {
    |chunks| == |pieces|
    && forall i :: 0 <= i < |pieces| ==> chunks[i] == ChunkMeta(i, |pieces[i]|, hash(pieces[i]), i * chunkSize)
  }

  /** The rounding sum of the chunk count leaves the 64-bit range. */
  predicate Overflows(fileSize: nat) {
    fileSize + ChunkSize(fileSize) - 1 > MAX_INT64
  }

  /** ChunkFile. It lists the windows of the intended cut, and fails exactly when the file has become
      shorter than it was at Stat time, or when the count overflows: a slice cannot be made with a
      negative capacity. */
  method ChunkFile(content: Bytes, fileSize: nat, hash: Bytes -> string) returns (r: Result<seq<ChunkMeta>>)
    requires fileSize <= MAX_INT64
    ensures r.Ok? <==> fileSize <= |content| && !Overflows(fileSize)
    ensures r.Ok? <==> fileSize <= |content| && fileSize <= 9_223_372_036_720_558_080
    ensures r.Ok? && fileSize == 0 ==> r.value == []
    ensures r.Ok? ==> FollowsTable(r.value, fileSize)
    ensures r.Ok? && fileSize > 0 ==>
              Describes(r.value, Split(content[..fileSize], ChunkSize(fileSize)), ChunkSize(fileSize), hash)
  {
    if fileSize == 0 { return Ok([]); }
    var chunkSize := ChunkSize(fileSize);
    var chunkCount := CountFor(fileSize, chunkSize);
    CountExact(fileSize, chunkSize);
    if Overflows(fileSize) { CountNegative(fileSize); }
    CeilingPositive(fileSize, chunkSize);
    if chunkCount < 0 { return Err("makeslice: cap out of range"); }
    r := ChunkWindows(content, fileSize, chunkSize, chunkCount, hash);
    if r.Ok? { DescribedUniform(r.value, content[..fileSize], chunkSize, hash); }
  }

  /** An overflowing count is far below zero. */
  lemma CountNegative(fileSize: nat)
    requires 0 < fileSize <= MAX_INT64 && Overflows(fileSize)
    ensures CountFor(fileSize, ChunkSize(fileSize)) < 0
  {
    var chunkSize := ChunkSize(fileSize);
    var sum := fileSize + chunkSize - 1;
    assert chunkSize <= 128 * MB && Int64(sum) == sum - 0x1_0000_0000_0000_0000;
    AtLeastOne(-Int64(sum), chunkSize);
  }

  lemma AtLeastOne(a: nat, b: nat)
    requires 0 < b <= a
    ensures a / b >= 1
  {
  }

  /** All chunks but the last have n bytes and start at multiples of n. */
  ghost predicate Uniform(chunks: seq<ChunkMeta>, n: nat, fileSize: nat) {
    && chunks != []
    && forall i :: 0 <= i < |chunks| ==>
         && chunks[i].index == i && chunks[i].offset == i * n
         && (i + 1 < |chunks| ==> chunks[i].size == n)
         && (i + 1 == |chunks| ==> 0 < chunks[i].size <= n && i * n + chunks[i].size == fileSize)
  }

  /** The table of the design: a file under 10 MB is one chunk; from there on chunks of 4, 16, 64 and 128 MB, in
      the bands that end at 100 MB, 1 GB and 10 GB. */
  ghost predicate FollowsTable(chunks: seq<ChunkMeta>, fileSize: nat) {
    && (0 < fileSize < 10_485_760 ==> |chunks| == 1 && Uniform(chunks, fileSize, fileSize))
    && (10_485_760 <= fileSize < 104_857_600 ==> Uniform(chunks, 4_194_304, fileSize))
    && (104_857_600 <= fileSize < 1_073_741_824 ==> Uniform(chunks, 16_777_216, fileSize))
    && (1_073_741_824 <= fileSize < 10_737_418_240 ==> Uniform(chunks, 67_108_864, fileSize))
    && (10_737_418_240 <= fileSize ==> Uniform(chunks, 134_217_728, fileSize))
  }

  lemma DescribedUniform(chunks: seq<ChunkMeta>, data: Bytes, n: nat, hash: Bytes -> string)
    requires n > 0 && data != [] && Describes(chunks, Split(data, n), n, hash)
    ensures Uniform(chunks, n, |data|) && (|data| <= n ==> |chunks| == 1)
  {
    var pieces := Split(data, n);
    SplitCount(data, n);
    CeilingPositive(|data|, n);
    if |data| <= n { CeilingSmall(|data|, n); }
    forall i | 0 <= i < |chunks|
      ensures chunks[i].index == i && chunks[i].offset == i * n
      ensures i + 1 < |chunks| ==> chunks[i].size == n
      ensures i + 1 == |chunks| ==> 0 < chunks[i].size <= n && i * n + chunks[i].size == |data|
    {
      SplitAt(data, n, i);
      WindowStep(|data|, n, i);
      assert |pieces[i]| == Min(i * n + n, |data|) - i * n;
      hide Split, Ceiling;
    }
  }

  /** The same for the pieces an uploader with the size table sends. */
  ghost predicate Even(pieces: seq<Bytes>, n: nat) {
    pieces != [] && forall i :: 0 <= i < |pieces| ==>
      0 < |pieces[i]| <= n && (i + 1 < |pieces| ==> |pieces[i]| == n)
  }

  /** The cut of a file by its size alone: one piece under 10 MB, pieces of 4, 16, 64 and 128 MB in the bands
      that follow, and none at all for the few largest 64-bit sizes. */
  ghost predicate CutAsTable(data: Bytes, pieces: seq<Bytes>) {
    var size := |data|;
    if size > 9_223_372_036_720_558_080 then pieces == []
    else
      && Flatten(pieces) == data
      && (size < 10_485_760 ==> pieces == [data])
      && (10_485_760 <= size < 104_857_600 ==> Even(pieces, 4_194_304))
      && (104_857_600 <= size < 1_073_741_824 ==> Even(pieces, 16_777_216))
      && (1_073_741_824 <= size < 10_737_418_240 ==> Even(pieces, 67_108_864))
      && (10_737_418_240 <= size ==> Even(pieces, 134_217_728))
  }

  /** The cut of uploadFile. */
  lemma CutBySize(data: Bytes)
    requires data != [] && |data| <= MAX_INT64
    ensures CutAsTable(data, PiecesRead(data, ChunkSize(|data|)))
  {
    var n := ChunkSize(|data|);
    if !Overflows(|data|) {
      SplitWhole(data, n);
      if |data| >= 10_485_760 { SplitEven(data, n); }
    }
    hide Flatten;
  }

  lemma SplitEven(data: Bytes, n: nat)
    requires n > 0 && data != []
    ensures Even(Split(data, n), n)
  {
    forall i | 0 <= i < |Split(data, n)|
      ensures 0 < |Split(data, n)[i]| <= n && (i + 1 < |Split(data, n)| ==> |Split(data, n)[i]| == n)
    {
      SplitAt(data, n, i);
    }
  }

  /** From 10 MB up, a larger file is never cut into smaller full pieces. */
  lemma PiecesNeverShrink(a: Bytes, b: Bytes)
    requires 10_485_760 <= |a| <= |b| <= MAX_INT64 && !Overflows(|b|)
    ensures !Overflows(|a|)
    ensures var p, q := PiecesRead(a, ChunkSize(|a|)), PiecesRead(b, ChunkSize(|b|));
            p != [] && q != [] && |p[0]| <= |q[0]|
  {
    CutBySize(a);
    CutBySize(b);
    FirstFull(a, ChunkSize(|a|));
    FirstFull(b, ChunkSize(|b|));
    hide Split;
  }

  lemma FirstFull(data: Bytes, n: nat)
    requires 0 < n <= |data|
    ensures Split(data, n) != [] && |Split(data, n)[0]| == n
  {
  }

  /** The loop of ChunkFile. */
  method ChunkWindows(content: Bytes, fileSize: nat, chunkSize: nat, chunkCount: int, hash: Bytes -> string)
    returns (r: Result<seq<ChunkMeta>>)
    requires chunkSize > 0 && fileSize > 0
    requires fileSize + chunkSize - 1 <= MAX_INT64 && chunkCount == Ceiling(fileSize, chunkSize)
    ensures r.Ok? <==> fileSize <= |content|
    ensures r.Ok? ==> Describes(r.value, Split(content[..fileSize], chunkSize), chunkSize, hash)
  {
    hide Split, Int64, Ceiling;
    ghost var whole := fileSize <= |content|;
    ghost var data := if whole then content[..fileSize] else [];
    ghost var pieces := Split(data, chunkSize);
    SplitCount(data, chunkSize);
    CeilingPositive(fileSize, chunkSize);
    var chunks: seq<ChunkMeta> := [];
    var offset, i := 0, 0;
    while i < chunkCount
      invariant 0 <= i <= chunkCount && |chunks| == i
      invariant i < chunkCount ==> offset == i * chunkSize
      invariant i == chunkCount ==> offset == fileSize
      invariant offset <= |content|
      invariant whole ==> Describes(chunks, pieces[..i], chunkSize, hash)
    {
      WindowStep(fileSize, chunkSize, i);
      WindowFits(fileSize, chunkSize, i);
      var size := chunkSize;
      Int64Small(offset + size);
      if Int64(offset + size) > fileSize { size := fileSize - offset; }
      if offset + size > |content| { return Err("short read"); }
      var piece := content[offset..offset + size];
      if whole {
        SplitAt(data, chunkSize, i);
        assert piece == data[offset..offset + size] == pieces[i];
      }
      chunks := chunks + [ChunkMeta(i, size, hash(piece), offset)];
      offset := offset + size;
      i := i + 1;
    }
    assert pieces[..|pieces|] == pieces;
    return Ok(chunks);
  }

  /** The end of every window is in the 64-bit range when the rounding sum is. */
  lemma WindowFits(fileSize: nat, chunkSize: nat, i: nat)
    requires chunkSize > 0 && fileSize + chunkSize - 1 <= MAX_INT64 && i < Ceiling(fileSize, chunkSize)
    ensures i * chunkSize + chunkSize <= MAX_INT64
  {
    assert (i + 1) * chunkSize == i * chunkSize + chunkSize;
    hide Ceiling;
    MulMonotone(i + 1, Ceiling(fileSize, chunkSize), chunkSize);
    WindowEnd(fileSize, chunkSize);
  }

  lemma CeilingPositive(n: nat, size: nat)
    requires n > 0 && size > 0
    ensures Ceiling(n, size) > 0
  {
    DivideAdd(n - 1, size);
    NotNegative(n - 1, size);
  }

  /** Where ReadChunk starts and how much it means to read, in machine arithmetic. */
  function ReadOffset(fileSize: nat, chunkIndex: int): int { Int64(chunkIndex * ChunkSize(fileSize)) }

  function ReadSize(fileSize: nat, chunkIndex: int): int {
    var offset := ReadOffset(fileSize, chunkIndex);
    if Int64(offset + ChunkSize(fileSize)) > fileSize then fileSize - offset else ChunkSize(fileSize)
  }

  /** ReadChunk. For the index of a piece it returns that piece. Any other index is an error when it
      leads before the file or past its end: a negative offset, or a panic in `make`. */
  method ReadChunk(content: Bytes, fileSize: nat, chunkIndex: int) returns (r: Result<Bytes>)
    requires fileSize <= MAX_INT64
    ensures 0 <= chunkIndex < ChunkCount(fileSize) && fileSize <= |content| ==>
              chunkIndex < |Split(content[..fileSize], ChunkSize(fileSize))|
              && r == Ok(Split(content[..fileSize], ChunkSize(fileSize))[chunkIndex])
    ensures r.Ok? <==> ReadOffset(fileSize, chunkIndex) >= 0 && ReadSize(fileSize, chunkIndex) >= 0
    ensures r.Ok? ==> |r.value| == ReadSize(fileSize, chunkIndex)
    ensures chunkIndex < 0 && chunkIndex * ChunkSize(fileSize) >= -MAX_INT64 && fileSize > 0 ==> r.Err?
    ensures chunkIndex * ChunkSize(fileSize) > fileSize && chunkIndex * ChunkSize(fileSize) + ChunkSize(fileSize) <= MAX_INT64 ==> r.Err?
  {
    ReadWindow(content, fileSize, chunkIndex);
    hide Split, Ceiling, CountFor, ChunkCount;
    var chunkSize := ChunkSize(fileSize);
    var offset := Int64(chunkIndex * chunkSize);
    var size := chunkSize;
    if Int64(offset + size) > fileSize { size := fileSize - offset; }
    if size < 0 { return Err("makeslice: len out of range"); }
    if offset < 0 { return Err("negative offset"); }
    r := Ok(ReadAt(content, offset, size));
  }

  /** For the index of a piece nothing wraps around, and the window read is the piece. */
  lemma ReadWindow(content: Bytes, fileSize: nat, chunkIndex: int)
    requires fileSize <= MAX_INT64
    ensures 0 <= chunkIndex < ChunkCount(fileSize) && fileSize <= |content| ==>
              var cut := Split(content[..fileSize], ChunkSize(fileSize));
              var offset, size := ReadOffset(fileSize, chunkIndex), ReadSize(fileSize, chunkIndex);
              && chunkIndex < |cut| && 0 <= offset && 0 <= size && offset + size <= fileSize
              && cut[chunkIndex] == content[offset..offset + size]
    ensures chunkIndex < 0 && chunkIndex * ChunkSize(fileSize) >= -MAX_INT64 && fileSize > 0 ==> ReadOffset(fileSize, chunkIndex) < 0
    ensures chunkIndex * ChunkSize(fileSize) > fileSize && chunkIndex * ChunkSize(fileSize) + ChunkSize(fileSize) <= MAX_INT64 ==>
              ReadSize(fileSize, chunkIndex) < 0
  {
    var chunkSize := ChunkSize(fileSize);
    if 0 <= chunkIndex < ChunkCount(fileSize) && fileSize <= |content| {
      CountExact(fileSize, chunkSize);
      WindowBounds(fileSize, chunkSize, chunkIndex);
      WindowFits(fileSize, chunkSize, chunkIndex);
      Int64Small(chunkIndex * chunkSize);
      Int64Small(chunkIndex * chunkSize + chunkSize);
      SplitCount(content[..fileSize], chunkSize);
      SplitAt(content[..fileSize], chunkSize, chunkIndex);
      hide Split, Ceiling, CountFor, Int64;
      var offset := chunkIndex * chunkSize;
      assert content[..fileSize][offset..Min(offset + chunkSize, fileSize)] == content[offset..Min(offset + chunkSize, fileSize)];
    }
    if chunkIndex < 0 && fileSize > 0 { MulNegative(chunkIndex, chunkSize); }
  }

  lemma MulNegative(a: int, b: int)
    requires a < 0 && b > 0
    ensures a * b < 0
  {
  }

  /** How many pieces an uploader's loop reads: all of them, or, when the rounding sum overflows,
      none at all. */
  function PiecesRead(content: Bytes, chunkSize: nat): seq<Bytes>
    requires chunkSize > 0
  {
    if |content| + chunkSize - 1 <= MAX_INT64 then Split(content, chunkSize) else []
  }

  lemma PiecesCounted(content: Bytes, chunkSize: nat)
    requires 0 < chunkSize <= MAX_INT64 && |content| <= MAX_INT64
    ensures if |PiecesRead(content, chunkSize)| == 0 then CountFor(|content|, chunkSize) <= 0
            else CountFor(|content|, chunkSize) == |PiecesRead(content, chunkSize)|
  {
    CountExact(|content|, chunkSize);
    SplitCount(content, chunkSize);
  }

  /** The chunk size of a file with content, and where reading it starts. */
  lemma SizeInRange(content: Bytes)
    requires content != [] && |content| <= MAX_INT64
    ensures 0 < ChunkSize(|content|) <= MAX_INT64 && Position(content, ChunkSize(|content|), 0) == 0
  {
  }

  lemma PiecesAreCut(content: Bytes, chunkSize: nat, i: nat)
    requires chunkSize > 0 && i < |PiecesRead(content, chunkSize)|
    ensures PiecesRead(content, chunkSize) == Split(content, chunkSize)
  {
  }

  /** One read of the client's Upload: piece number i, by its offset. */
  method ReadPiece(content: Bytes, chunkSize: nat, i: nat) returns (piece: Bytes)
    requires 0 < chunkSize <= MAX_INT64 && |content| <= MAX_INT64
    requires i < |PiecesRead(content, chunkSize)|
    ensures piece == PiecesRead(content, chunkSize)[i]
  {
    PieceWindow(content, chunkSize, i);
    hide PiecesRead, Int64;
    var offset := i * chunkSize;
    var size := chunkSize;
    Int64Small(offset + size);
    if Int64(offset + size) > |content| { size := |content| - offset; }
    piece := ReadAt(content, offset, size);
  }

  /** Piece i is a window of the file whose end the machine computes without overflow. */
  lemma PieceWindow(content: Bytes, chunkSize: nat, i: nat)
    requires 0 < chunkSize <= MAX_INT64 && |content| <= MAX_INT64
    requires i < |PiecesRead(content, chunkSize)|
    ensures 0 <= i * chunkSize < |content| && i * chunkSize + chunkSize <= MAX_INT64
    ensures PiecesRead(content, chunkSize)[i] == content[i * chunkSize..Min(i * chunkSize + chunkSize, |content|)]
  {
    SplitCount(content, chunkSize);
    SplitAt(content, chunkSize, i);
    WindowBounds(|content|, chunkSize, i);
    WindowFits(|content|, chunkSize, i);
    hide Split, Ceiling;
  }

  lemma WindowEnd(fileSize: nat, chunkSize: nat)
    requires chunkSize > 0
    ensures Ceiling(fileSize, chunkSize) * chunkSize <= fileSize + chunkSize - 1
  {
    var q, r := (fileSize + chunkSize - 1) / chunkSize, (fileSize + chunkSize - 1) % chunkSize;
    assert fileSize + chunkSize - 1 == q * chunkSize + r;
  }

  /** io.ReadFull from position `pos`: fill the buffer as far as the file goes. */
  method ReadFull(content: Bytes, pos: nat, buffer: array<Byte>) returns (n: nat)
    requires pos <= |content|
    modifies buffer
    ensures n == Min(buffer.Length, |content| - pos)
    ensures buffer[..n] == content[pos..pos + n]
  {
    n := 0;
    while n < buffer.Length && pos + n < |content|
      invariant n <= buffer.Length && pos + n <= |content|
      invariant buffer[..n] == content[pos..pos + n]
    {
      buffer[n] := content[pos + n];
      n := n + 1;
    }
  }

  /** Where the file stands after i buffers. */
  function Position(content: Bytes, chunkSize: nat, i: nat): nat {
    Min(i * chunkSize, |content|)
  }

  /** Reading the next full buffer of a file already read up to piece i gives piece i. */
  method ReadNext(content: Bytes, chunkSize: nat, i: nat, pos: nat, buffer: array<Byte>) returns (n: nat)
    requires chunkSize > 0 && i < |Split(content, chunkSize)| && buffer.Length == chunkSize
    requires pos == Position(content, chunkSize, i)
    modifies buffer
    ensures 0 < n <= buffer.Length && buffer[..n] == Split(content, chunkSize)[i]
    ensures pos + n == Position(content, chunkSize, i + 1)
  {
    SplitAt(content, chunkSize, i);
    assert (i + 1) * chunkSize == i * chunkSize + chunkSize;
    n := ReadFull(content, pos, buffer);
  }
}
