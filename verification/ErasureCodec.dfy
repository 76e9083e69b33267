/**
 The Reed-Solomon codec: an object is cut into k zero-padded data shards, and m
 parity shards are appended.
 */
module ErasureCodec {
  import opened Wrappers
  import opened GF256
  import opened Linear

  type Bytes = seq<Byte>

  const MAX_TOTAL_SHARDS: nat := 255
  const INT_MAX: nat := 0x7fff_ffff

  datatype ErasureSpec = ErasureSpec(dataShards: nat, parityShards: nat, shardSize: nat) {
    function Total(): nat {
      dataShards + parityShards
    }
  }

  datatype PlainShard = PlainShard(index: nat, bytes: Bytes)

  datatype CodecError =
    | NoDataShards
    | NoParityShards
    | TooManyShards
    | ZeroShardSize
    | ShardSizeTooLarge
    | DataTooLarge
    | TooFewShards
    | OriginalSizeTooLarge
    | IndexOutOfRange
    | WrongShardSize
    | NotEnoughUniqueShards
    | InversionFailed

  /* ---------- ISA-L ---------- */

  /**
   gf_gen_rs_matrix(n, k) and gf_invert_matrix. The library is a parameter that satisfies its
   documented contract, which allows an inversion to fail, as the library's own does for some
   combinations of k, m and surviving shards.
   */
  datatype Library = Library(generator: (nat, nat) -> Matrix, invert: Matrix -> Option<Matrix>)

  ghost predicate GeneratorContract(g: Matrix, n: nat, k: nat) {
    Shape(g, n, k) && forall i {:trigger g[i]} :: 0 <= i < k && i < n ==> g[i] == Unit(k, i)
  }

  ghost predicate Contract(isal: Library) {
    && (forall n: nat, k: nat {:trigger isal.generator(n, k)} :: GeneratorContract(isal.generator(n, k), n, k))
    && (forall b: Matrix {:trigger isal.invert(b)} ::
          Shape(b, |b|, |b|) && isal.invert(b).Some? ==> IsInverse(isal.invert(b).value, b, |b|))
  }

  function UnitRows(n: nat, k: nat): (g: Matrix)
    ensures GeneratorContract(g, n, k)
  {
    seq(n, i requires 0 <= i < n => Unit(k, i))
  }

  /** A library that meets the contract: no real parity, and every inversion fails. */
  ghost function WeakestLibrary(): (isal: Library)
    ensures Contract(isal)
  {
    Library((n: nat, k: nat) => UnitRows(n, k), b => None)
  }

  type Isal = isal: Library | Contract(isal) ghost witness WeakestLibrary()

  /** Byte p of every row, as a column. */
  function Column(rows: seq<Bytes>, size: nat, p: nat): (d: Vector)
    requires p < size && forall i :: 0 <= i < |rows| ==> |rows[i]| == size
    ensures |d| == |rows|
  {
    seq(|rows|, i requires 0 <= i < |rows| => rows[i][p])
  }

  /** One output buffer of ec_encode_data: a coefficient row times every column of the sources. */
  function RowTimes(row: Vector, sources: seq<Bytes>, size: nat): (out: Bytes)
    requires |row| == |sources| && forall i :: 0 <= i < |sources| ==> |sources[i]| == size
    ensures |out| == size
  {
    seq(size, p requires 0 <= p < size => Dot(row, Column(sources, size, p)))
  }

  /** ec_encode_data: one output buffer for each coefficient row. */
  function EncodeData(rows: Matrix, sources: seq<Bytes>, size: nat): (outs: seq<Bytes>)
    requires forall i :: 0 <= i < |rows| ==> |rows[i]| == |sources|
    requires forall i :: 0 <= i < |sources| ==> |sources[i]| == size
    ensures |outs| == |rows| && forall i :: 0 <= i < |outs| ==> |outs[i]| == size
  {
    seq(|rows|, i requires 0 <= i < |rows| => RowTimes(rows[i], sources, size))
  }

  /* ---------- What is encoded ---------- */

  /** Data shard i: bytes i*size onwards, padded with zeros. */
  function Chunk(data: Bytes, size: nat, i: nat): (c: Bytes)
    ensures |c| == size
  {
    seq(size, p requires 0 <= p < size => if i * size + p < |data| then data[i * size + p] else 0)
  }

  function Chunks(data: Bytes, size: nat, k: nat): (rows: seq<Bytes>)
    ensures |rows| == k && forall i :: 0 <= i < k ==> |rows[i]| == size
  {
    seq(k, i requires 0 <= i < k => Chunk(data, size, i))
  }

  function Flatten(rows: seq<Bytes>): Bytes {
    if rows == [] then [] else Flatten(rows[..|rows| - 1]) + rows[|rows| - 1]
  }

  predicate ValidSpec(spec: ErasureSpec) {
    && spec.dataShards > 0
    && spec.parityShards > 0
    && spec.Total() <= MAX_TOTAL_SHARDS
    && 0 < spec.shardSize <= INT_MAX
  }

  predicate Fits(data: Bytes, spec: ErasureSpec) {
    ValidSpec(spec) && |data| <= spec.dataShards * spec.shardSize
  }

  /** Shard i of the code word: generator row i times the data shards. */
  function CodeShard(isal: Isal, data: Bytes, spec: ErasureSpec, i: nat): (bytes: Bytes)
    requires i < spec.Total()
    ensures |bytes| == spec.shardSize
  {
    assert GeneratorContract(isal.generator(spec.Total(), spec.dataShards), spec.Total(), spec.dataShards);
    RowTimes(isal.generator(spec.Total(), spec.dataShards)[i],
             Chunks(data, spec.shardSize, spec.dataShards), spec.shardSize)
  }

  function CodeWord(isal: Isal, data: Bytes, spec: ErasureSpec): (shards: seq<PlainShard>)
    ensures |shards| == spec.Total()
  {
    seq(spec.Total(), i requires 0 <= i < spec.Total() => PlainShard(i, CodeShard(isal, data, spec, i)))
  }

  function EncodeError(size: nat, spec: ErasureSpec): (e: Option<CodecError>)
    ensures e == None <==> ValidSpec(spec) && size <= spec.dataShards * spec.shardSize
  {
    if spec.dataShards == 0 then Some(NoDataShards)
    else if spec.parityShards == 0 then Some(NoParityShards)
    else if spec.Total() > MAX_TOTAL_SHARDS then Some(TooManyShards)
    else if spec.shardSize == 0 then Some(ZeroShardSize)
    else if spec.shardSize > INT_MAX then Some(ShardSizeTooLarge)
    else if size > spec.dataShards * spec.shardSize then Some(DataTooLarge)
    else None
  }

  function Encoded(isal: Isal, data: Bytes, spec: ErasureSpec): Result<seq<PlainShard>, CodecError> {
    match EncodeError(|data|, spec)
    case Some(e) => Err(e)
    case None => Ok(CodeWord(isal, data, spec))
  }

  /** A data shard of the code word is the chunk itself. */
  lemma DataShardIsChunk(isal: Isal, data: Bytes, spec: ErasureSpec, i: nat)
    requires i < spec.dataShards
    ensures CodeShard(isal, data, spec, i) == Chunk(data, spec.shardSize, i)
  {
    var k, size := spec.dataShards, spec.shardSize;
    assert GeneratorContract(isal.generator(spec.Total(), k), spec.Total(), k);
    forall p | 0 <= p < size
      ensures CodeShard(isal, data, spec, i)[p] == Chunk(data, size, i)[p]
    {
      DotUnit(k, i, Column(Chunks(data, size, k), size, p));
    }
  }

  lemma {:induction false} FlattenLength(rows: seq<Bytes>, size: nat)
    requires forall i :: 0 <= i < |rows| ==> |rows[i]| == size
    ensures |Flatten(rows)| == |rows| * size
  {
    if rows == [] {
    } else {
      FlattenLength(rows[..|rows| - 1], size);
      assert (|rows| - 1) * size + size == |rows| * size;
    }
  }

  /** The concatenated chunks are the data followed by zeros. */
  lemma {:induction false} FlattenChunks(data: Bytes, size: nat, k: nat)
    ensures |Flatten(Chunks(data, size, k))| == k * size
    ensures forall q {:trigger Flatten(Chunks(data, size, k))[q]} :: 0 <= q < k * size ==>
      Flatten(Chunks(data, size, k))[q] == if q < |data| then data[q] else 0
  {
    if k == 0 {
    } else {
      var front := Chunks(data, size, k - 1);
      assert Chunks(data, size, k)[..k - 1] == front;
      FlattenChunks(data, size, k - 1);
      assert (k - 1) * size + size == k * size;
    }
  }

  /* ---------- Encoding ---------- */

  /** memcpy to the front of a shard buffer. */
  method CopyInto(buffer: array<Byte>, chunk: Bytes)
    requires |chunk| <= buffer.Length
    modifies buffer
    ensures forall p :: 0 <= p < buffer.Length ==> buffer[p] == if p < |chunk| then chunk[p] else old(buffer[p])
  {
    for i := 0 to |chunk|
      invariant forall p :: 0 <= p < buffer.Length ==> buffer[p] == if p < i then chunk[p] else old(buffer[p])
    {
      buffer[i] := chunk[i];
    }
  }

  /** The data shards: each buffer starts as zeros and takes its part of the data. */
  method FillDataShards(data: Bytes, size: nat, k: nat) returns (rows: seq<Bytes>)
    ensures rows == Chunks(data, size, k)
  {
    rows := [];
    for i := 0 to k
      invariant rows == Chunks(data, size, i)
    {
      var buffer := new Byte[size](_ => 0);
      var offset := i * size;
      var remaining := if offset < |data| then |data| - offset else 0;
      var copyLen := if size <= remaining then size else remaining;
      if copyLen > 0 {
        CopyInto(buffer, data[offset..offset + copyLen]);
      }
      assert buffer[..] == Chunk(data, size, i);
      rows := rows + [buffer[..]];
    }
  }

  /** The chunks, followed by the parity rows times the chunks, are the code word. */
  lemma ChunksAndParity(isal: Isal, data: Bytes, spec: ErasureSpec, rows: seq<Bytes>, parity: seq<Bytes>)
    requires rows == Chunks(data, spec.shardSize, spec.dataShards)
    requires parity == Parity(isal, spec, rows)
    ensures |rows + parity| == spec.Total()
    ensures forall i :: 0 <= i < spec.Total() ==> (rows + parity)[i] == CodeShard(isal, data, spec, i)
  {
    assert GeneratorContract(isal.generator(spec.Total(), spec.dataShards), spec.Total(), spec.dataShards);
    forall i | 0 <= i < spec.Total()
      ensures (rows + parity)[i] == CodeShard(isal, data, spec, i)
    {
      if i < spec.dataShards {
        DataShardIsChunk(isal, data, spec, i);
      }
    }
  }

  /** ec_encode_data over the generator rows below the identity. */
  function Parity(isal: Isal, spec: ErasureSpec, rows: seq<Bytes>): (parity: seq<Bytes>)
    requires |rows| == spec.dataShards && forall i :: 0 <= i < |rows| ==> |rows[i]| == spec.shardSize
    ensures |parity| == spec.parityShards
  {
    var matrix := isal.generator(spec.Total(), spec.dataShards);
    assert GeneratorContract(matrix, spec.Total(), spec.dataShards);
    EncodeData(matrix[spec.dataShards..], rows, spec.shardSize)
  }

  method EncodeShards(isal: Isal, data: Bytes, spec: ErasureSpec) returns (shards: seq<PlainShard>)
    ensures shards == CodeWord(isal, data, spec)
  {
    var rows := FillDataShards(data, spec.shardSize, spec.dataShards);
    var parity := Parity(isal, spec, rows);
    var buffers := rows + parity;
    ChunksAndParity(isal, data, spec, rows, parity);
    shards := [];
    for i := 0 to spec.Total()
      invariant |shards| == i
      invariant forall j :: 0 <= j < i ==> shards[j] == PlainShard(j, buffers[j])
    {
      shards := shards + [PlainShard(i, buffers[i])];
    }
  }

  /** Byte p of every piece of the padded data: what one column of the code is computed from. */
  function DataColumn(data: Bytes, size: nat, k: nat, p: nat): (d: Vector)
    ensures |d| == k
  {
    seq(k, i requires 0 <= i < k => if i * size + p < |data| then data[i * size + p] else 0)
  }

  /** Byte p of shard i of the code word is generator row i times the column of the data. */
  lemma CodeShardBytes(isal: Isal, data: Bytes, spec: ErasureSpec, i: nat, p: nat)
    requires i < spec.Total() && p < spec.shardSize
    ensures GeneratorContract(isal.generator(spec.Total(), spec.dataShards), spec.Total(), spec.dataShards)
    ensures CodeShard(isal, data, spec, i)[p]
         == Dot(isal.generator(spec.Total(), spec.dataShards)[i], DataColumn(data, spec.shardSize, spec.dataShards, p))
  {
    assert GeneratorContract(isal.generator(spec.Total(), spec.dataShards), spec.Total(), spec.dataShards);
    assert Column(Chunks(data, spec.shardSize, spec.dataShards), spec.shardSize, p)
        == DataColumn(data, spec.shardSize, spec.dataShards, p);
  }

  /** The same of all shards: indices in order, and every byte a generator row times a column of the data. */
  lemma CodeWordBytes(isal: Isal, data: Bytes, spec: ErasureSpec)
    ensures var k, n, word := spec.dataShards, spec.Total(), CodeWord(isal, data, spec);
      var rows := isal.generator(n, k);
      && |rows| == n
      && forall i {:trigger word[i]} :: 0 <= i < n ==>
           word[i].index == i && |word[i].bytes| == spec.shardSize && |rows[i]| == k
           && forall p :: 0 <= p < spec.shardSize ==> word[i].bytes[p] == Dot(rows[i], DataColumn(data, spec.shardSize, k, p))
  {
    var k, n, word := spec.dataShards, spec.Total(), CodeWord(isal, data, spec);
    assert GeneratorContract(isal.generator(n, k), n, k);
    forall i, p | 0 <= i < n && 0 <= p < spec.shardSize
      ensures word[i].bytes[p] == Dot(isal.generator(n, k)[i], DataColumn(data, spec.shardSize, k, p))
    {
      CodeShardBytes(isal, data, spec, i, p);
    }
  }

  lemma DataBytes(isal: Isal, data: Bytes, spec: ErasureSpec)
    ensures forall i, p :: 0 <= i < spec.dataShards && 0 <= p < spec.shardSize ==>
      CodeWord(isal, data, spec)[i].bytes[p] == DataColumn(data, spec.shardSize, spec.dataShards, p)[i]
  {
    forall i | 0 <= i < spec.dataShards {
      DataShardIsChunk(isal, data, spec, i);
    }
  }

  /**
   Each input error in the source's order. Otherwise k + m shards, shard i with index i: a data shard
   is its piece of the data, padded with zeros, and byte p of any shard is its own generator row
   times byte p of the pieces.
   */
  method Encode(isal: Isal, data: Bytes, spec: ErasureSpec) returns (r: Result<seq<PlainShard>, CodecError>)
    ensures r == Encoded(isal, data, spec)
    ensures var k, m, size := spec.dataShards, spec.parityShards, spec.shardSize;
      && (r == Err(NoDataShards) <==> k == 0)
      && (r == Err(NoParityShards) <==> k > 0 && m == 0)
      && (r == Err(TooManyShards) <==> k > 0 && m > 0 && k + m > 255)
      && (r == Err(ZeroShardSize) <==> k > 0 && m > 0 && k + m <= 255 && size == 0)
      && (r == Err(ShardSizeTooLarge) <==> k > 0 && m > 0 && k + m <= 255 && size > 0x7fff_ffff)
      && (r == Err(DataTooLarge) <==> k > 0 && m > 0 && k + m <= 255 && 0 < size <= 0x7fff_ffff && |data| > k * size)
      && (r.Ok? <==> k > 0 && m > 0 && k + m <= 255 && 0 < size <= 0x7fff_ffff && |data| <= k * size)
      && (r.Ok? <==> Fits(data, spec))
    ensures r.Ok? ==>
      var k, n := spec.dataShards, spec.dataShards + spec.parityShards;
      var rows := isal.generator(n, k);
      && |r.value| == |rows| == n
      && forall i {:trigger r.value[i]} :: 0 <= i < n ==>
           r.value[i].index == i && |r.value[i].bytes| == spec.shardSize && |rows[i]| == k
           && forall p :: 0 <= p < spec.shardSize ==> r.value[i].bytes[p] == Dot(rows[i], DataColumn(data, spec.shardSize, k, p))
    ensures r.Ok? ==> forall i, p :: 0 <= i < spec.dataShards && 0 <= p < spec.shardSize ==>
      r.value[i].bytes[p] == DataColumn(data, spec.shardSize, spec.dataShards, p)[i]
  {
    var k, m, size := spec.dataShards, spec.parityShards, spec.shardSize;
    if k == 0 { return Err(NoDataShards); }
    if m == 0 { return Err(NoParityShards); }
    if k + m > MAX_TOTAL_SHARDS { return Err(TooManyShards); }
    if size == 0 { return Err(ZeroShardSize); }
    if size > INT_MAX { return Err(ShardSizeTooLarge); }
    if |data| > k * size { return Err(DataTooLarge); }

    var shards := EncodeShards(isal, data, spec);
    CodeWordBytes(isal, data, spec);
    DataBytes(isal, data, spec);
    return Ok(shards);
  }
}
