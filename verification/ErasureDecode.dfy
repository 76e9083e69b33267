/**
 Decoding: fast path, or reconstruction of the missing data shards only, proved
 equal to a simple form that recomputes every data shard.
 */
module ErasureDecode {
  import opened Wrappers
  import opened Collections
  import opened Linear
  import opened ErasureCodec

  /** The bytes of the first shard in the list with index i. */
  function FirstCopy(shards: seq<PlainShard>, i: nat): Option<Bytes> {
    if shards == [] then None
    else
      var before := FirstCopy(shards[..|shards| - 1], i);
      var last := shards[|shards| - 1];
      if before.Some? then before
      else if last.index == i then Some(last.bytes)
      else None
  }

  /** The error for the first shard in the list that cannot belong to the object. */
  function ShardError(shards: seq<PlainShard>, n: nat, size: nat): Option<CodecError> {
    if shards == [] then None
    else
      var before := ShardError(shards[..|shards| - 1], n, size);
      var last := shards[|shards| - 1];
      if before.Some? then before
      else if last.index >= n then Some(IndexOutOfRange)
      else if |last.bytes| != size then Some(WrongShardSize)
      else None
  }

  ghost predicate WellSized(shards: seq<PlainShard>, n: nat, size: nat) {
    forall j {:trigger shards[j]} :: 0 <= j < |shards| ==> shards[j].index < n && |shards[j].bytes| == size
  }

  /** The indices below n that have a shard, in ascending order. */
  function Present(shards: seq<PlainShard>, n: nat): (list: seq<nat>)
    ensures forall j {:trigger list[j]} :: 0 <= j < |list| ==> list[j] < n
  {
    if n == 0 then []
    else Present(shards, n - 1) + (if FirstCopy(shards, n - 1).Some? then [n - 1] else [])
  }

  predicate AllDataPresent(shards: seq<PlainShard>, k: nat) {
    forall i :: 0 <= i < k ==> FirstCopy(shards, i).Some?
  }

  /** The shards that take part in a reconstruction: data shards first, then parity. */
  function Selected(shards: seq<PlainShard>, spec: ErasureSpec): seq<nat> {
    Take(Present(shards, spec.Total()), spec.dataShards)
  }

  function DecodeError(count: nat, originalSize: nat, spec: ErasureSpec): (e: Option<CodecError>)
    ensures e == None ==> ValidSpec(spec) && count >= spec.dataShards && originalSize <= spec.dataShards * spec.shardSize
  {
    if spec.dataShards == 0 then Some(NoDataShards)
    else if spec.parityShards == 0 then Some(NoParityShards)
    else if spec.Total() > MAX_TOTAL_SHARDS then Some(TooManyShards)
    else if spec.shardSize == 0 then Some(ZeroShardSize)
    else if spec.shardSize > INT_MAX then Some(ShardSizeTooLarge)
    else if count < spec.dataShards then Some(TooFewShards)
    else if originalSize > spec.dataShards * spec.shardSize then Some(OriginalSizeTooLarge)
    else None
  }

  /** The generator rows of the selected shards. */
  function SelectedRows(isal: Isal, spec: ErasureSpec, selected: seq<nat>): (b: Matrix)
    requires forall j :: 0 <= j < |selected| ==> selected[j] < spec.Total()
    ensures Shape(b, |selected|, spec.dataShards)
  {
    assert GeneratorContract(isal.generator(spec.Total(), spec.dataShards), spec.Total(), spec.dataShards);
    seq(|selected|, j requires 0 <= j < |selected| => isal.generator(spec.Total(), spec.dataShards)[selected[j]])
  }

  /** The bytes of the given shards. */
  function Payloads(shards: seq<PlainShard>, indices: seq<nat>): (rows: seq<Bytes>)
    requires forall j :: 0 <= j < |indices| ==> FirstCopy(shards, indices[j]).Some?
    ensures |rows| == |indices|
  {
    seq(|indices|, j requires 0 <= j < |indices| => FirstCopy(shards, indices[j]).value)
  }

  /** Shard j is the first in the list with index i. */
  ghost predicate IsFirstOf(shards: seq<PlainShard>, i: nat, j: nat)
    requires j < |shards|
  {
    shards[j].index == i && forall l :: 0 <= l < j ==> shards[l].index != i
  }

  lemma {:induction false} FirstCopyMember(shards: seq<PlainShard>, i: nat)
    ensures FirstCopy(shards, i).Some? ==>
      exists j :: 0 <= j < |shards| && IsFirstOf(shards, i, j) && shards[j].bytes == FirstCopy(shards, i).value
    ensures FirstCopy(shards, i) == None ==> forall j :: 0 <= j < |shards| ==> shards[j].index != i
  {
    if shards == [] {
    } else {
      var front, last := shards[..|shards| - 1], shards[|shards| - 1];
      FirstCopyMember(front, i);
      if FirstCopy(front, i).Some? {
        var j :| 0 <= j < |front| && IsFirstOf(front, i, j) && front[j].bytes == FirstCopy(front, i).value;
        assert IsFirstOf(shards, i, j);
      } else {
        assert forall j :: 0 <= j < |front| ==> shards[j] == front[j];
        assert last.index == i ==> IsFirstOf(shards, i, |shards| - 1);
      }
    }
  }

  /** Shard j is the first in the list that cannot belong to the object. */
  ghost predicate IsFirstBad(shards: seq<PlainShard>, n: nat, size: nat, j: nat)
    requires j < |shards|
  {
    && (shards[j].index >= n || |shards[j].bytes| != size)
    && forall l :: 0 <= l < j ==> shards[l].index < n && |shards[l].bytes| == size
  }

  lemma FirstBadLonger(shards: seq<PlainShard>, n: nat, size: nat, j: nat)
    requires j < |shards| - 1 && IsFirstBad(shards[..|shards| - 1], n, size, j)
    ensures IsFirstBad(shards, n, size, j)
  {
    assert forall l :: 0 <= l < |shards| - 1 ==> shards[..|shards| - 1][l] == shards[l];
  }

  lemma LastIsFirstBad(shards: seq<PlainShard>, n: nat, size: nat)
    requires shards != [] && WellSized(shards[..|shards| - 1], n, size) && !WellSized(shards, n, size)
    ensures IsFirstBad(shards, n, size, |shards| - 1)
  {
    assert forall l :: 0 <= l < |shards| - 1 ==> shards[..|shards| - 1][l] == shards[l];
  }

  /** The error is that of the first bad shard, its index before its size. */
  lemma {:induction false} ShardErrorIsFirst(shards: seq<PlainShard>, n: nat, size: nat) returns (j: nat)
    ensures ShardError(shards, n, size).Some? ==>
      j < |shards| && IsFirstBad(shards, n, size, j)
      && ShardError(shards, n, size).value == if shards[j].index >= n then IndexOutOfRange else WrongShardSize
  {
    j := 0;
    if shards != [] {
      var front := shards[..|shards| - 1];
      j := ShardErrorIsFirst(front, n, size);
      ShardErrorMeaning(front, n, size);
      ShardErrorMeaning(shards, n, size);
      hide IsFirstBad, WellSized;
      if ShardError(front, n, size).Some? {
        FirstBadLonger(shards, n, size, j);
      } else if ShardError(shards, n, size).Some? {
        j := |shards| - 1;
        LastIsFirstBad(shards, n, size);
      }
    }
  }

  lemma {:induction false} ShardErrorMeaning(shards: seq<PlainShard>, n: nat, size: nat)
    ensures ShardError(shards, n, size) == None <==> WellSized(shards, n, size)
  {
    if shards == [] {
    } else {
      var front, last := shards[..|shards| - 1], shards[|shards| - 1];
      ShardErrorMeaning(front, n, size);
      assert forall j :: 0 <= j < |front| ==> shards[j] == front[j];
    }
  }

  lemma {:induction false} PresentMeaning(shards: seq<PlainShard>, n: nat)
    ensures forall i :: i in Present(shards, n) <==> 0 <= i < n && FirstCopy(shards, i).Some?
    ensures NoDup(Present(shards, n)) && Ascending(Present(shards, n))
    ensures |Present(shards, n)| <= n
  {
    if n > 0 {
      PresentMeaning(shards, n - 1);
    }
  }

  ghost predicate Ascending(s: seq<nat>) {
    forall i, j :: 0 <= i < j < |s| ==> s[i] < s[j]
  }

  /** Present indices below k come first. */
  lemma {:induction false} PresentPrefix(shards: seq<PlainShard>, k: nat, n: nat)
    requires k <= n
    ensures Present(shards, k) <= Present(shards, n)
  {
    if k < n {
      PresentPrefix(shards, k, n - 1);
    }
  }

  lemma {:induction false} SelectedMeaning(shards: seq<PlainShard>, spec: ErasureSpec)
    ensures forall j {:trigger Selected(shards, spec)[j]} :: 0 <= j < |Selected(shards, spec)| ==>
      Selected(shards, spec)[j] < spec.Total() && FirstCopy(shards, Selected(shards, spec)[j]).Some?
    ensures forall i :: 0 <= i < spec.dataShards && FirstCopy(shards, i).Some? ==> i in Selected(shards, spec)
  {
    var k, n := spec.dataShards, spec.Total();
    PresentMeaning(shards, n);
    PresentMeaning(shards, k);
    PresentPrefix(shards, k, n);
    var p, s := Present(shards, n), Selected(shards, spec);
    forall j | 0 <= j < |s|
      ensures s[j] < n && FirstCopy(shards, s[j]).Some?
    {
      assert s[j] == p[j] && p[j] in p;
    }
    forall i | 0 <= i < k && FirstCopy(shards, i).Some?
      ensures i in s
    {
      assert i in Present(shards, k);
      var j :| 0 <= j < |Present(shards, k)| && Present(shards, k)[j] == i;
      assert s[j] == i;
    }
  }

  lemma {:induction false} PayloadSizes(shards: seq<PlainShard>, indices: seq<nat>, n: nat, size: nat)
    requires WellSized(shards, n, size)
    requires forall j :: 0 <= j < |indices| ==> FirstCopy(shards, indices[j]).Some?
    ensures forall j :: 0 <= j < |indices| ==> |Payloads(shards, indices)[j]| == size
  {
    forall j | 0 <= j < |indices|
      ensures |Payloads(shards, indices)[j]| == size
    {
      FirstCopyMember(shards, indices[j]);
    }
  }

  /** Every data shard recomputed from the inverse and the selected shards. */
  function Recovered(shards: seq<PlainShard>, spec: ErasureSpec, w: Matrix): (rows: seq<Bytes>)
    requires WellSized(shards, spec.Total(), spec.shardSize)
    requires |Selected(shards, spec)| == spec.dataShards
    requires Shape(w, spec.dataShards, spec.dataShards)
    ensures |rows| == spec.dataShards && forall i :: 0 <= i < |rows| ==> |rows[i]| == spec.shardSize
  {
    SelectedMeaning(shards, spec);
    PayloadSizes(shards, Selected(shards, spec), spec.Total(), spec.shardSize);
    EncodeData(w, Payloads(shards, Selected(shards, spec)), spec.shardSize)
  }

  /** The inverse of the selected generator rows, if the library finds it. */
  function Inverse(isal: Isal, shards: seq<PlainShard>, spec: ErasureSpec): (w: Option<Matrix>)
    requires |Selected(shards, spec)| == spec.dataShards
    ensures w.Some? ==> Shape(w.value, spec.dataShards, spec.dataShards)
  {
    SelectedMeaning(shards, spec);
    isal.invert(SelectedRows(isal, spec, Selected(shards, spec)))
  }

  function FirstNaturals(k: nat): seq<nat> {
    seq(k, i requires 0 <= i < k => i)
  }

  function DataRows(isal: Isal, shards: seq<PlainShard>, spec: ErasureSpec): (r: Result<seq<Bytes>, CodecError>)
    requires WellSized(shards, spec.Total(), spec.shardSize)
    ensures r.Ok? ==> |r.value| == spec.dataShards && forall i :: 0 <= i < |r.value| ==> |r.value[i]| == spec.shardSize
  {
    if AllDataPresent(shards, spec.dataShards) then
      PayloadSizes(shards, FirstNaturals(spec.dataShards), spec.Total(), spec.shardSize);
      Ok(Payloads(shards, FirstNaturals(spec.dataShards)))
    else if |Selected(shards, spec)| < spec.dataShards then Err(NotEnoughUniqueShards)
    else match Inverse(isal, shards, spec)
      case None => Err(InversionFailed)
      case Some(w) => Ok(Recovered(shards, spec, w))
  }

  /**
   The simple form. The first copy of each shard counts; when every data shard is there they are
   concatenated; otherwise k shards are chosen, their generator rows are inverted, and every data
   shard is recomputed. The method Decode follows the source and returns the same on every input.
   */
  function Decoded(isal: Isal, shards: seq<PlainShard>, spec: ErasureSpec, originalSize: nat): Result<Bytes, CodecError> {
    match DecodeError(|shards|, originalSize, spec)
    case Some(e) => Err(e)
    case None =>
      match ShardError(shards, spec.Total(), spec.shardSize)
      case Some(e) => Err(e)
      case None =>
        ShardErrorMeaning(shards, spec.Total(), spec.shardSize);
        match DataRows(isal, shards, spec)
        case Err(e) => Err(e)
        case Ok(rows) =>
          FlattenLength(rows, spec.shardSize);
          Ok(Flatten(rows)[..originalSize])
  }

  /* ---------- Round trip ---------- */

  function Indices(shards: seq<PlainShard>): set<nat> {
    set j | 0 <= j < |shards| :: shards[j].index
  }

  /** Every shard is some shard of the code word, in any order and with any repetition. */
  ghost predicate DrawnFrom(isal: Isal, data: Bytes, spec: ErasureSpec, shards: seq<PlainShard>) {
    forall j {:trigger shards[j]} :: 0 <= j < |shards| ==>
      shards[j].index < spec.Total() && shards[j].bytes == CodeShard(isal, data, spec, shards[j].index)
  }

  lemma {:induction false} FirstCopyDrawn(isal: Isal, data: Bytes, spec: ErasureSpec, shards: seq<PlainShard>, i: nat)
    requires DrawnFrom(isal, data, spec, shards)
    requires FirstCopy(shards, i).Some?
    ensures i < spec.Total() && FirstCopy(shards, i).value == CodeShard(isal, data, spec, i)
  {
    FirstCopyMember(shards, i);
  }

  /** There are as many present indices as distinct indices. */
  lemma {:induction false} PresentCount(shards: seq<PlainShard>, n: nat)
    requires forall j :: 0 <= j < |shards| ==> shards[j].index < n
    ensures |Present(shards, n)| == |Indices(shards)| <= |shards|
  {
    var p := Present(shards, n);
    PresentMeaning(shards, n);
    NoDupCardinality(p);
    assert Elems(p) == Indices(shards) by {
      forall i | i in Indices(shards)
        ensures i in p
      {
        FirstCopyMember(shards, i);
      }
      forall i | i in p
        ensures i in Indices(shards)
      {
        FirstCopyMember(shards, i);
      }
    }
    var all := seq(|shards|, j requires 0 <= j < |shards| => shards[j].index);
    ElemsCardinality(all);
    assert Elems(all) == Indices(shards) by {
      forall i | i in Indices(shards)
        ensures i in all
      {
        var j :| 0 <= j < |shards| && shards[j].index == i;
        assert all[j] == i;
      }
    }
  }

  /** Reconstruction from shards of the code word gives back the chunks. */
  lemma RecoveredChunks(isal: Isal, data: Bytes, spec: ErasureSpec, shards: seq<PlainShard>, w: Matrix)
    requires DrawnFrom(isal, data, spec, shards)
    requires |Selected(shards, spec)| == spec.dataShards
    requires Inverse(isal, shards, spec) == Some(w)
    ensures WellSized(shards, spec.Total(), spec.shardSize)
    ensures Recovered(shards, spec, w) == Chunks(data, spec.shardSize, spec.dataShards)
  {
    var k, size := spec.dataShards, spec.shardSize;
    var selected := Selected(shards, spec);
    SelectedMeaning(shards, spec);
    PayloadSizes(shards, selected, spec.Total(), size);
    var b := SelectedRows(isal, spec, selected);
    var sources := Payloads(shards, selected);
    var chunks := Chunks(data, size, k);
    assert IsInverse(w, b, k);
    forall p | 0 <= p < size
      ensures Apply(w, Column(sources, size, p)) == Column(chunks, size, p)
    {
      var d := Column(chunks, size, p);
      forall j | 0 <= j < k
        ensures Column(sources, size, p)[j] == Dot(b[j], d)
      {
        FirstCopyDrawn(isal, data, spec, shards, selected[j]);
      }
      assert Column(sources, size, p) == Apply(b, d);
      ApplyInverse(w, b, d);
    }
    RowsFromColumns(w, sources, chunks, size);
  }

  lemma RowsFromColumns(w: Matrix, sources: seq<Bytes>, rows: seq<Bytes>, size: nat)
    requires Shape(w, |rows|, |sources|)
    requires forall i :: 0 <= i < |sources| ==> |sources[i]| == size
    requires forall i :: 0 <= i < |rows| ==> |rows[i]| == size
    requires forall p :: 0 <= p < size ==> Apply(w, Column(sources, size, p)) == Column(rows, size, p)
    ensures EncodeData(w, sources, size) == rows
  {
    forall i | 0 <= i < |rows|
      ensures EncodeData(w, sources, size)[i] == rows[i]
    {
      forall p | 0 <= p < size
        ensures RowTimes(w[i], sources, size)[p] == rows[i][p]
      {
        assert Apply(w, Column(sources, size, p))[i] == Column(rows, size, p)[i];
      }
    }
  }

  lemma DataRowsChunks(isal: Isal, data: Bytes, spec: ErasureSpec, shards: seq<PlainShard>)
    requires DrawnFrom(isal, data, spec, shards)
    requires WellSized(shards, spec.Total(), spec.shardSize)
    ensures DataRows(isal, shards, spec).Ok? ==>
      DataRows(isal, shards, spec).value == Chunks(data, spec.shardSize, spec.dataShards)
  {
    var k := spec.dataShards;
    if AllDataPresent(shards, k) {
      forall i | 0 <= i < k
        ensures FirstCopy(shards, i).value == Chunk(data, spec.shardSize, i)
      {
        FirstCopyDrawn(isal, data, spec, shards, i);
        DataShardIsChunk(isal, data, spec, i);
      }
    } else if |Selected(shards, spec)| == k && Inverse(isal, shards, spec).Some? {
      RecoveredChunks(isal, data, spec, shards, Inverse(isal, shards, spec).value);
    }
  }

  /** The data shards can be had: all are present, or k shards are and their rows can be inverted. */
  ghost predicate Recoverable(isal: Isal, shards: seq<PlainShard>, spec: ErasureSpec) {
    AllDataPresent(shards, spec.dataShards)
    || (|Selected(shards, spec)| == spec.dataShards && Inverse(isal, shards, spec).Some?)
  }

  lemma {:induction false} AllPresent(shards: seq<PlainShard>, k: nat)
    requires AllDataPresent(shards, k)
    ensures |Present(shards, k)| == k
  {
    if k > 0 {
      AllPresent(shards, k - 1);
    }
  }

  lemma DataRowsOutcome(isal: Isal, shards: seq<PlainShard>, spec: ErasureSpec)
    requires WellSized(shards, spec.Total(), spec.shardSize)
    ensures var r := DataRows(isal, shards, spec);
      && (Recoverable(isal, shards, spec) <==> r.Ok?)
      && (|Indices(shards)| < spec.dataShards ==> r == Err(NotEnoughUniqueShards))
      && (|Indices(shards)| >= spec.dataShards ==> r.Ok? || r == Err(InversionFailed))
  {
    var k := spec.dataShards;
    PresentCount(shards, spec.Total());
    if AllDataPresent(shards, k) {
      AllPresent(shards, k);
      PresentPrefix(shards, k, spec.Total());
    }
  }

  /**
   The erasure round trip: shards of the code word of data, in any order and with any
   repetition, decode to data, or to an error that says why not. With k distinct indices
   the only possible error is a failed inversion; with fewer there is always an error.
   */
  lemma RoundTrip(isal: Isal, data: Bytes, spec: ErasureSpec, shards: seq<PlainShard>)
    requires Fits(data, spec)
    requires DrawnFrom(isal, data, spec, shards)
    ensures var r := Decoded(isal, shards, spec, |data|);
      && (r == Ok(data) <==> Recoverable(isal, shards, spec))
      && (|Indices(shards)| >= spec.dataShards ==> r == Ok(data) || r == Err(InversionFailed))
      && (|Indices(shards)| < spec.dataShards ==> r == Err(TooFewShards) || r == Err(NotEnoughUniqueShards))
  {
    var n, size := spec.Total(), spec.shardSize;
    ShardErrorMeaning(shards, n, size);
    PresentCount(shards, n);
    DataRowsOutcome(isal, shards, spec);
    DataRowsChunks(isal, data, spec, shards);
    FlattenChunks(data, size, spec.dataShards);
    assert Flatten(Chunks(data, size, spec.dataShards))[..|data|] == data;
  }

  /* ---------- Decoding, said of the library ---------- */

  /** The k least indices that have a shard. */
  ghost predicate LeastPresent(shards: seq<PlainShard>, chosen: seq<nat>, k: nat) {
    && |chosen| == k && Ascending(chosen)
    && (forall j :: 0 <= j < k ==> chosen[j] in Indices(shards))
    && (k > 0 ==> forall i :: i in Indices(shards) && i <= chosen[k - 1] ==> i in chosen)
  }

  /** The chosen list holds the elements of p up to its own last one, and only elements of p. */
  ghost predicate HoldsFront(p: seq<nat>, chosen: seq<nat>) {
    && (forall j :: 0 <= j < |chosen| ==> chosen[j] in p)
    && (chosen != [] ==> forall q :: 0 <= q < |p| && p[q] <= chosen[|chosen| - 1] ==> p[q] in chosen)
  }

  lemma HoldsFrontShorter(p: seq<nat>, chosen: seq<nat>)
    requires Ascending(chosen) && HoldsFront(p, chosen) && chosen != []
    ensures HoldsFront(p, chosen[..|chosen| - 1])
  {
    var front := chosen[..|chosen| - 1];
    if front != [] {
      forall q | 0 <= q < |p| && p[q] <= front[|front| - 1]
        ensures p[q] in front
      {
        assert chosen[|front| - 1] < chosen[|front|];
        var l :| 0 <= l < |chosen| && chosen[l] == p[q];
        assert front[l] == p[q];
      }
    }
  }

  /** An ascending list that holds the front of another ascending one is that front. */
  lemma {:induction false} AscendingFront(p: seq<nat>, chosen: seq<nat>)
    requires Ascending(p) && Ascending(chosen) && HoldsFront(p, chosen)
    ensures |chosen| <= |p| && p[..|chosen|] == chosen
  {
    if chosen != [] {
      var n := |chosen| - 1;
      var front := chosen[..n];
      HoldsFrontShorter(p, chosen);
      AscendingFront(p, front);
      NextIsChosen(p, chosen, n);
    }
  }

  lemma NextIsChosen(p: seq<nat>, chosen: seq<nat>, n: nat)
    requires Ascending(p) && Ascending(chosen) && HoldsFront(p, chosen) && |chosen| == n + 1
    requires n <= |p| && p[..n] == chosen[..n]
    ensures n < |p| && p[n] == chosen[n]
  {
    assert forall x :: 0 <= x < n ==> p[..n][x] == p[x] == chosen[x];
    assert chosen[n] in p;
    if n < |p| && p[n] < chosen[n] {
      assert false;
    }
  }

  /** The selection is the k least present indices. */
  lemma LeastIsSelected(shards: seq<PlainShard>, spec: ErasureSpec, chosen: seq<nat>)
    requires forall j :: 0 <= j < |shards| ==> shards[j].index < spec.Total()
    requires LeastPresent(shards, chosen, spec.dataShards)
    ensures Selected(shards, spec) == chosen
  {
    var p := Present(shards, spec.Total());
    PresentMeaning(shards, spec.Total());
    PresentIsIndices(shards, spec.Total());
    assert HoldsFront(p, chosen) by {
      forall q | 0 <= q < |p|
        ensures p[q] in Indices(shards)
      {
        assert p[q] in p;
      }
    }
    AscendingFront(p, chosen);
  }

  lemma {:induction false} PresentIsIndices(shards: seq<PlainShard>, n: nat)
    requires forall j :: 0 <= j < |shards| ==> shards[j].index < n
    ensures forall i :: i in Present(shards, n) <==> i in Indices(shards)
  {
    PresentMeaning(shards, n);
    forall i
      ensures i in Present(shards, n) <==> i in Indices(shards)
    {
      if i >= 0 {
        FirstCopyMember(shards, i);
      }
    }
  }

  /** The data, cut or filled with zeros to a size. */
  function Padded(data: Bytes, size: nat): (b: Bytes)
    ensures |b| == size
  {
    seq(size, q requires 0 <= q < size => if q < |data| then data[q] else 0)
  }

  /** The rows of the generator for the chosen shards, as the library is asked to invert them. */
  function ChosenRows(isal: Isal, spec: ErasureSpec, chosen: seq<nat>): (rows: Matrix)
    requires forall j :: 0 <= j < |chosen| ==> chosen[j] < spec.Total()
    ensures |isal.generator(spec.Total(), spec.dataShards)| == spec.Total()
    ensures |rows| == |chosen| && forall j :: 0 <= j < |rows| ==> rows[j] == isal.generator(spec.Total(), spec.dataShards)[chosen[j]]
  {
    assert GeneratorContract(isal.generator(spec.Total(), spec.dataShards), spec.Total(), spec.dataShards);
    seq(|chosen|, j requires 0 <= j < |chosen| => isal.generator(spec.Total(), spec.dataShards)[chosen[j]])
  }

  /**
   Decoding succeeds whenever the library can invert the generator rows of the k least indices that
   have a shard, and whenever all data shards are there: then shards of an encoding give exactly the
   data, padded or cut to the size asked for. The inversion error occurs exactly when the library
   cannot invert those rows and a data shard is missing.
   */
  lemma DecodesWhenInvertible(isal: Isal, data: Bytes, spec: ErasureSpec, shards: seq<PlainShard>, chosen: seq<nat>, originalSize: nat)
    requires Fits(data, spec) && DrawnFrom(isal, data, spec, shards) && originalSize <= spec.dataShards * spec.shardSize
    requires LeastPresent(shards, chosen, spec.dataShards)
    ensures forall j :: 0 <= j < |chosen| ==> chosen[j] < spec.Total()
    ensures var r := Decoded(isal, shards, spec, originalSize);
      var inverted := isal.invert(ChosenRows(isal, spec, chosen));
      var dataThere := forall i: nat :: i < spec.dataShards ==> i in Indices(shards);
      && (r == Ok(Padded(data, originalSize)) <==> inverted.Some? || dataThere)
      && (r == Err(InversionFailed) <==> inverted == None && !dataThere)
  {
    var n, size := spec.Total(), spec.shardSize;
    assert forall j :: 0 <= j < |chosen| ==> chosen[j] < n by { assert forall i :: i in Indices(shards) ==> i < n; }
    LeastIsSelected(shards, spec, chosen);
    assert SelectedRows(isal, spec, chosen) == ChosenRows(isal, spec, chosen);
    DataThere(shards, spec.dataShards);
    ShardErrorMeaning(shards, n, size);
    EnoughChosen(shards, spec, chosen);
    DataRowsOutcome(isal, shards, spec);
    DataRowsChunks(isal, data, spec, shards);
    FlattenChunks(data, size, spec.dataShards);
    assert Flatten(Chunks(data, size, spec.dataShards))[..originalSize] == Padded(data, originalSize);
  }

  lemma DataThere(shards: seq<PlainShard>, k: nat)
    ensures AllDataPresent(shards, k) <==> forall i: nat :: i < k ==> i in Indices(shards)
  {
    forall i: nat | i < k
      ensures FirstCopy(shards, i).Some? <==> i in Indices(shards)
    {
      FirstCopyMember(shards, i);
    }
  }

  lemma EnoughChosen(shards: seq<PlainShard>, spec: ErasureSpec, chosen: seq<nat>)
    requires forall j :: 0 <= j < |shards| ==> shards[j].index < spec.Total()
    requires LeastPresent(shards, chosen, spec.dataShards)
    ensures |shards| >= |Indices(shards)| >= spec.dataShards
  {
    PresentCount(shards, spec.Total());
    NoDupCardinality(chosen);
    assert Elems(chosen) <= Indices(shards);
    SubsetCardinality(Elems(chosen), Indices(shards));
  }

  lemma DecodedSize(isal: Isal, shards: seq<PlainShard>, spec: ErasureSpec, originalSize: nat)
    ensures Decoded(isal, shards, spec, originalSize).Ok? ==> |Decoded(isal, shards, spec, originalSize).value| == originalSize
  {
    ShardErrorMeaning(shards, spec.Total(), spec.shardSize);
    if WellSized(shards, spec.Total(), spec.shardSize) && DataRows(isal, shards, spec).Ok? {
      FlattenLength(DataRows(isal, shards, spec).value, spec.shardSize);
    }
    hide DataRows, ShardError, Flatten, WellSized;
  }

  /** What decoding asks of its specification and sizes. */
  ghost predicate WellAsked(count: nat, originalSize: nat, spec: ErasureSpec) {
    var k, m, size := spec.dataShards, spec.parityShards, spec.shardSize;
    k > 0 && m > 0 && k + m <= 255 && 0 < size <= 0x7fff_ffff && count >= k && originalSize <= k * size
  }

  /** Decoding checks specification and sizes in the source's order, before it looks at any shard. */
  lemma DecodeInputErrors(isal: Isal, shards: seq<PlainShard>, spec: ErasureSpec, originalSize: nat)
    ensures var r := Decoded(isal, shards, spec, originalSize);
      var k, m, size := spec.dataShards, spec.parityShards, spec.shardSize;
      var valid := k > 0 && m > 0 && k + m <= 255;
      && (r == Err(NoDataShards) <==> k == 0)
      && (r == Err(NoParityShards) <==> k > 0 && m == 0)
      && (r == Err(TooManyShards) <==> k > 0 && m > 0 && k + m > 255)
      && (r == Err(ZeroShardSize) <==> valid && size == 0)
      && (r == Err(ShardSizeTooLarge) <==> valid && size > 0x7fff_ffff)
      && (r == Err(TooFewShards) <==> valid && 0 < size <= 0x7fff_ffff && |shards| < k)
      && (r == Err(OriginalSizeTooLarge) <==> valid && 0 < size <= 0x7fff_ffff && |shards| >= k && originalSize > k * size)
  {
    var bad := ShardErrorIsFirst(shards, spec.Total(), spec.shardSize);
    ShardErrorMeaning(shards, spec.Total(), spec.shardSize);
    if WellSized(shards, spec.Total(), spec.shardSize) {
      DataRowsOutcome(isal, shards, spec);
    }
    hide DataRows, ShardError, Indices, WellSized, Recoverable, Flatten, IsFirstBad;
  }

  /** Of the shards, the first bad one decides; then too few distinct indices; then only the inversion is left. */
  lemma DecodeShardErrors(isal: Isal, shards: seq<PlainShard>, spec: ErasureSpec, originalSize: nat)
    requires WellAsked(|shards|, originalSize, spec)
    ensures var r := Decoded(isal, shards, spec, originalSize);
      var k, n, size := spec.dataShards, spec.Total(), spec.shardSize;
      && (r == Err(IndexOutOfRange) <==> exists j :: 0 <= j < |shards| && IsFirstBad(shards, n, size, j) && shards[j].index >= n)
      && (r == Err(WrongShardSize) <==> exists j :: 0 <= j < |shards| && IsFirstBad(shards, n, size, j) && shards[j].index < n)
      && (r == Err(NotEnoughUniqueShards) <==> WellSized(shards, n, size) && |Indices(shards)| < k)
      && (r.Ok? || r == Err(InversionFailed) <==> WellSized(shards, n, size) && |Indices(shards)| >= k)
  {
    var n, size := spec.Total(), spec.shardSize;
    var bad := ShardErrorIsFirst(shards, n, size);
    ShardErrorMeaning(shards, n, size);
    assert DecodeError(|shards|, originalSize, spec) == None;
    hide DecodeError, ShardError;
    if WellSized(shards, n, size) {
      DataRowsOutcome(isal, shards, spec);
      hide DataRows, Indices, Recoverable, Flatten;
    } else {
      OneFirstBad(shards, n, size);
    }
  }

  lemma OneFirstBad(shards: seq<PlainShard>, n: nat, size: nat)
    ensures forall i, j :: 0 <= i < |shards| && 0 <= j < |shards| && IsFirstBad(shards, n, size, i) && IsFirstBad(shards, n, size, j) ==> i == j
  {
  }

  /** Encoding and then decoding any selection of the shards that were produced. */
  lemma EncodeThenDecode(isal: Isal, data: Bytes, spec: ErasureSpec, picks: seq<nat>)
    requires Encoded(isal, data, spec).Ok?
    requires forall j :: 0 <= j < |picks| ==> picks[j] < |Encoded(isal, data, spec).value|
    requires |Elems(picks)| >= spec.dataShards
    ensures var word := Encoded(isal, data, spec).value;
      var r := Decoded(isal, seq(|picks|, j requires 0 <= j < |picks| => word[picks[j]]), spec, |data|);
      r == Ok(data) || r == Err(InversionFailed)
  {
    var word := Encoded(isal, data, spec).value;
    var shards := seq(|picks|, j requires 0 <= j < |picks| => word[picks[j]]);
    assert Indices(shards) == Elems(picks) by {
      forall i | i in picks
        ensures i in Indices(shards)
      {
        var j :| 0 <= j < |picks| && picks[j] == i;
        assert shards[j].index == i;
      }
      forall i | i in Indices(shards)
        ensures i in picks
      {
        var j :| 0 <= j < |shards| && shards[j].index == i;
        assert picks[j] == i;
      }
    }
    RoundTrip(isal, data, spec, shards);
  }

  /* ---------- The decoding method ---------- */

  lemma {:induction false} FirstCopyAppend(shards: seq<PlainShard>, j: nat, i: nat)
    requires j < |shards|
    ensures FirstCopy(shards[..j + 1], i) ==
      if FirstCopy(shards[..j], i).Some? then FirstCopy(shards[..j], i)
      else if shards[j].index == i then Some(shards[j].bytes) else None
  {
    assert shards[..j + 1][..j] == shards[..j];
  }

  lemma {:induction false} ShardErrorAppend(shards: seq<PlainShard>, j: nat, n: nat, size: nat)
    requires j < |shards|
    requires ShardError(shards[..j], n, size) == None
    ensures ShardError(shards[..j + 1], n, size) ==
      if shards[j].index >= n then Some(IndexOutOfRange)
      else if |shards[j].bytes| != size then Some(WrongShardSize)
      else None
  {
    assert shards[..j + 1][..j] == shards[..j];
  }

  lemma {:induction false} ShardErrorMonotone(shards: seq<PlainShard>, j: nat, n: nat, size: nat)
    requires j <= |shards|
    requires ShardError(shards[..j], n, size).Some?
    ensures ShardError(shards, n, size) == ShardError(shards[..j], n, size)
  {
    if j == |shards| {
      assert shards[..j] == shards;
    } else {
      var front := shards[..|shards| - 1];
      assert front[..j] == shards[..j];
      ShardErrorMonotone(front, j, n, size);
    }
  }

  /** The de-duplication pass: present flags and, for each present index, the first copy. */
  method Collect(shards: seq<PlainShard>, n: nat, size: nat)
    returns (error: Option<CodecError>, present: array<bool>, copies: array<Bytes>)
    ensures error == ShardError(shards, n, size)
    ensures fresh(present) && fresh(copies) && present.Length == copies.Length == n
    ensures error == None ==> forall i :: 0 <= i < n ==>
      FirstCopy(shards, i) == if present[i] then Some(copies[i]) else None
  {
    present, copies := new bool[n](_ => false), new Bytes[n](_ => []);
    for j := 0 to |shards|
      invariant ShardError(shards[..j], n, size) == None
      invariant forall i :: 0 <= i < n ==> FirstCopy(shards[..j], i) == if present[i] then Some(copies[i]) else None
    {
      var shard := shards[j];
      ShardErrorAppend(shards, j, n, size);
      if shard.index >= n {
        ShardErrorMonotone(shards, j + 1, n, size);
        return Some(IndexOutOfRange), present, copies;
      }
      if |shard.bytes| != size {
        ShardErrorMonotone(shards, j + 1, n, size);
        return Some(WrongShardSize), present, copies;
      }
      forall i | 0 <= i < n {
        FirstCopyAppend(shards, j, i);
      }
      if !present[shard.index] {
        present[shard.index] := true;
        copies[shard.index] := shard.bytes;
      }
    }
    assert shards[..|shards|] == shards;
    error := None;
  }

  /** Data shards first, then parity shards, until there are k. */
  method Select(present: array<bool>, k: nat, ghost shards: seq<PlainShard>) returns (decodeIndex: seq<nat>)
    requires k <= present.Length
    requires forall i :: 0 <= i < present.Length ==> present[i] == FirstCopy(shards, i).Some?
    ensures decodeIndex == Take(Present(shards, present.Length), k)
  {
    var n := present.Length;
    decodeIndex := [];
    var i := 0;
    while i < k && |decodeIndex| < k
      invariant 0 <= i <= k && decodeIndex == Present(shards, i) && |decodeIndex| <= i
    {
      if present[i] {
        decodeIndex := decodeIndex + [i];
      }
      i := i + 1;
    }
    i := k;
    while i < n && |decodeIndex| < k
      invariant k <= i <= n && decodeIndex == Present(shards, i) && |decodeIndex| <= k
    {
      if present[i] {
        decodeIndex := decodeIndex + [i];
      }
      i := i + 1;
    }
    PresentPrefix(shards, i, n);
  }

  /** A data shard that is present is what the full reconstruction would compute for it. */
  lemma {:induction false} PresentRowRecovered(isal: Isal, shards: seq<PlainShard>, spec: ErasureSpec, w: Matrix, i: nat)
    requires WellSized(shards, spec.Total(), spec.shardSize)
    requires |Selected(shards, spec)| == spec.dataShards
    requires Inverse(isal, shards, spec) == Some(w)
    requires i < spec.dataShards && FirstCopy(shards, i).Some?
    ensures FirstCopy(shards, i).value == Recovered(shards, spec, w)[i]
  {
    var k, size, selected := spec.dataShards, spec.shardSize, Selected(shards, spec);
    SelectedMeaning(shards, spec);
    PayloadSizes(shards, selected, spec.Total(), size);
    var b := SelectedRows(isal, spec, selected);
    var sources := Payloads(shards, selected);
    var q :| 0 <= q < k && selected[q] == i;
    assert GeneratorContract(isal.generator(spec.Total(), k), spec.Total(), k);
    assert b[q] == Unit(k, i);
    forall p | 0 <= p < size
      ensures sources[q][p] == RowTimes(w[i], sources, size)[p]
    {
      SolutionOfUnitRow(w, b, Column(sources, size, p), q, i);
    }
    assert sources[q] == RowTimes(w[i], sources, size);
  }

  /** The selected shards' buffers, in selection order. */
  method Available(ghost shards: seq<PlainShard>, copies: array<Bytes>, decodeIndex: seq<nat>)
    returns (available: seq<Bytes>)
    requires forall j {:trigger decodeIndex[j]} :: 0 <= j < |decodeIndex| ==>
      decodeIndex[j] < copies.Length && FirstCopy(shards, decodeIndex[j]) == Some(copies[decodeIndex[j]])
    ensures available == Payloads(shards, decodeIndex)
  {
    available := [];
    for j := 0 to |decodeIndex|
      invariant |available| == j
      invariant forall i :: 0 <= i < j ==> available[i] == FirstCopy(shards, decodeIndex[i]).value
    {
      available := available + [copies[decodeIndex[j]]];
    }
  }

  /** One reconstruction call for all missing rows; the rows that are there are reused. */
  method Reconstruct(w: Matrix, k: nat, size: nat, available: seq<Bytes>, present: array<bool>, copies: array<Bytes>)
    returns (rows: seq<Bytes>)
    requires Shape(w, k, k) && Shape(available, k, size)
    requires k <= present.Length == copies.Length
    requires forall i :: 0 <= i < k && present[i] ==> copies[i] == RowTimes(w[i], available, size)
    ensures rows == EncodeData(w, available, size)
  {
    var recovered := new Bytes[k](_ => []);
    var missing: seq<nat> := [];
    for i := 0 to k
      invariant forall j :: 0 <= j < i && present[j] ==> recovered[j] == copies[j]
      invariant forall j :: 0 <= j < i && !present[j] ==> j in missing
      invariant forall r {:trigger missing[r]} :: 0 <= r < |missing| ==> missing[r] < i && !present[missing[r]]
    {
      if present[i] {
        recovered[i] := copies[i];
      } else {
        missing := missing + [i];
      }
    }
    var decodeRows := seq(|missing|, r requires 0 <= r < |missing| => w[missing[r]]);
    var outputs := EncodeData(decodeRows, available, size);
    for r := 0 to |missing|
      invariant forall j :: 0 <= j < k && present[j] ==> recovered[j] == copies[j]
      invariant forall q {:trigger missing[q]} :: 0 <= q < r ==>
        recovered[missing[q]] == RowTimes(w[missing[q]], available, size)
    {
      recovered[missing[r]] := outputs[r];
    }
    rows := recovered[..];
  }

  /** The final copy into one buffer. */
  method Concatenate(rows: seq<Bytes>) returns (decoded: Bytes)
    ensures decoded == Flatten(rows)
  {
    decoded := [];
    for i := 0 to |rows|
      invariant decoded == Flatten(rows[..i])
    {
      assert rows[..i + 1][..i] == rows[..i];
      decoded := decoded + rows[i];
    }
    assert rows[..|rows|] == rows;
  }

  method AllPresentFlags(present: array<bool>, k: nat) returns (all: bool)
    requires k <= present.Length
    ensures all <==> forall i :: 0 <= i < k ==> present[i]
  {
    for i := 0 to k
      invariant forall j :: 0 <= j < i ==> present[j]
    {
      if !present[i] {
        return false;
      }
    }
    return true;
  }

  /** The data shards, by the fast path or by reconstruction. */
  method RecoverRows(isal: Isal, ghost shards: seq<PlainShard>, spec: ErasureSpec, present: array<bool>, copies: array<Bytes>)
    returns (r: Result<seq<Bytes>, CodecError>)
    requires WellSized(shards, spec.Total(), spec.shardSize)
    requires present.Length == copies.Length == spec.Total()
    requires forall i :: 0 <= i < spec.Total() ==>
      FirstCopy(shards, i) == if present[i] then Some(copies[i]) else None
    ensures r == DataRows(isal, shards, spec)
  {
    var k, size := spec.dataShards, spec.shardSize;
    var all := AllPresentFlags(present, k);
    if all {
      assert AllDataPresent(shards, k);
      assert copies[..k] == Payloads(shards, FirstNaturals(k));
      return Ok(copies[..k]);
    }
    var decodeIndex := Select(present, k, shards);
    if |decodeIndex| < k {
      return Err(NotEnoughUniqueShards);
    }
    assert decodeIndex == Selected(shards, spec);
    SelectedMeaning(shards, spec);
    PayloadSizes(shards, Selected(shards, spec), spec.Total(), size);
    var inverted := isal.invert(SelectedRows(isal, spec, decodeIndex));
    if inverted == None {
      return Err(InversionFailed);
    }
    var available := Available(shards, copies, decodeIndex);
    forall i | 0 <= i < k && present[i] {
      PresentRowRecovered(isal, shards, spec, inverted.value, i);
    }
    var rows := Reconstruct(inverted.value, k, size, available, present, copies);
    return Ok(rows);
  }

  method Decode(isal: Isal, shards: seq<PlainShard>, spec: ErasureSpec, originalSize: nat)
    returns (r: Result<Bytes, CodecError>)
    ensures r == Decoded(isal, shards, spec, originalSize)
  {
    var k, m, size := spec.dataShards, spec.parityShards, spec.shardSize;
    if k == 0 { return Err(NoDataShards); }
    if m == 0 { return Err(NoParityShards); }
    if k + m > MAX_TOTAL_SHARDS { return Err(TooManyShards); }
    if size == 0 { return Err(ZeroShardSize); }
    if size > INT_MAX { return Err(ShardSizeTooLarge); }
    if |shards| < k { return Err(TooFewShards); }
    if originalSize > k * size { return Err(OriginalSizeTooLarge); }

    var error, present, copies := Collect(shards, k + m, size);
    if error.Some? {
      return Err(error.value);
    }
    ShardErrorMeaning(shards, k + m, size);
    var rows := RecoverRows(isal, shards, spec, present, copies);
    if rows.Err? {
      return Err(rows.error);
    }
    var decoded := Concatenate(rows.value);
    FlattenLength(rows.value, size);
    return Ok(decoded[..originalSize]);
  }
}
