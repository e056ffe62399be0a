/**
 Decompressing one inspected entry under actual-byte ceilings
 (crates/instagram-archive/src/data_export/archive.rs:150-200, 608-610).  The decompressor is an
 arbitrary sequence of reads, each of which fills part of a buffer or fails.
 */
module BoundedRead {
  import opened Prelude
  import opened ZipArchive

  const U64_MAX: nat := 0xffff_ffff_ffff_ffff

  /** What one call of `read` gives; a filled length of zero is the end of the entry. */
  datatype Chunk = Filled(bytes: seq<byte>) | ReadError

  datatype Caps = Caps(entry: nat, total: nat, ratio: nat)

  predicate CapsOk(caps: Caps) {
    caps.entry <= U64_MAX && caps.total <= U64_MAX && caps.ratio <= U64_MAX
  }

  // ---------------------------------------------------------------- ratio

  function SaturatingMul(a: nat, b: nat): nat {
    Min(a * b, U64_MAX)
  }

  predicate ExceedsRatio(decompressed: nat, compressed: nat, maximum: nat) {
    decompressed > 0 && (compressed == 0 || decompressed > SaturatingMul(compressed, maximum))
  }

  /** Saturation and the zero cases change nothing: the test is the comparison of unbounded integers. */
  lemma RatioIsExact(decompressed: nat, compressed: nat, maximum: nat)
    requires decompressed <= U64_MAX && compressed <= U64_MAX && maximum <= U64_MAX
    ensures ExceedsRatio(decompressed, compressed, maximum) <==> decompressed > compressed * maximum
  {
    if compressed == 0 { assert compressed * maximum == 0; }
  }

  // ---------------------------------------------------------------- the loop

  /** The refusal of a buffer that would grow to `actual` bytes. */
  function Refused(actual: nat, compressed: nat, caps: Caps): Option<ArchiveError> {
    if actual > U64_MAX then Some(ArchiveError(ResourceLimit, "actual_entry_bytes"))
    else if actual > caps.entry then Some(ArchiveError(ResourceLimit, "actual_entry_decompressed_bytes"))
    else if actual > caps.total then Some(ArchiveError(ResourceLimit, "actual_total_decompressed_bytes"))
    else if ExceedsRatio(actual, compressed, caps.ratio)
      then Some(ArchiveError(ResourceLimit, "actual_compression_ratio"))
    else None
  }

  /** The reads up to the one that ends the entry. */
  function Emitted(chunks: seq<Chunk>): seq<Chunk> {
    if chunks == [] || chunks[0] == Filled([]) then [] else [chunks[0]] + Emitted(chunks[1..])
  }

  predicate NoError(chunks: seq<Chunk>) {
    forall i :: 0 <= i < |chunks| ==> chunks[i].Filled?
  }

  function Bytes(chunks: seq<Chunk>): seq<byte> {
    if chunks == [] then []
    else Bytes(chunks[..|chunks| - 1]) + (if chunks[|chunks| - 1].Filled? then chunks[|chunks| - 1].bytes else [])
  }

  predicate WithinCaps(length: nat, compressed: nat, caps: Caps) {
    length <= caps.entry && length <= caps.total && length <= compressed * caps.ratio
  }

  /** The first read that fails or whose bytes would break a ceiling, as the number of reads before it. */
  predicate StopsAt(emitted: seq<Chunk>, k: nat, compressed: nat, caps: Caps) {
    && k < |emitted|
    && NoError(emitted[..k]) && WithinCaps(|Bytes(emitted[..k])|, compressed, caps)
    && (emitted[k].ReadError? || !WithinCaps(|Bytes(emitted[..k + 1])|, compressed, caps))
  }

  function StopError(emitted: seq<Chunk>, k: nat, compressed: nat, caps: Caps): ArchiveError
    requires k < |emitted|
  {
    if emitted[k].ReadError? then ArchiveError(Malformed, "entry_read")
    else
      match Refused(|Bytes(emitted[..k + 1])|, compressed, caps)
      case Some(error) => error
      case None => ArchiveError(Malformed, "declared_actual_size_mismatch")
  }

  lemma CapsDecide(actual: nat, compressed: nat, caps: Caps)
    requires CapsOk(caps) && compressed <= U64_MAX
    ensures Refused(actual, compressed, caps).None? <==> WithinCaps(actual, compressed, caps)
  {
    if actual <= U64_MAX { RatioIsExact(actual, compressed, caps.ratio); }
  }

  /** The rule of a refusal is that of the first ceiling the length breaks, in the order entry, total, ratio. */
  lemma CeilingIsNamed(actual: nat, compressed: nat, caps: Caps)
    requires CapsOk(caps) && compressed <= U64_MAX && actual <= U64_MAX
    ensures
      Refused(actual, compressed, caps) ==
      if actual > caps.entry then Some(ArchiveError(ResourceLimit, "actual_entry_decompressed_bytes"))
      else if actual > caps.total then Some(ArchiveError(ResourceLimit, "actual_total_decompressed_bytes"))
      else if actual > compressed * caps.ratio then Some(ArchiveError(ResourceLimit, "actual_compression_ratio"))
      else None
  {
    RatioIsExact(actual, compressed, caps.ratio);
  }

  lemma {:induction false} BytesGrow(emitted: seq<Chunk>, k: nat)
    requires k <= |emitted|
    ensures |Bytes(emitted[..k])| <= |Bytes(emitted)|
    decreases |emitted|
  {
    if k < |emitted| {
      BytesGrow(emitted[..|emitted| - 1], k);
      assert emitted[..|emitted| - 1][..k] == emitted[..k];
    } else {
      assert emitted[..k] == emitted;
    }
  }

  lemma StopRefutes(emitted: seq<Chunk>, k: nat, compressed: nat, caps: Caps)
    requires StopsAt(emitted, k, compressed, caps)
    ensures !(NoError(emitted) && WithinCaps(|Bytes(emitted)|, compressed, caps))
  {
    BytesGrow(emitted, k + 1);
  }

  lemma {:induction false} EmittedStops(chunks: seq<Chunk>, k: nat)
    requires k < |chunks|
    requires forall i :: 0 <= i < k ==> chunks[i] != Filled([])
    ensures |Emitted(chunks)| >= k && Emitted(chunks)[..k] == chunks[..k]
    ensures chunks[k] == Filled([]) ==> |Emitted(chunks)| == k
    ensures chunks[k] != Filled([]) ==> |Emitted(chunks)| > k && Emitted(chunks)[k] == chunks[k]
    decreases k
  {
    if k > 0 {
      EmittedStops(chunks[1..], k - 1);
      assert chunks[..k] == [chunks[0]] + chunks[1..][..k - 1];
    }
  }

  lemma {:induction false} EmittedAll(chunks: seq<Chunk>)
    requires forall i :: 0 <= i < |chunks| ==> chunks[i] != Filled([])
    ensures Emitted(chunks) == chunks
  {
    if chunks == [] {
    } else {
      EmittedAll(chunks[1..]);
    }
  }

  /** The loop has taken k reads, none of which ended the entry, failed or broke a ceiling. */
  predicate Going(chunks: seq<Chunk>, k: nat, compressed: nat, caps: Caps) {
    && k <= |chunks|
    && (forall i :: 0 <= i < k ==> chunks[i] != Filled([]))
    && NoError(chunks[..k])
    && WithinCaps(|Bytes(chunks[..k])|, compressed, caps)
  }

  lemma GoesOn(chunks: seq<Chunk>, k: nat, compressed: nat, caps: Caps)
    requires CapsOk(caps) && compressed <= U64_MAX
    requires Going(chunks, k, compressed, caps) && k < |chunks| && chunks[k].Filled? && chunks[k].bytes != []
    ensures Bytes(chunks[..k + 1]) == Bytes(chunks[..k]) + chunks[k].bytes
    ensures Refused(|Bytes(chunks[..k + 1])|, compressed, caps).None? ==> Going(chunks, k + 1, compressed, caps)
  {
    hide Refused, WithinCaps;
    assert chunks[..k + 1][..k] == chunks[..k];
    CapsDecide(|Bytes(chunks[..k + 1])|, compressed, caps);
  }

  lemma Breaks(chunks: seq<Chunk>, k: nat, compressed: nat, caps: Caps)
    requires CapsOk(caps) && compressed <= U64_MAX
    requires Going(chunks, k, compressed, caps) && k < |chunks| && chunks[k] != Filled([])
    requires chunks[k].ReadError? || Refused(|Bytes(chunks[..k + 1])|, compressed, caps).Some?
    ensures
      var emitted := Emitted(chunks);
      && StopsAt(emitted, k, compressed, caps)
      && emitted[k] == chunks[k] && emitted[..k + 1] == chunks[..k + 1]
      && !(NoError(emitted) && WithinCaps(|Bytes(emitted)|, compressed, caps))
  {
    hide Refused, WithinCaps, Emitted, Bytes;
    var emitted := Emitted(chunks);
    EmittedStops(chunks, k);
    assert emitted[..k + 1] == emitted[..k] + [emitted[k]] && chunks[..k + 1] == chunks[..k] + [chunks[k]];
    CapsDecide(|Bytes(chunks[..k + 1])|, compressed, caps);
    StopRefutes(emitted, k, compressed, caps);
  }

  lemma Ends(chunks: seq<Chunk>, k: nat, compressed: nat, caps: Caps)
    requires Going(chunks, k, compressed, caps) && (k == |chunks| || chunks[k] == Filled([]))
    ensures Emitted(chunks) == chunks[..k]
  {
    if k == |chunks| {
      EmittedAll(chunks);
      assert chunks[..k] == chunks;
    } else {
      EmittedStops(chunks, k);
    }
  }

  /**
   One bounded read.  The buffer is within every ceiling at every step (the loop invariant); the
   result is the exact concatenation when its length is the declared one and no ceiling breaks, and
   otherwise the error of the first read that fails or breaks one.
   */
  method ReadEntry(chunks: seq<Chunk>, compressed: nat, declared: nat, caps: Caps)
                   returns (r: Result<seq<byte>, ArchiveError>)
    requires CapsOk(caps) && compressed <= U64_MAX
    ensures
      var emitted := Emitted(chunks);
      r.Ok? <==> NoError(emitted) && |Bytes(emitted)| == declared && WithinCaps(|Bytes(emitted)|, compressed, caps)
    ensures r.Ok? ==> r.value == Bytes(Emitted(chunks))
    ensures
      var emitted := Emitted(chunks);
      r.Err? ==>
        || (r.error == ArchiveError(Malformed, "declared_actual_size_mismatch") && NoError(emitted)
          && |Bytes(emitted)| != declared
            && WithinCaps(|Bytes(emitted)|, compressed, caps))
        || (exists k: nat ::
          StopsAt(emitted, k, compressed, caps) && r.error == StopError(emitted, k, compressed, caps))
  {
    hide Emitted, WithinCaps, Refused, StopsAt, NoError;
    var output: seq<byte> := [];
    var k := 0;
    Starts(chunks, compressed, caps);
    while k < |chunks|
      invariant Going(chunks, k, compressed, caps) && output == Bytes(chunks[..k])
    {
      if chunks[k].ReadError? {
        Breaks(chunks, k, compressed, caps);
        return Err(ArchiveError(Malformed, "entry_read"));
      }
      var bytes := chunks[k].bytes;
      if |bytes| == 0 { break; }
      GoesOn(chunks, k, compressed, caps);
      var refusal := Refused(|output| + |bytes|, compressed, caps);
      if refusal.Some? {
        Breaks(chunks, k, compressed, caps);
        return Err(refusal.value);
      }
      output := output + bytes;
      k := k + 1;
    }
    Ends(chunks, k, compressed, caps);
    if |output| != declared { return Err(ArchiveError(Malformed, "declared_actual_size_mismatch")); }
    return Ok(output);
  }

  lemma Starts(chunks: seq<Chunk>, compressed: nat, caps: Caps)
    ensures Going(chunks, 0, compressed, caps) && Bytes(chunks[..0]) == []
  {
    assert chunks[..0] == [];
    assert 0 <= compressed * caps.ratio;
  }
}
