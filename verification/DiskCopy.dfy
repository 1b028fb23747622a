/** The incremental copy of a disk: changed extents are asked for piece by piece and copied in chunks. */
module DiskCopy {
  import opened Common

  type Byte = bv8

  const MAX_CHUNK_SIZE := 64 * 1024 * 1024

  datatype Area = Area(start: nat, length: nat)

  /** The source's answer to "what changed from this offset on": it speaks for `length` bytes from `start`. */
  datatype Changes = Changes(start: nat, length: nat, areas: seq<Area>)

  /** The answers of the source to every offset; None is a failed query. */
  type Query = nat -> Option<Changes>

  /** What the source promises: an answer starts where it was asked for, speaks for at least one byte, and
      its extents lie within what it speaks for and within the disk. */
  ghost predicate Honest(query: Query, capacity: nat) {
    forall offset | 0 <= offset < capacity && query(offset).Some? ::
      var c := query(offset).value;
      && c.start == offset && c.length > 0 && offset + c.length <= capacity
      && forall a | a in c.areas :: c.start <= a.start && a.start + a.length <= c.start + c.length
  }

  /** The extents reported from `offset` to the end of the disk, up to a failed query. */
  ghost function Reported(query: Query, capacity: nat, offset: nat): seq<Area>
    requires Honest(query, capacity) && offset <= capacity
    decreases capacity - offset
  {
    if offset == capacity || query(offset).None? then []
    else query(offset).value.areas + Reported(query, capacity, offset + query(offset).value.length)
  }

  /** Whether the queries from `offset` on all succeed. */
  ghost predicate Answers(query: Query, capacity: nat, offset: nat)
    requires Honest(query, capacity) && offset <= capacity
    decreases capacity - offset
  {
    offset == capacity || (query(offset).Some? && Answers(query, capacity, offset + query(offset).value.length))
  }

  /** The source was asked at these offsets, from the start of the disk, each time where the last answer ended,
      and it answered. */
  ghost predicate Chain(query: Query, capacity: nat, offsets: seq<nat>) {
    forall k | 0 <= k < |offsets| ::
      && offsets[k] < capacity && query(offsets[k]).Some?
      && (k == 0 ==> offsets[k] == 0)
      && (k > 0 && query(offsets[k - 1]).Some? ==> offsets[k] == offsets[k - 1] + query(offsets[k - 1]).value.length)
  }

  /** Where the next question is due; the end of the disk if there is none. */
  ghost function NextOffset(query: Query, capacity: nat, offsets: seq<nat>): nat
    requires Chain(query, capacity, offsets)
  {
    if offsets == [] then 0 else offsets[|offsets| - 1] + query(offsets[|offsets| - 1]).value.length
  }

  /** One of the answers has an extent that contains the byte. */
  ghost predicate Changed(query: Query, offsets: seq<nat>, i: nat)
    requires forall k | 0 <= k < |offsets| :: query(offsets[k]).Some?
  {
    exists k, a | 0 <= k < |offsets| && a in query(offsets[k]).value.areas :: a.start <= i < a.start + a.length
  }

  ghost predicate Covered(areas: seq<Area>, i: nat) {
    exists a | a in areas :: a.start <= i < a.start + a.length
  }

  /** The target after the reported extents have been copied from the source. */
  ghost predicate Patched(source: seq<Byte>, before: seq<Byte>, areas: seq<Area>, after: seq<Byte>) {
    && |after| == |before| == |source|
    && forall i | 0 <= i < |after| :: after[i] == if Covered(areas, i) then source[i] else before[i]
  }

  /** The target after a copy that was cut short: nothing outside the extents has changed, and what has
      changed inside them is the source's. */
  ghost predicate PartlyPatched(source: seq<Byte>, before: seq<Byte>, areas: seq<Area>, after: seq<Byte>) {
    && |after| == |before| == |source|
    && forall i | 0 <= i < |after| :: after[i] == before[i] || (Covered(areas, i) && after[i] == source[i])
  }

  datatype Chunk = Chunk(offset: nat, size: nat)

  /** A chunk that is transferred at once lies in a reported extent and is neither empty nor too large. */
  ghost predicate GoodChunk(c: Chunk, areas: seq<Area>) {
    && 1 <= c.size <= MAX_CHUNK_SIZE
    && exists a | a in areas :: a.start <= c.offset && c.offset + c.size <= a.start + a.length
  }

  /** The bytes from `from` to `to` have been copied, and no others. */
  ghost predicate CopiedRange(source: seq<Byte>, before: seq<Byte>, from: nat, to: nat, after: seq<Byte>) {
    && |after| == |before| == |source|
    && forall i | 0 <= i < |source| :: after[i] == if from <= i < to then source[i] else before[i]
  }

  /** Copies one chunk. `transfers` tells how many bytes go through at an offset before reading or writing
      fails; a chunk of no more bytes is copied in full, of a larger one just the first bytes arrive. */
  method CopyChunk(source: seq<Byte>, target: array<Byte>, c: Chunk, transfers: nat -> nat) returns (ok: bool, written: nat)
    requires target.Length == |source| && c.offset + c.size <= |source|
    modifies target
    ensures ok <==> c.size <= transfers(c.offset)
    ensures written <= c.size && (ok <==> written == c.size)
    ensures CopiedRange(source, old(target[..]), c.offset, c.offset + written, target[..])
  {
    ok := c.size <= transfers(c.offset);
    written := if ok then c.size else transfers(c.offset);
    var buf := source[c.offset..c.offset + c.size];
    for i := 0 to written
      invariant forall j | 0 <= j < |source| ::
                  target[j] == if c.offset <= j < c.offset + i then source[j] else old(target[j])
    {
      target[c.offset + i] := buf[i];
    }
  }

  /** Copies one extent in chunks and tells how far it came. */
  method CopyArea(source: seq<Byte>, target: array<Byte>, area: Area, transfers: nat -> nat) returns (chunks: seq<Chunk>, end: nat)
    requires target.Length == |source| && area.start + area.length <= |source|
    modifies target
    ensures area.start <= end <= area.start + area.length
    ensures CopiedRange(source, old(target[..]), area.start, end, target[..])
    ensures forall c | c in chunks ::
              1 <= c.size <= MAX_CHUNK_SIZE && area.start <= c.offset && c.offset + c.size <= end
    ensures (forall o :: transfers(o) >= MAX_CHUNK_SIZE) ==> end == area.start + area.length
  {
    chunks := [];
    var offset := area.start;
    while offset < area.start + area.length
      invariant area.start <= offset <= area.start + area.length
      invariant forall c | c in chunks ::
                  1 <= c.size <= MAX_CHUNK_SIZE && area.start <= c.offset && c.offset + c.size <= offset
      invariant CopiedRange(source, old(target[..]), area.start, offset, target[..])
    {
      var chunkSize := area.length - (offset - area.start);
      if chunkSize > MAX_CHUNK_SIZE {
        chunkSize := MAX_CHUNK_SIZE;
      }
      var c := Chunk(offset, chunkSize);
      var copied, written := CopyChunk(source, target, c, transfers);
      if !copied {
        return chunks, offset + written;
      }
      chunks := chunks + [c];
      offset := offset + chunkSize;
    }
    return chunks, offset;
  }

  /** Copies the extents of one answer in turn. */
  method CopyAreas(source: seq<Byte>, target: array<Byte>, areas: seq<Area>, transfers: nat -> nat) returns (chunks: seq<Chunk>, ok: bool)
    requires target.Length == |source| && forall a | a in areas :: a.start + a.length <= |source|
    modifies target
    ensures forall c | c in chunks :: GoodChunk(c, areas)
    ensures ok ==> Patched(source, old(target[..]), areas, target[..])
    ensures PartlyPatched(source, old(target[..]), areas, target[..])
    ensures (forall o :: transfers(o) >= MAX_CHUNK_SIZE) ==> ok
  {
    chunks := [];
    ghost var was := target[..];
    for k := 0 to |areas|
      invariant forall c | c in chunks :: GoodChunk(c, areas)
      invariant Patched(source, was, areas[..k], target[..])
    {
      ghost var before := target[..];
      var more, end := CopyArea(source, target, areas[k], transfers);
      chunks := chunks + more;
      AreaPatched(source, was, areas, k, before, end, target[..]);
      if end < areas[k].start + areas[k].length {
        return chunks, false;
      }
    }
    assert areas[..|areas|] == areas;
    return chunks, true;
  }

  lemma AreaPatched(source: seq<Byte>, was: seq<Byte>, areas: seq<Area>, k: nat, before: seq<Byte>, end: nat, after: seq<Byte>)
    requires k < |areas| && Patched(source, was, areas[..k], before)
    requires areas[k].start <= end <= areas[k].start + areas[k].length
    requires CopiedRange(source, before, areas[k].start, end, after)
    ensures end == areas[k].start + areas[k].length ==> Patched(source, was, areas[..k + 1], after)
    ensures PartlyPatched(source, was, areas, after)
  {
  }

  /** The copy asks for changes until the end of the disk is reached. On success the target holds the source's
      bytes on every reported extent and its own elsewhere; whenever it fails, it has copied a part of that. */
  method IncrementalCopy(source: seq<Byte>, target: array<Byte>, query: Query, transfers: nat -> nat) returns (chunks: seq<Chunk>, ok: bool, ghost offsets: seq<nat>)
    requires target.Length == |source| > 0 && Honest(query, |source|)
    modifies target
    ensures Chain(query, |source|, offsets)
    ensures ok ==> NextOffset(query, |source|, offsets) == |source|
    ensures ok ==> CopiedChanges(query, source, old(target[..]), offsets, target[..])
    ensures forall c | c in chunks :: GoodChunk(c, Reported(query, |source|, 0))
    ensures ok ==> Patched(source, old(target[..]), Reported(query, |source|, 0), target[..])
    ensures PartlyPatched(source, old(target[..]), Reported(query, |source|, 0), target[..])
    ensures Answers(query, |source|, 0) && (forall o :: transfers(o) >= MAX_CHUNK_SIZE) ==> ok
    ensures !Answers(query, |source|, 0) ==> !ok
  {
    chunks := [];
    offsets := [];
    var startOffset := 0;
    hide Changed, Chain, NextOffset, CopiedChanges;
    NothingAsked(query, |source|);
    ghost var was, all, done := target[..], Reported(query, |source|, 0), [];
    while true
      invariant 0 <= startOffset < |source|
      invariant Chain(query, |source|, offsets) && NextOffset(query, |source|, offsets) == startOffset
      invariant all == done + Reported(query, |source|, startOffset)
      invariant Answers(query, |source|, 0) <==> Answers(query, |source|, startOffset)
      invariant forall c | c in chunks :: GoodChunk(c, all)
      invariant Patched(source, was, done, target[..])
      decreases |source| - startOffset
    {
      var reply := query(startOffset);
      if reply.None? {
        return chunks, false, offsets;
      }
      var info := reply.value;
      AskedOnce(query, |source|, offsets, startOffset);
      offsets := offsets + [startOffset];
      ghost var before := target[..];
      var more, copied := CopyAreas(source, target, info.areas, transfers);
      PatchesCompose(source, was, done, before, info.areas, target[..]);
      assert all == done + info.areas + Reported(query, |source|, startOffset + info.length);
      chunks := chunks + more;
      if !copied {
        return chunks, false, offsets;
      }
      done := done + info.areas;
      startOffset := info.start + info.length;
      if startOffset == |source| {
        assert all == done;
        CopiedByAnswers(query, source, was, offsets, target[..]);
        return chunks, true, offsets;
      }
    }
  }

  /** Every byte in an extent of an answer is the source's, every other one is as it was. */
  ghost predicate CopiedChanges(query: Query, source: seq<Byte>, before: seq<Byte>, offsets: seq<nat>, after: seq<Byte>)
    requires forall k | 0 <= k < |offsets| :: query(offsets[k]).Some?
  {
    && |after| == |before| == |source|
    && forall i | 0 <= i < |after| :: after[i] == if Changed(query, offsets, i) then source[i] else before[i]
  }

  lemma NothingAsked(query: Query, capacity: nat)
    ensures Chain(query, capacity, []) && NextOffset(query, capacity, []) == 0
  {
  }

  lemma AskedOnce(query: Query, capacity: nat, offsets: seq<nat>, offset: nat)
    requires Chain(query, capacity, offsets) && NextOffset(query, capacity, offsets) == offset < capacity && query(offset).Some?
    ensures Chain(query, capacity, offsets + [offset])
    ensures NextOffset(query, capacity, offsets + [offset]) == offset + query(offset).value.length
  {
  }

  lemma CopiedByAnswers(query: Query, source: seq<Byte>, before: seq<Byte>, offsets: seq<nat>, after: seq<Byte>)
    requires Honest(query, |source|) && Chain(query, |source|, offsets) && NextOffset(query, |source|, offsets) == |source|
    requires Patched(source, before, Reported(query, |source|, 0), after)
    ensures forall k | 0 <= k < |offsets| :: query(offsets[k]).Some?
    ensures CopiedChanges(query, source, before, offsets, after)
  {
    forall i
      ensures Covered(Reported(query, |source|, 0), i) <==> Changed(query, offsets, i)
    {
      ReportedIsChanged(query, |source|, offsets, i);
    }
    hide Changed, Covered, Reported;
  }

  /** The reported extents are those of all answers, whichever way the questions are followed. */
  lemma ReportedIsChanged(query: Query, capacity: nat, offsets: seq<nat>, i: nat)
    requires Honest(query, capacity) && Chain(query, capacity, offsets)
    requires NextOffset(query, capacity, offsets) == capacity || query(NextOffset(query, capacity, offsets)).None?
    ensures Covered(Reported(query, capacity, 0), i) <==> Changed(query, offsets, i)
  {
    ReportedFrom(query, capacity, offsets, 0, i);
    hide Reported, Covered;
  }

  lemma {:induction false} ReportedFrom(query: Query, capacity: nat, offsets: seq<nat>, j: nat, i: nat)
    requires Honest(query, capacity) && Chain(query, capacity, offsets) && j <= |offsets|
    requires NextOffset(query, capacity, offsets) == capacity || query(NextOffset(query, capacity, offsets)).None?
    ensures var from := if j < |offsets| then offsets[j] else NextOffset(query, capacity, offsets);
            from <= capacity &&
            (Covered(Reported(query, capacity, from), i) <==>
               exists k, a | j <= k < |offsets| && a in query(offsets[k]).value.areas :: a.start <= i < a.start + a.length)
    decreases |offsets| - j
  {
    if j < |offsets| {
      ReportedFrom(query, capacity, offsets, j + 1, i);
      var answer := query(offsets[j]).value;
      CoveredConcat(answer.areas, Reported(query, capacity, offsets[j] + answer.length), i);
    }
  }

  lemma CoveredConcat(a: seq<Area>, b: seq<Area>, i: nat)
    ensures Covered(a + b, i) <==> Covered(a, i) || Covered(b, i)
  {
  }

  /** Copying further extents onto a patched target patches both; a partial copy patches both in part. */
  lemma PatchesCompose(source: seq<Byte>, was: seq<Byte>, a: seq<Area>, middle: seq<Byte>, b: seq<Area>, after: seq<Byte>)
    requires Patched(source, was, a, middle) && PartlyPatched(source, middle, b, after)
    ensures Patched(source, middle, b, after) ==> Patched(source, was, a + b, after)
    ensures PartlyPatched(source, was, a + b, after)
  {
  }

  /** If the target differed from the source only inside the reported extents, the incremental copy leaves
      the same disk as a full copy. */
  lemma SameAsFullCopy(source: seq<Byte>, before: seq<Byte>, areas: seq<Area>, after: seq<Byte>)
    requires Patched(source, before, areas, after)
    ensures (after == source) <==> forall i | 0 <= i < |source| && !Covered(areas, i) :: before[i] == source[i]
  {
  }

  /** A copy that failed does no harm: trying again with the same extents ends as if it had not failed. */
  lemma RetryAfterFailure(source: seq<Byte>, before: seq<Byte>, areas: seq<Area>, partly: seq<Byte>, after: seq<Byte>)
    requires PartlyPatched(source, before, areas, partly) && Patched(source, partly, areas, after)
    ensures Patched(source, before, areas, after)
  {
  }
}
