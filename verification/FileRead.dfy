/** Reading a file in chunks: a clamped size per read and the offset to go on from. The text is kept as bytes. */
module FileRead {
  import opened Results

  const DEFAULT_READ_BYTES: nat := 64 * 1024
  const MAX_READ_BYTES: nat := 256 * 1024

  /** What one read returns. */
  datatype Chunk<T> = Chunk(data: seq<T>, truncated: bool, nextOffset: Option<nat>)

  function BoundedSize(maxBytes: Option<nat>): nat {
    var wanted := if maxBytes.Some? then maxBytes.value else DEFAULT_READ_BYTES;
    if wanted < MAX_READ_BYTES then wanted else MAX_READ_BYTES
  }

  function Min(a: nat, b: nat): nat {
    if a < b then a else b
  }

  function ReadFileChunk<T>(file: seq<T>, offset: nat, maxBytes: Option<nat>): Chunk<T> {
    var start := Min(offset, |file|);
    var end := Min(start + BoundedSize(maxBytes), |file|);
    Chunk(file[start..end], end < |file|, if end < |file| then Some(end) else None)
  }

  datatype Reads<T> = Reads(data: seq<T>, count: nat)

  /** The reads a caller makes that follows every next offset, all its data, and whether it came to an end in `fuel` reads. */
  function Follow<T>(file: seq<T>, offset: nat, maxBytes: Option<nat>, fuel: nat): Option<Reads<T>>
    decreases fuel
  {
    if fuel == 0 then None
    else
      var chunk := ReadFileChunk(file, offset, maxBytes);
      match chunk.nextOffset
      case None => Some(Reads(chunk.data, 1))
      case Some(next) =>
        match Follow(file, next, maxBytes, fuel - 1)
        case None => None
        case Some(rest) => Some(Reads(chunk.data + rest.data, 1 + rest.count))
  }

  /** The reads that `remaining` bytes take at `size` bytes each. */
  function ReadsNeeded(remaining: nat, size: nat): (r: nat)
    requires size > 0
    ensures r >= 1
  {
    if remaining <= size then 1 else 1 + ReadsNeeded(remaining - size, size)
  }

  /** That is the quotient rounded up, and at least one. */
  lemma {:induction false} ReadsNeededIsCeiling(remaining: nat, size: nat)
    requires size > 0
    ensures var r := ReadsNeeded(remaining, size); remaining <= size * r && (r == 1 || size * (r - 1) < remaining)
  {
    if remaining > size {
      ReadsNeededIsCeiling(remaining - size, size);
    }
  }

  lemma LastChunk<T>(file: seq<T>, offset: nat, maxBytes: Option<nat>)
    requires offset <= |file| <= offset + BoundedSize(maxBytes)
    ensures ReadFileChunk(file, offset, maxBytes) == Chunk(file[offset..], false, None)
  {
  }

  lemma FurtherChunk<T>(file: seq<T>, offset: nat, maxBytes: Option<nat>)
    requires offset + BoundedSize(maxBytes) < |file|
    ensures var next := offset + BoundedSize(maxBytes);
            && ReadFileChunk(file, offset, maxBytes) == Chunk(file[offset..next], true, Some(next))
            && file[offset..] == file[offset..next] + file[next..]
  {
  }

  lemma {:induction false} FollowFrom<T>(file: seq<T>, offset: nat, maxBytes: Option<nat>, fuel: nat)
    requires offset <= |file| && BoundedSize(maxBytes) > 0
    requires fuel >= ReadsNeeded(|file| - offset, BoundedSize(maxBytes))
    ensures Follow(file, offset, maxBytes, fuel)
            == Some(Reads(file[offset..], ReadsNeeded(|file| - offset, BoundedSize(maxBytes))))
    decreases fuel
  {
    var size := BoundedSize(maxBytes);
    if |file| - offset <= size {
      LastChunk(file, offset, maxBytes);
    } else {
      FurtherChunk(file, offset, maxBytes);
      FollowFrom(file, offset + size, maxBytes, fuel - 1);
    }
  }

  /**
   Following the next offsets from the start reads the whole file, each byte once and in order, and ends after as many
   reads as the file has started chunks, and at least one.
   */
  lemma ChunksAreTheFile<T>(file: seq<T>, maxBytes: Option<nat>, fuel: nat)
    requires maxBytes != Some(0)
    requires fuel >= ReadsNeeded(|file|, BoundedSize(maxBytes))
    ensures Follow(file, 0, maxBytes, fuel) == Some(Reads(file, ReadsNeeded(|file|, BoundedSize(maxBytes))))
  {
    FollowFrom(file, 0, maxBytes, fuel);
    assert file[0..] == file;
  }

  lemma {:induction false} ZeroNeverEnds<T>(file: seq<T>, fuel: nat)
    requires file != []
    ensures Follow(file, 0, Some(0), fuel).None?
  {
    if fuel > 0 {
      ZeroNeverEnds(file, fuel - 1);
    }
  }

  /** Following the next offsets comes to an end exactly when the size asked for is not zero or the file is empty. */
  lemma EndsIff<T>(file: seq<T>, maxBytes: Option<nat>)
    ensures (exists fuel: nat :: Follow(file, 0, maxBytes, fuel).Some?) <==> maxBytes != Some(0) || file == []
  {
    if maxBytes != Some(0) {
      ChunksAreTheFile(file, maxBytes, ReadsNeeded(|file|, BoundedSize(maxBytes)));
    } else if file == [] {
      assert Follow(file, 0, maxBytes, 1).Some?;
    } else {
      forall fuel: nat ensures Follow(file, 0, maxBytes, fuel).None? {
        ZeroNeverEnds(file, fuel);
      }
    }
  }

  /** 64 KiB when nothing is said, and never more than 256 KiB. */
  lemma SizeIs(maxBytes: Option<nat>)
    ensures maxBytes == None ==> BoundedSize(maxBytes) == 65536
    ensures maxBytes.Some? && maxBytes.value <= 262144 ==> BoundedSize(maxBytes) == maxBytes.value
    ensures maxBytes.Some? && maxBytes.value > 262144 ==> BoundedSize(maxBytes) == 262144
  {
  }

  /** A chunk holds the bytes from the offset on, as many as allowed and there are; it names an offset if some are left. */
  lemma ChunkIs<T>(file: seq<T>, offset: nat, maxBytes: Option<nat>)
    ensures var chunk, size := ReadFileChunk(file, offset, maxBytes), BoundedSize(maxBytes);
            && (offset >= |file| ==> chunk == Chunk([], false, None))
            && (offset < |file| <= offset + size ==> chunk == Chunk(file[offset..], false, None))
            && (offset + size < |file| ==> chunk == Chunk(file[offset..offset + size], true, Some(offset + size)))
  {
  }
}
