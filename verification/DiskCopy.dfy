/** The guest disk: a boot record, then the file system, copied extent by extent
    so that the holes of the sparse source stay holes. */
module DiskCopy {
  import opened Basics
  import opened Wire

  const BLOCK: nat := 1024 * 1024

  /** A sparse file: bytes that are not allocated read as zero. */
  datatype Source = Source(data: Message, present: seq<bool>)

  predicate Valid(s: Source)
  {
    |s.present| == |s.data| && forall i :: 0 <= i < |s.data| && !s.present[i] ==> s.data[i] == 0
  }

  /** `lseek(SEEK_DATA)`: the next allocated byte; None is ENXIO. */
  function SeekData(s: Source, from: nat): (r: Option<nat>)
    requires Valid(s)
    ensures r.Some? ==> from <= r.value < |s.data| && s.present[r.value]
    ensures r.Some? ==> forall i :: from <= i < r.value ==> !s.present[i]
    ensures r.None? ==> forall i :: from <= i < |s.data| ==> !s.present[i]
    decreases |s.data| - from
  {
    if from >= |s.data| then None else if s.present[from] then Some(from) else SeekData(s, from + 1)
  }

  /** `lseek(SEEK_HOLE)`: the next byte that is not allocated, or the end. */
  function SeekHole(s: Source, from: nat): (r: nat)
    requires Valid(s) && from < |s.data|
    ensures from <= r <= |s.data|
    ensures s.present[from] ==> from < r
    decreases |s.data| - from
  {
    if !s.present[from] then from else if from + 1 == |s.data| then from + 1 else SeekHole(s, from + 1)
  }

  /** The byte that a reader of the source sees; past its end there is nothing to copy. */
  function ByteAt(s: Source, i: nat): (b: Byte)
  {
    if i < |s.data| then s.data[i] else 0
  }

  function Zeros(n: nat): (z: Message)
    ensures |z| == n && forall i :: 0 <= i < n ==> z[i] == 0
  {
    seq(n, _ => 0)
  }

  /** The copy so far: exact below `done`, still zero from there on. */
  ghost predicate CopiedUpTo(disk: array<Byte>, s: Source, record: Message, offset: nat, done: nat)
    requires |record| <= offset && offset + done <= disk.Length
    reads disk
  {
    && disk[..offset] == record + Zeros(offset - |record|)
    && (forall i :: 0 <= i < done ==> disk[offset + i] == ByteAt(s, i))
    && (forall i :: offset + done <= i < disk.Length ==> disk[i] == 0)
  }

  /** A hole: nothing to write, the zeros are already there. */
  lemma SkipHole(disk: array<Byte>, s: Source, record: Message, offset: nat, from: nat, to: nat)
    requires Valid(s) && |record| <= offset && from <= to && offset + to <= disk.Length
    requires CopiedUpTo(disk, s, record, offset, from)
    requires forall i :: from <= i < to && i < |s.data| ==> !s.present[i]
    ensures CopiedUpTo(disk, s, record, offset, to)
  {
  }

  /** A read came back empty although the extent goes on. */
  datatype UnexpectedEnd = UnexpectedEnd(at: nat)

  /** One extent, in blocks; a read may return less than it was asked for. */
  method CopyExtent(
      disk: array<Byte>, s: Source, ghost record: Message, offset: nat, from: nat, end: nat, pieces: nat -> nat)
    returns (r: Result<(), UnexpectedEnd>)
    requires Valid(s) && |record| <= offset && from <= end <= |s.data| && offset + end <= disk.Length
    requires CopiedUpTo(disk, s, record, offset, from)
    modifies disk
    ensures r.Ok? ==> CopiedUpTo(disk, s, record, offset, end)
    ensures r.Err? ==> from <= r.error.at < end && pieces(r.error.at) == 0
    ensures r.Err? ==> CopiedUpTo(disk, s, record, offset, r.error.at)
  {
    var start := from;
    while start < end
      invariant from <= start <= end
      invariant CopiedUpTo(disk, s, record, offset, start)
    {
      var count := Min(pieces(start), Min(BLOCK, end - start));
      if count == 0 {
        return Err(UnexpectedEnd(start));
      }
      var block := s.data[start..start + count];
      for k := 0 to count
        invariant CopiedUpTo(disk, s, record, offset, start + k)
      {
        disk[offset + start + k] := block[k];
      }
      start := start + count;
    }
    return Ok(());
  }

  /** The whole disk: the boot record, zeros up to the partition, and then every
      byte of the file system at its place, whatever its holes. The loop always
      ends, and fails only if a read comes back empty. */
  method BuildDisk(s: Source, record: Message, offset: nat, size: nat, pieces: nat -> nat)
    returns (r: Result<array<Byte>, UnexpectedEnd>)
    requires Valid(s) && |record| <= offset
    ensures r.Ok? ==> fresh(r.value) && r.value.Length == offset + size
    ensures r.Ok? ==> r.value[..offset] == record + Zeros(offset - |record|)
    ensures r.Ok? ==> forall i :: 0 <= i < size ==> r.value[offset + i] == ByteAt(s, i)
    ensures r.Err? ==> r.error.at < size && r.error.at < |s.data| && pieces(r.error.at) == 0
  {
    var disk := new Byte[offset + size](i => if 0 <= i < |record| then record[i] else 0);
    assert disk[..offset] == record + Zeros(offset - |record|);
    var current := 0;
    while current < size
      invariant 0 <= current <= size
      invariant CopiedUpTo(disk, s, record, offset, current)
      decreases size - current
    {
      var start := SeekData(s, current);
      if start.None? {
        SkipHole(disk, s, record, offset, current, size);
        return Ok(disk);
      }
      var end := Min(SeekHole(s, start.value), size);
      SkipHole(disk, s, record, offset, current, Min(start.value, size));
      if start.value < end {
        var copied := CopyExtent(disk, s, record, offset, start.value, end, pieces);
        if copied.Err? {
          return Err(copied.error);
        }
      }
      current := end;
    }
    return Ok(disk);
  }
}
