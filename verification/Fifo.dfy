/** Reading records of 36 bytes and a newline from a FIFO through a fixed buffer. */
module Fifo {
  import opened Basics

  const NEWLINE: Byte := 10
  const UUID_SIZE := 36
  const BUFFER_SIZE := 1024

  // ---- What a stream of bytes contains ----

  predicate StartsWithRecord(b: Bytes) {
    |b| > UUID_SIZE && b[UUID_SIZE] == NEWLINE
  }

  function Records(b: Bytes): seq<Bytes> {
    if StartsWithRecord(b) then [b[..UUID_SIZE]] + Records(b[UUID_SIZE + 1..]) else []
  }

  /** What is left when no further record can be taken off. */
  function Rest(b: Bytes): Bytes {
    if StartsWithRecord(b) then Rest(b[UUID_SIZE + 1..]) else b
  }

  /** Records as they stand in the stream, each with its newline. */
  function Lines(records: seq<Bytes>): Bytes {
    if records == [] then [] else records[0] + [NEWLINE] + Lines(records[1..])
  }

  /** Where the newline of the record number `k` belongs. */
  function Boundary(k: nat): nat {
    k * (UUID_SIZE + 1) + UUID_SIZE
  }

  /** A byte at the end of a record's place that is not a newline. */
  ghost predicate Misplaced(b: Bytes) {
    exists k: nat :: Boundary(k) < |b| && b[Boundary(k)] != NEWLINE
  }

  /** Nothing is dropped, added or reordered. */
  lemma {:induction false} RecordsAndRest(b: Bytes)
    ensures Lines(Records(b)) + Rest(b) == b
    ensures forall r :: r in Records(b) ==> |r| == UUID_SIZE
    decreases |b|
  {
    hide Records, Rest, Lines;
    RecordsStep(b);
    if StartsWithRecord(b) {
      var r, c := b[..UUID_SIZE], b[UUID_SIZE + 1..];
      RecordsAndRest(c);
      LinesStep(r, Records(c));
      assert b == r + [NEWLINE] + c;
    } else {
      NoLines();
    }
  }

  lemma LinesStep(r: Bytes, records: seq<Bytes>)
    ensures Lines([r] + records) == r + [NEWLINE] + Lines(records)
  {
    assert ([r] + records)[1..] == records;
  }

  lemma NoLines()
    ensures Lines([]) == []
  {
  }

  /** Taking off the first record. */
  lemma RecordsStep(b: Bytes)
    ensures Records(b) == if StartsWithRecord(b) then [b[..UUID_SIZE]] + Records(b[UUID_SIZE + 1..]) else []
    ensures Rest(b) == if StartsWithRecord(b) then Rest(b[UUID_SIZE + 1..]) else b
  {
  }

  /** The reader gets stuck exactly at a misplaced record boundary. */
  lemma {:induction false} StuckIffMisplaced(b: Bytes)
    ensures |Rest(b)| > UUID_SIZE <==> Misplaced(b)
    decreases |b|
  {
    if StartsWithRecord(b) {
      var c := b[UUID_SIZE + 1..];
      StuckIffMisplaced(c);
      if Misplaced(c) {
        var k: nat :| Boundary(k) < |c| && c[Boundary(k)] != NEWLINE;
        assert b[Boundary(k + 1)] == c[Boundary(k)];
      }
      if Misplaced(b) {
        var k: nat :| Boundary(k) < |b| && b[Boundary(k)] != NEWLINE;
        assert k > 0;
        assert c[Boundary(k - 1)] == b[Boundary(k)];
      }
    } else if |b| > UUID_SIZE {
      assert b[Boundary(0)] != NEWLINE;
    }
  }

  /** Taking off what has arrived and then what arrives is the same as taking off both at once. */
  lemma {:induction false} ChunksDoNotMatter(a: Bytes, b: Bytes)
    requires |Rest(a)| <= UUID_SIZE
    ensures Records(a + b) == Records(a) + Records(Rest(a) + b)
    ensures Rest(a + b) == Rest(Rest(a) + b)
    decreases |a|
  {
    hide Records, Rest;
    RecordsStep(a);
    RecordsStep(a + b);
    if StartsWithRecord(a) {
      ChunksDoNotMatter(a[UUID_SIZE + 1..], b);
      assert (a + b)[UUID_SIZE + 1..] == a[UUID_SIZE + 1..] + b;
      assert (a + b)[..UUID_SIZE] == a[..UUID_SIZE];
    }
  }

  /** Once stuck, more bytes do not help. */
  lemma {:induction false} StuckStays(a: Bytes, b: Bytes)
    requires |Rest(a)| > UUID_SIZE
    ensures Records(a + b) == Records(a) && Rest(a + b) == Rest(a) + b
    decreases |a|
  {
    if StartsWithRecord(a) {
      StuckStays(a[UUID_SIZE + 1..], b);
      assert (a + b)[UUID_SIZE + 1..] == a[UUID_SIZE + 1..] + b;
      assert (a + b)[..UUID_SIZE] == a[..UUID_SIZE];
    }
  }

  // ---- The reader ----

  class Reader {
    const buf: array<Byte>
    var end: nat
    /** What has been passed to the observer. */
    var emitted: seq<Bytes>
    /** Every byte that has been read. */
    ghost var seen: Bytes

    /** Between two reads: all whole records are out, and less than one record waits in the buffer. */
    ghost predicate Valid()
      reads this, buf
    {
      && buf.Length == BUFFER_SIZE && end <= UUID_SIZE
      && emitted == Records(seen) && buf[..end] == Rest(seen)
    }

    constructor ()
      ensures Valid() && fresh(buf) && seen == []
    {
      buf := new Byte[BUFFER_SIZE];
      end, emitted, seen := 0, [], [];
    }

    /** Move the bytes behind the first record to the front, within the buffer. */
    method ShiftRecord()
      requires UUID_SIZE < end <= buf.Length
      modifies this`end, buf
      ensures end == old(end) - (UUID_SIZE + 1)
      ensures buf[..end] == old(buf[UUID_SIZE + 1..end])
    {
      for i := 0 to end - (UUID_SIZE + 1)
        invariant end == old(end)
        invariant buf[..i] == old(buf[UUID_SIZE + 1..UUID_SIZE + 1 + i])
        invariant buf[i..] == old(buf[i..])
      {
        assert buf[i..][UUID_SIZE + 1] == old(buf[i..])[UUID_SIZE + 1];
        buf[i] := buf[i + UUID_SIZE + 1];
      }
      end := end - (UUID_SIZE + 1);
    }

    /** What the system call does: put the bytes behind those in the buffer. */
    method Fill(chunk: Bytes)
      requires end + |chunk| <= buf.Length
      modifies this`end, buf
      ensures end == old(end) + |chunk| && buf[..end] == old(buf[..end]) + chunk
    {
      for i := 0 to |chunk|
        invariant end == old(end)
        invariant buf[..end] == old(buf[..end]) && buf[end..end + i] == chunk[..i]
      {
        buf[end + i] := chunk[i];
      }
      end := end + |chunk|;
    }

    /** Take whole records off the front; false is the exception at a bad boundary. */
    method Drain() returns (ok: bool)
      requires end <= buf.Length
      modifies this`end, this`emitted, buf
      ensures end <= buf.Length
      ensures emitted == old(emitted) + Records(old(buf[..end]))
      ensures buf[..end] == Rest(old(buf[..end]))
      ensures ok <==> end <= UUID_SIZE
    {
      ghost var all := buf[..end];
      while end > UUID_SIZE
        invariant end <= buf.Length
        invariant old(emitted) + Records(all) == emitted + Records(buf[..end])
        invariant Rest(all) == Rest(buf[..end])
      {
        ghost var b := buf[..end];
        if buf[UUID_SIZE] != NEWLINE {
          return false;
        }
        emitted := emitted + [buf[..UUID_SIZE]];
        assert b[..UUID_SIZE] == buf[..UUID_SIZE];
        ShiftRecord();
        assert buf[..end] == b[UUID_SIZE + 1..];
      }
      ok := true;
    }

    /** One read of at most the free part of the buffer, and what can be taken off after it. */
    method Read(chunk: Bytes) returns (ok: bool)
      requires Valid() && |chunk| <= buf.Length - end
      modifies this, buf
      ensures seen == old(seen) + chunk
      ensures emitted == Records(seen)
      ensures ok <==> !Misplaced(seen)
      ensures ok ==> Valid()
    {
      hide Records, Rest, Misplaced;
      Fill(chunk);
      seen := seen + chunk;
      ChunksDoNotMatter(old(seen), chunk);
      StuckIffMisplaced(seen);
      ok := Drain();
    }

    /** Read a stream in pieces of any sizes, until it is used up or a boundary is bad. */
    method ReadAll(input: Bytes, sizes: seq<nat>) returns (ok: bool, pos: nat)
      requires Valid() && seen == []
      modifies this, buf
      ensures pos <= |input| && seen == input[..pos]
      ensures emitted == Records(input[..pos])
      ensures ok <==> !Misplaced(input[..pos])
      ensures ok ==> Valid()
    {
      pos, ok := 0, true;
      assert input[..0] == [];
      StuckIffMisplaced([]);
      for i := 0 to |sizes|
        invariant pos <= |input| && seen == input[..pos] && ok && Valid()
        invariant !Misplaced(seen)
      {
        var room := buf.Length - end;
        assert room >= BUFFER_SIZE - UUID_SIZE;
        var n := if sizes[i] < room then sizes[i] else room;
        n := if n < |input| - pos then n else |input| - pos;
        assert input[..pos] + input[pos..pos + n] == input[..pos + n];
        ok := Read(input[pos..pos + n]);
        pos := pos + n;
        if !ok {
          return;
        }
      }
    }
  }
}
