// The ring buffer of agent output (internal/stream/buffer.go).
module RingBuffers {
  import opened Basics

  const DEFAULT_BUFFER_SIZE: nat := 10 * 1024 * 1024

  // The last `n` bytes of a history.
  function Last(history: Bytes, n: nat): Bytes
    requires n <= |history|
  {
    history[|history| - n..]
  }

  function Min(a: nat, b: nat): nat {
    if a < b then a else b
  }

  // The physical position of the byte written `age` bytes before the newest one.
  function Slot(writePos: nat, size: nat, age: nat): int {
    if age < writePos then writePos - 1 - age else writePos - 1 - age + size
  }

  // The array mirrors the most recent bytes of the history.
  ghost predicate Mirrors(data: Bytes, writePos: nat, history: Bytes) {
    && writePos < |data|
    && (|history| < |data| ==> writePos == |history|)
    && (|history| == |data| ==> writePos == 0)
    && forall age :: 0 <= age < Min(|history|, |data|) ==>
         data[Slot(writePos, |data|, age)] == history[|history| - 1 - age]
  }

  // Distance from the write position, going round.
  function Ahead(writePos: nat, size: nat, i: nat): int {
    if i >= writePos then i - writePos else i - writePos + size
  }

  // `after` is `before` with `p` laid out from `writePos` on, wrapping at the end.
  predicate Overwrites(before: Bytes, after: Bytes, writePos: nat, p: Bytes) {
    && |after| == |before|
    && forall i :: 0 <= i < |after| ==>
         after[i] == if 0 <= Ahead(writePos, |after|, i) < |p| then p[Ahead(writePos, |after|, i)] else before[i]
  }

  lemma ModOnce(a: int, size: int)
    requires 0 < size && 0 <= a < 2 * size
    ensures a % size == if a < size then a else a - size
  {
    if a >= size {
      assert a == size * 1 + (a - size);
    }
  }

  // A write shorter than the buffer.
  lemma ShortWriteMirrors(before: Bytes, after: Bytes, writePos: nat, history: Bytes, p: Bytes)
    requires Mirrors(before, writePos, history) && Overwrites(before, after, writePos, p)
    requires 0 < |p| < |before|
    ensures Mirrors(after, (writePos + |p|) % |before|, history + p)
  {
    var size, n := |before|, |p|;
    ModOnce(writePos + n, size);
    var pos := (writePos + n) % size;
    forall age | 0 <= age < Min(|history + p|, size)
      ensures after[Slot(pos, size, age)] == (history + p)[|history + p| - 1 - age]
    {
      var slot := Slot(pos, size, age);
      if age < n {
        assert Ahead(writePos, size, slot) == n - 1 - age;
      } else {
        assert slot == Slot(writePos, size, age - n);
        assert Ahead(writePos, size, slot) >= n;
        assert before[slot] == history[|history| - 1 - (age - n)];
      }
    }
  }

  // A write at least as long as the buffer leaves its own tail.
  lemma LongWriteMirrors(after: Bytes, history: Bytes, p: Bytes)
    requires 0 < |after| <= |p|
    requires forall i :: 0 <= i < |after| ==> after[i] == p[|p| - |after| + i]
    ensures Mirrors(after, 0, history + p)
  {
  }

  // The oldest of the last `n` bytes.
  lemma StartsAt(writePos: nat, size: nat, n: nat)
    requires writePos < size && 0 < n <= size
    ensures (writePos - n % size + size) % size == Slot(writePos, size, n - 1)
    ensures 0 <= Slot(writePos, size, n - 1) < size
  {
    ModOnce(n, size);
    ModOnce(writePos - n % size + size, size);
  }

  // Reading `n` bytes up to the write position, wrapping at the end.
  lemma ReadsLast(data: Bytes, writePos: nat, history: Bytes, n: nat, start: nat, out: Bytes)
    requires Mirrors(data, writePos, history) && 0 < n <= Min(|history|, |data|)
    requires start == Slot(writePos, |data|, n - 1)
    requires out == if start + n <= |data| then data[start..start + n] else data[start..] + data[..n - (|data| - start)]
    ensures out == Last(history, n)
  {
    forall k | 0 <= k < n ensures out[k] == Last(history, n)[k] {
      assert out[k] == data[Slot(writePos, |data|, n - 1 - k)];
    }
  }

  lemma NothingKept(history: Bytes)
    ensures Last(history, 0) == []
  {
  }

  // Go's copy(data[at:], src) for a source that fits.
  method CopyAt(data: array<byte>, at: nat, src: Bytes)
    requires at + |src| <= data.Length
    modifies data
    ensures forall i :: 0 <= i < data.Length ==>
              data[i] == if at <= i < at + |src| then src[i - at] else old(data[i])
  {
    for i := 0 to |src|
      invariant forall k :: 0 <= k < data.Length ==>
                  data[k] == if at <= k < at + i then src[k - at] else old(data[k])
    {
      data[at + i] := src[i];
    }
  }

  class RingBuffer {
    const data: array<byte>
    const size: nat
    var writePos: nat
    var written: nat
    ghost var history: Bytes  // every byte ever written

    ghost predicate Valid()
      reads this, data
    {
      && 0 < size == data.Length
      && written == |history|
      && Mirrors(data[..], writePos, history)
    }

    constructor (requested: int)
      ensures Valid() && fresh(data) && history == []
      ensures size == if requested <= 0 then 10485760 else requested
    {
      var n := if requested <= 0 then DEFAULT_BUFFER_SIZE else requested;
      data := new byte[n];
      size := n;
      writePos, written := 0, 0;
      history := [];
    }

    // Lay out a short write from the write position on.
    method Wrap(p: Bytes)
      requires data.Length == size && writePos < size && 0 < |p| < size
      modifies data
      ensures Overwrites(old(data[..]), data[..], writePos, p)
    {
      var firstChunk := size - writePos;
      if firstChunk >= |p| {
        CopyAt(data, writePos, p);
      } else {
        CopyAt(data, writePos, p[..firstChunk]);
        CopyAt(data, 0, p[firstChunk..]);
      }
    }

    method Write(p: Bytes) returns (n: nat)
      requires Valid()
      modifies this, data
      ensures Valid() && n == |p|
      ensures history == old(history) + p
    {
      n := |p|;
      if n == 0 {
        assert history + p == history;
        return;
      }
      if n >= size {
        CopyAt(data, 0, p[n - size..]);
        LongWriteMirrors(data[..], history, p);
        writePos := 0;
      } else {
        Wrap(p);
        ShortWriteMirrors(old(data[..]), data[..], writePos, history, p);
        writePos := (writePos + n) % size;
      }
      written := written + n;
      history := history + p;
    }

    // The kept tail of the history in every state but one: a buffer that has received exactly `size` bytes reads as empty.
    method ReadAll() returns (out: Bytes)
      requires Valid()
      ensures out == Backlog()
      ensures written < size ==> out == history
      ensures written == size ==> out == []
      ensures written > size ==> out == history[written - size..]
    {
      BacklogIsTail();
      assert written < size ==> Last(history, written) == history;
      if written == 0 {
        return [];
      }
      if written <= size {
        out := data[..writePos];
        return;
      }
      out := data[writePos..] + data[..writePos];
    }

    // What ReadAll returns in the current state.
    function Backlog(): Bytes
      requires Valid()
      reads this, data
    {
      if written <= size then data[..writePos] else data[writePos..] + data[..writePos]
    }

    lemma BacklogIsTail()
      requires Valid()
      ensures Backlog() == if written == size then [] else Last(history, Min(written, size))
    {
      hide Last;
      if written == 0 {
        NothingKept(history);
      } else if written < size {
        assert writePos == written && Slot(writePos, size, written - 1) == 0;
        hide Mirrors;
        ReadsLast(data[..], writePos, history, written, 0, data[..writePos]);
      } else if written > size {
        assert Slot(writePos, size, size - 1) == writePos && writePos < size;
        hide Mirrors;
        assert data[..][writePos..] == data[writePos..] && data[..][..writePos] == data[..writePos];
        if writePos == 0 {
          assert data[..][0..size] == data[0..] + data[..0];
        }
        ReadsLast(data[..], writePos, history, size, writePos, data[writePos..] + data[..writePos]);
      }
    }

    // The part of the history from `offset` on that is still in the buffer.
    method ReadFrom(offset: int) returns (out: Bytes)
      requires Valid()
      ensures written == 0 || offset >= written ==> out == []
      ensures 0 <= offset < written && written - size <= offset ==> out == history[offset..]
      ensures written > size && offset < written - size ==> out == history[written - size..]
      ensures 0 < written <= size && offset < 0 ==> out == history
    {
      if written == 0 || offset >= written {
        return [];
      }
      var earliest: int := written - size;
      if earliest < 0 {
        earliest := 0;
      }
      var start := offset;
      if start < earliest {
        start := earliest;
      }
      var available: nat := written - start;
      StartsAt(writePos, size, available);
      var physStart: nat := (writePos - available % size + size) % size;
      if available > size {
        assert false;  // the source's second clamp is never needed
      }
      hide Mirrors, Slot;
      var firstChunk := size - physStart;
      if firstChunk >= available {
        out := data[physStart..physStart + available];
      } else {
        out := data[physStart..] + data[..available - firstChunk];
      }
      ReadsLast(data[..], writePos, history, available, physStart, out);
      assert out == history[start..] && (start == 0 ==> out == history);
    }

    method Len() returns (n: nat)
      requires Valid()
      ensures n <= |history| && n <= size && (n == |history| || n == size)
    {
      if written < size {
        return written;
      }
      return size;
    }
  }

  // Any sequence of writes, of any sizes.
  method WriteAll(rb: RingBuffer, chunks: seq<Bytes>)
    requires rb.Valid()
    modifies rb, rb.data
    ensures rb.Valid() && rb.history == old(rb.history) + Concat(chunks)
  {
    for i := 0 to |chunks|
      invariant rb.Valid() && rb.history == old(rb.history) + Concat(chunks[..i])
    {
      var _ := rb.Write(chunks[i]);
      assert chunks[..i + 1][..i] == chunks[..i];
    }
    assert chunks[..|chunks|] == chunks;
  }

  // The one wrong answer, on a concrete buffer.
  method FullBufferReadsEmpty() returns (out: Bytes, kept: nat)
    ensures out == [] && kept == 2
  {
    var rb := new RingBuffer(2);
    var _ := rb.Write([1, 2]);
    out := rb.ReadAll();
    kept := rb.Len();
  }
}
