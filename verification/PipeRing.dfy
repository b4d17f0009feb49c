/**
 The buffer of kernel/core/pipe.c: a ring of 512 bytes filled and drained one byte at a time, as
 the sequence of bytes it holds.
 */
module PipeRing {
  import opened PipeWorld

  function At(start: nat, i: nat): (k: nat)
    ensures k < CAPACITY
  {
    (start + i) % CAPACITY
  }

  lemma AtMoves(start: nat, i: nat)
    ensures At(At(start, 1), i) == At(start, i + 1)
  {
  }

  lemma AtDistinct(start: nat, i: nat, j: nat)
    requires i < CAPACITY && j < CAPACITY && i != j
    ensures At(start, i) != At(start, j)
  {
  }

  class Ring {
    const buffer: array<bv8>
    var readPos: nat
    var writePos: nat
    var size: nat

    ghost predicate Valid()
      reads this
    {
      buffer.Length == CAPACITY && size <= CAPACITY && readPos < CAPACITY && writePos == At(readPos, size)
    }

    ghost function Contents(): (s: seq<bv8>)
      reads this, buffer
      requires Valid()
      ensures |s| == size && forall i :: 0 <= i < size ==> s[i] == buffer[At(readPos, i)]
    {
      seq(size, i requires 0 <= i < size && Valid() reads this, buffer => buffer[At(readPos, i)])
    }

    constructor ()
      ensures Valid() && Contents() == [] && fresh(buffer)
    {
      buffer := new bv8[CAPACITY];
      readPos, writePos, size := 0, 0, 0;
    }

    method PopByte() returns (b: bv8)
      requires Valid() && size > 0
      modifies this
      ensures Valid() && [b] + Contents() == old(Contents())
    {
      hide At;
      ghost var was := Contents();
      b := buffer[readPos];
      assert was[0] == b by { AtStart(readPos); }
      ghost var start := readPos;
      readPos := At(readPos, 1);
      size := size - 1;
      AtMoves(start, size);
      forall i | 0 <= i < size ensures Contents()[i] == was[i + 1] { AtMoves(start, i); }
    }

    method PushByte(b: bv8)
      requires Valid() && size < CAPACITY
      modifies this, buffer
      ensures Valid() && Contents() == old(Contents()) + [b]
    {
      hide At;
      ghost var was := Contents();
      buffer[writePos] := b;
      writePos := At(writePos, 1);
      AtNext(readPos, size);
      size := size + 1;
      forall i | 0 <= i < size - 1 ensures Contents()[i] == was[i] { AtDistinct(readPos, i, size - 1); }
      assert Contents()[size - 1] == b;
    }

    /** The loop of kernel_pipe_read: the oldest bytes, at most `want` of them. */
    method Take(want: nat) returns (out: seq<bv8>)
      requires Valid()
      modifies this
      ensures Valid() && |out| == Min(want, old(size)) && out + Contents() == old(Contents())
    {
      hide At;
      out := [];
      while |out| < want && size > 0
        invariant Valid() && |out| <= want && |out| + size == old(size) && out + Contents() == old(Contents())
        decreases size
      {
        ghost var rest := Contents();
        var b := PopByte();
        assert out + rest == (out + [b]) + Contents();
        out := out + [b];
      }
    }

    /** The loop of kernel_pipe_write: as much of the text as there is room for. */
    method Put(text: seq<bv8>) returns (n: nat)
      requires Valid()
      modifies this, buffer
      ensures Valid() && n == Min(|text|, CAPACITY - old(size)) && Contents() == old(Contents()) + text[..n]
    {
      hide At;
      n := 0;
      while n < |text| && size < CAPACITY
        invariant Valid() && n <= |text| && size == old(size) + n && Contents() == old(Contents()) + text[..n]
        decreases |text| - n
      {
        PushByte(text[n]);
        n := n + 1;
      }
    }
  }

  lemma AtStart(start: nat)
    requires start < CAPACITY
    ensures At(start, 0) == start
  {
  }

  lemma AtNext(start: nat, i: nat)
    ensures At(At(start, i), 1) == At(start, i + 1)
  {
  }

  // Wakes do not touch the data.
  lemma PassOnData(w: World, k: nat, d: Dir)
    requires k < |w.pipes|
    ensures PassOn(w, k, d).pipes[k].data == w.pipes[k].data
  {
  }

  // What the loops compute is what the machine's transfers do to a pipe's data.
  lemma TransfersAgree(w: World, k: nat, want: nat, text: seq<bv8>, out: seq<bv8>, rest: seq<bv8>, n: nat)
    requires k < |w.pipes| && |w.pipes[k].data| <= CAPACITY
    requires out + rest == w.pipes[k].data && |out| == Min(want, |w.pipes[k].data|)
    requires n == Min(|text|, CAPACITY - |w.pipes[k].data|)
    ensures out != [] ==> ReadPipe(w, k, want).1 == Done(|out|, out) && ReadPipe(w, k, want).0.pipes[k].data == rest
    ensures out == [] ==> ReadPipe(w, k, want) == (w, if w.pipes[k].writers > 0 then Block else Done(0, []))
    ensures w.pipes[k].readers == 0 ==> WritePipe(w, k, text) == (w, Broken)
    ensures w.pipes[k].readers > 0 && n == 0 ==>
              WritePipe(w, k, text) == (w, if |w.pipes[k].data| == CAPACITY then Block else Done(0, []))
    ensures w.pipes[k].readers > 0 && n > 0 ==>
              WritePipe(w, k, text).1 == Done(n, [])
                  && WritePipe(w, k, text).0.pipes[k].data == w.pipes[k].data + text[..n]
  {
    hide PassOn;
    var data := w.pipes[k].data;
    assert data[..|out|] == out && data[|out|..] == rest;
    assert SetPipe(w, k, w.pipes[k].(data := data)) == w && data[0..] == data && data + text[..0] == data;
    PassOnData(SetPipe(w, k, w.pipes[k].(data := rest)), k, Reading);
    PassOnData(SetPipe(w, k, w.pipes[k].(data := data + text[..n])), k, Writing);
  }
}
