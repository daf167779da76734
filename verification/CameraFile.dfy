/** Files in memory: a queue of bytes. */
module CameraFile {
  import opened Prelude

  /** A file object. A file on a descriptor keeps its bytes there. */
  class File {
    const onDescriptor: bool
    var data: array<Byte>
    var size: nat
    var offset: nat
    /** What the descriptor holds. */
    var written: seq<Byte>

    ghost predicate Valid()
      reads this
    {
      data.Length == size && offset <= size
    }

    /** Everything appended so far. */
    ghost function Contents(): seq<Byte>
      reads this, data
    {
      if onDescriptor then written else data[..]
    }

    constructor (onDescriptor: bool)
      ensures Valid() && Contents() == [] && offset == 0 && fresh(data) && this.onDescriptor == onDescriptor
    {
      this.onDescriptor, size, offset, written := onDescriptor, 0, 0, [];
      data := new Byte[0];
    }

    /**
     * Appends bytes. A file in memory takes them all; a descriptor takes what its successive writes return,
     * until one returns nothing or an error.
     */
    method Append(bytes: array<Byte>, writes: seq<int>) returns (ok: bool)
      requires Valid()
      requires onDescriptor ==> AnswersFor(writes, bytes.Length)
      modifies this
      ensures Valid() && offset == old(offset) && (data == old(data) || fresh(data))
      ensures !onDescriptor ==> ok && Contents() == old(Contents()) + bytes[..]
      ensures onDescriptor ==> var n := Taken(writes, bytes.Length);
        ok == (n == bytes.Length) && Contents() == old(Contents()) + bytes[..n]
    {
      if !onDescriptor {
        var both := size + bytes.Length;
        var bigger := new Byte[both](i requires 0 <= i < both && both == size + bytes.Length && Valid()
          reads this, data, bytes =>
          if i < size then data[i] else bytes[i - size]);
        data := bigger;
        size := size + bytes.Length;
        assert data[..] == old(Contents()) + bytes[..];
        return true;
      }
      var done, k := 0, 0;
      while done < bytes.Length
        invariant done <= bytes.Length && k <= |writes| && AnswersFor(writes[k..], bytes.Length - done)
        invariant Taken(writes, bytes.Length) == done + Taken(writes[k..], bytes.Length - done)
        invariant Valid() && written == old(written) + bytes[..done] && offset == old(offset) && data == old(data)
        decreases |writes| - k
      {
        var res := writes[k];
        if res <= 0 {
          return false;
        }
        assert bytes[..done + res] == bytes[..done] + bytes[done..done + res];
        written := written + bytes[done..done + res];
        assert writes[k..][1..] == writes[k + 1..];
        done, k := done + res, k + 1;
      }
      assert bytes[..done] == bytes[..];
      return true;
    }

    /** Reads the next bytes of a file in memory into a buffer. */
    method Slurp(buffer: array<Byte>, wanted: nat) returns (n: nat)
      requires Valid() && !onDescriptor && wanted <= buffer.Length && buffer != data
      modifies this`offset, buffer
      ensures Valid() && Contents() == old(Contents()) && offset == old(offset) + n
      ensures n == (if wanted > size - old(offset) then size - old(offset) else wanted)
      ensures buffer[..n] == Contents()[old(offset)..offset] && buffer[n..] == old(buffer[n..])
    {
      n := wanted;
      if n > size - offset {
        n := size - offset;
      }
      forall i | 0 <= i < n {
        buffer[i] := data[offset + i];
      }
      offset := offset + n;
    }
  }

  /** Answers to successive writes: an error or nothing ends them, otherwise some of what is left is taken. */
  predicate AnswersFor(writes: seq<int>, left: nat) {
    left == 0 || (writes != [] && (writes[0] > 0 ==> writes[0] <= left && AnswersFor(writes[1..], left - writes[0])))
  }

  /** How much the writes take. */
  function Taken(writes: seq<int>, left: nat): (n: nat)
    requires AnswersFor(writes, left)
    ensures n <= left
  {
    if left == 0 || writes[0] <= 0 then 0 else writes[0] + Taken(writes[1..], left - writes[0])
  }

  datatype Op = Write(bytes: seq<Byte>) | Read(wanted: nat)

  function AllWritten(ops: seq<Op>): seq<Byte> {
    if ops == [] then []
    else AllWritten(ops[..|ops| - 1]) + (if ops[|ops| - 1].Write? then ops[|ops| - 1].bytes else [])
  }

  /**
   * Any interleaving of appending and reading behaves as a queue: what was read is the beginning of what was
   * written.
   */
  method Queue(ops: seq<Op>) returns (file: File, got: seq<Byte>)
    ensures file.Valid() && file.Contents() == AllWritten(ops)
    ensures file.offset == |got| <= |AllWritten(ops)| && got == AllWritten(ops)[..|got|]
  {
    file := new File(false);
    got := [];
    var k := 0;
    while k < |ops|
      invariant k <= |ops| && fresh(file) && fresh(file.data) && file.Valid() && !file.onDescriptor
      invariant file.Contents() == AllWritten(ops[..k])
      invariant file.offset == |got| && got == file.Contents()[..|got|]
    {
      assert ops[..k + 1][..k] == ops[..k];
      match ops[k] {
        case Write(bytes) =>
          var buffer := new Byte[|bytes|](i requires 0 <= i < |bytes| => bytes[i]);
          assert buffer[..] == bytes;
          var _ := file.Append(buffer, []);
        case Read(wanted) =>
          var buffer := new Byte[wanted](_ => 0);
          var n := file.Slurp(buffer, wanted);
          got := got + buffer[..n];
      }
      k := k + 1;
    }
    assert ops[..k] == ops;
  }
}
