/** `BufferWriter` and `BufferReader`: cursors over raw memory. */
module BufferIO {
  import opened Bytes
  import opened Codec

  /** Writes into `buffer[start..start + size]`. */
  class BufferWriter {
    const buffer: array<byte>
    const start: nat
    const size: nat
    var pos: nat

    ghost predicate Valid()
      reads this
    {
      start + size <= buffer.Length && pos <= size
    }

    ghost function Written(): seq<byte>
      reads this, buffer
      requires Valid()
    {
      buffer[start..start + pos]
    }

    /** Bytes outside the window keep their values. */
    twostate predicate OutsideUnchanged()
      reads this, buffer
      requires Valid()
    {
      forall i | 0 <= i < buffer.Length && !(start <= i < start + size) :: buffer[i] == old(buffer[i])
    }

    constructor (buffer: array<byte>, start: nat, size: nat)
      requires start + size <= buffer.Length
      ensures Valid() && Written() == [] && this.buffer == buffer && this.start == start && this.size == size
    {
      this.buffer, this.start, this.size, pos := buffer, start, size, 0;
    }

    method Write(src: seq<byte>) returns (ok: bool)
      requires Valid()
      modifies this`pos, buffer
      ensures Valid() && OutsideUnchanged()
      ensures ok <==> old(pos) + |src| <= size
      ensures Written() == old(Written()) + (if ok then src else [])
    {
      if size - pos < |src| {
        return false;
      }
      forall i | 0 <= i < |src| {
        buffer[start + pos + i] := src[i];
      }
      pos := pos + |src|;
      return true;
    }

    /** The length is cast to `uint16`; a longer string is written under the cut length. */
    method WriteString(str: seq<byte>) returns (ok: bool)
      requires Valid()
      modifies this`pos, buffer
      ensures Valid() && OutsideUnchanged()
      ensures ok <==> old(pos) + |EncodeValue(Text, Str(str))| <= size
      ensures ok ==> Written() == old(Written()) + EncodeValue(Text, Str(str))
    {
      var len := |str| % U16;
      ok := Write(U16Bytes(|str|));
      if ok && len > 0 {
        ok := Write(str[..len]);
      }
    }
  }

  class BufferReader {
    const data: seq<byte>
    var pos: nat
    var isValid: bool

    ghost predicate Valid()
      reads this
    {
      pos <= |data|
    }

    ghost function Remaining(): seq<byte>
      reads this
      requires Valid()
    {
      data[pos..]
    }

    constructor (data: seq<byte>, pos: nat)
      requires pos <= |data|
      ensures Valid() && isValid && this.data == data && this.pos == pos
    {
      this.data, this.pos, isValid := data, pos, true;
    }

    method Read(len: nat) returns (ok: bool, bs: seq<byte>)
      requires Valid()
      modifies this
      ensures Valid() && (ok <==> len <= |old(Remaining())|)
      ensures ok ==> bs == old(Remaining())[..len] && Remaining() == old(Remaining())[len..] && isValid == old(isValid)
      ensures !ok ==> pos == old(pos) && !isValid
    {
      if |data| - pos < len {
        isValid := false;
        return false, [];
      }
      bs := data[pos..pos + len];
      pos := pos + len;
      return true, bs;
    }

    /** A 16-bit length and that many bytes. */
    method ReadString() returns (ok: bool, str: seq<byte>)
      requires Valid() && isValid
      modifies this
      ensures Valid() && isValid == ok
      ensures match DecodeValue(Text, old(Remaining()))
              case Bad => !ok
              case Got(v, rest) => ok && v == Str(str) && Remaining() == rest
    {
      str := [];
      var bs;
      ok, bs := Read(2);
      if !ok { return; }
      var len := U16Value(bs);
      if |data| - pos < len {
        isValid := false;
        return false, str;
      }
      str := data[pos..pos + len];
      pos := pos + len;
    }
  }
}
