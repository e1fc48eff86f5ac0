/** `PropWriteStream` and `PropStream` (src/fileloader.h): a buffer written at its end, and a pointer into
    one that is read. */
module PropStreams {
  import opened Options
  import opened Bytes
  import opened Words

  class PropWriteStream {
    var buffer: seq<byte>

    constructor ()
      ensures buffer == []
    {
      buffer := [];
    }

    method Write8(n: byte)
      modifies this
      ensures buffer == old(buffer) + [n]
    {
      buffer := buffer + [n];
    }

    method Write32(n: uint32)
      modifies this
      ensures buffer == old(buffer) + Le32(n)
    {
      buffer := buffer + Le32(n);
    }

    method WriteRaw(b: seq<byte>)
      modifies this
      ensures buffer == old(buffer) + b
    {
      buffer := buffer + b;
    }

    method Write16(n: uint16)
      modifies this
      ensures buffer == old(buffer) + Le16(n)
    {
      buffer := buffer + Le16(n);
    }

    /** `writeString`. */
    method WriteString(s: seq<byte>)
      modifies this
      ensures buffer == old(buffer) + StringBytes(s)
    {
      if |s| > MAX_STRING {
        Write16(0);
        return;
      }
      Write16(|s|);
      WriteRaw(s);
    }
  }

  class PropStream {
    const data: seq<byte>
    var p: nat

    constructor (data: seq<byte>)
      ensures Valid() && this.data == data && Rest() == data
    {
      this.data, p := data, 0;
    }

    ghost predicate Valid()
      reads this
    {
      p <= |data|
    }

    ghost function Rest(): seq<byte>
      requires Valid()
      reads this
    {
      data[p..]
    }

    /** `read<T>` for a value of `n` bytes: all of them, or none where too few are left. */
    method Read(n: nat) returns (ok: bool, v: seq<byte>)
      requires Valid()
      modifies this`p
      ensures Valid()
      ensures var taken := Take(old(Rest()), n);
              ok == taken.Some? && if ok then v == taken.value.0 && Rest() == taken.value.1 else Rest() == old(Rest())
    {
      if |data| - p < n { return false, []; }
      ok, v := true, data[p..p + n];
      p := p + n;
      assert data[p..] == old(data[p..])[n..];
    }

    /** `readString`. */
    method ReadString() returns (ok: bool, s: seq<byte>)
      requires Valid()
      modifies this`p
      ensures Valid()
      ensures var taken := TakeString(old(Rest()));
              ok == taken.Some? && (ok ==> s == taken.value.0 && Rest() == taken.value.1)
    {
      var length: seq<byte>;
      ok, length := Read(2);
      if !ok { return false, []; }
      ok, s := Read(FromLe16(length));
    }
  }
}
