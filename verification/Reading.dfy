/** A buffered reader over input that ends: what is left of it is its state. */
module Reading {
  import opened Common
  import opened Bytes

  /** `Eof` is any error that unwraps to io.EOF. */
  datatype Err = Ok | Eof | Malformed

  /** A short read is io.EOF only when nothing at all is left. */
  function Short(s: bytes): Err { if s == [] then Eof else Malformed }

  class Reader {
    var rest: bytes

    constructor (input: bytes)
      ensures rest == input
    {
      rest := input;
    }

    /** The next `n` bytes, left in place; None when there are fewer. */
    method Peek(n: nat) returns (r: Option<bytes>)
      ensures r == if n <= |rest| then Some(rest[..n]) else None
    {
      r := if n <= |rest| then Some(rest[..n]) else None;
    }

    method Discard(n: nat)
      requires n <= |rest|
      modifies this
      ensures rest == old(rest)[n..]
    {
      rest := rest[n..];
    }

    method ReadByte() returns (r: Option<byte>)
      modifies this
      ensures old(rest) == [] ==> r.None? && rest == []
      ensures old(rest) != [] ==> r == Some(old(rest)[0]) && rest == old(rest)[1..]
    {
      if rest == [] { return None; }
      r := Some(rest[0]);
      rest := rest[1..];
    }

    /** Puts back the byte just read. */
    method UnreadByte(b: byte)
      modifies this
      ensures rest == [b] + old(rest)
    {
      rest := [b] + rest;
    }

    /** Up to and with the first `delim`; without one, everything, and io.EOF. */
    method ReadString(delim: byte) returns (s: bytes, err: Err)
      modifies this
      ensures var i := IndexByte(old(rest), delim);
        if i < 0 then err == Eof && s == old(rest) && rest == []
        else err == Ok && s == old(rest)[..i + 1] && rest == old(rest)[i + 1..]
    {
      var i := IndexByte(rest, delim);
      if i < 0 {
        s, err, rest := rest, Eof, [];
      } else {
        s, err, rest := rest[..i + 1], Ok, rest[i + 1..];
      }
    }

    method ReadFull(n: nat) returns (s: bytes, err: Err)
      modifies this
      ensures if n <= |old(rest)| then err == Ok && s == old(rest)[..n] && rest == old(rest)[n..]
        else err == Short(old(rest)) && rest == []
    {
      if n <= |rest| {
        s, err, rest := rest[..n], Ok, rest[n..];
      } else {
        s, err, rest := rest, Short(rest), [];
      }
    }
  }
}
