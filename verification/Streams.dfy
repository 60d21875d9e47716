/** Byte streams delivered in pieces the reader does not control. */
module Streams {
  import opened Collections

  type Byte = x: int | 0 <= x < 256

  type Bytes = seq<Byte>

  /** The receiving side of a connection; `data` is everything it will ever deliver. */
  class Reader {
    const data: Bytes
    var pos: nat

    ghost predicate Valid()
      reads this
    {
      pos <= |data|
    }

    function Rest(): Bytes
      requires Valid()
      reads this
    {
      data[pos..]
    }

    constructor (data: Bytes)
      ensures Valid() && this.data == data && pos == 0
    {
      this.data := data;
      pos := 0;
    }

    /** One read: some bytes, at most `max`; none means the stream has ended or failed. */
    method Read(max: nat, chunk: nat) returns (got: Bytes)
      requires Valid()
      modifies this
      ensures Valid() && pos == old(pos) + |got|
      ensures got == data[old(pos)..pos]
      ensures |got| <= max
      ensures max > 0 && old(pos) < |data| ==> |got| > 0
    {
      var n := if chunk == 0 then 1 else chunk;
      if n > max { n := max; }
      if n > |data| - pos { n := |data| - pos; }
      got := data[pos..pos + n];
      pos := pos + n;
    }

    /** Reads until `n` bytes have arrived, in whatever pieces; otherwise everything there was is gone. */
    method ReadFull(n: nat) returns (got: Bytes, ok: bool)
      requires Valid()
      modifies this
      ensures Valid()
      ensures ok <==> n <= |old(Rest())|
      ensures ok ==> got == old(Rest())[..n] && pos == old(pos) + n
      ensures !ok ==> pos == |data|
    {
      got := [];
      while |got| < n
        invariant Valid()
        invariant old(pos) <= pos && got == data[old(pos)..pos]
        invariant |got| <= n
        decreases n - |got|
      {
        var chunk := Arrival();
        var piece := Read(n - |got|, chunk);
        if piece == [] {
          return got, false;
        }
        got := got + piece;
      }
      ok := true;
    }
  }

  /** The sending side of a connection; `sent` is everything the peer will see. */
  class Writer {
    var sent: Bytes

    constructor ()
      ensures sent == []
    {
      sent := [];
    }

    /** Sends some leading part of `b`; a short write is reported as a failure. */
    method Write(b: Bytes) returns (n: nat, ok: bool)
      modifies this
      ensures n <= |b| && sent == old(sent) + b[..n]
      ensures ok ==> n == |b|
    {
      var room := Arrival();
      n := if room < |b| then room else |b|;
      sent := sent + b[..n];
      ok := n == |b|;
    }
  }

  /** How much happens to have arrived, or to fit: any number. */
  method Arrival() returns (n: nat)
  {
    n :| true;
  }
}
