/** Looped and buffered I/O over short reads, short writes and interrupted calls
    (socket/wrap.c). */
module StreamIo {

  newtype byte = x: int | 0 <= x < 256

  const NEWLINE: byte := 10

  /** What the kernel does at one call: transfer at most `k + 1` bytes, interrupt the
      call, fail, or (for a write) accept nothing. */
  datatype Answer = Limit(k: nat) | Eintr | Fail | Zero

  function Min(a: nat, b: nat): nat {
    if a < b then a else b
  }

  /** How often the kernel is going to refuse. */
  function Refusals(script: seq<Answer>): nat {
    if script == [] then 0
    else (if script[0] == Fail || script[0] == Zero then 1 else 0) + Refusals(script[1..])
  }

  /** A FIFO byte channel behind a descriptor. `bytes` is what is still to be read;
      the kernel follows `script`, and does all it can once that is used up. */
  class Descriptor {
    var bytes: seq<byte>
    var script: seq<Answer>
    /** Refusals so far: hard errors, and writes that wrote nothing. */
    ghost var refused: nat

    constructor (bytes: seq<byte>, script: seq<Answer>)
      ensures this.bytes == bytes && this.script == script && refused == 0
    {
      this.bytes, this.script, this.refused := bytes, script, 0;
    }

    /** Refusals, past and to come; no call makes up new ones. */
    ghost function Budget(): nat
      reads this
    {
      refused + Refusals(script)
    }

    /** read(2): 0 only at the end of the stream; `eintr` tells errno apart. */
    method Read(buf: array<byte>, off: nat, n: nat) returns (r: int, eintr: bool)
      requires 0 < n && off + n <= buf.Length
      modifies this, buf
      ensures |script| <= |old(script)| && Budget() <= old(Budget())
      ensures r < 0 ==> r == -1 && |script| < |old(script)| && bytes == old(bytes) && unchanged(buf)
      ensures refused == old(refused) + if r < 0 && !eintr then 1 else 0
      ensures r >= 0 ==> r <= n && old(bytes) == buf[off..off + r] + bytes
      ensures r >= 0 ==> buf[..off] == old(buf[..off]) && buf[off + r..] == old(buf[off + r..])
      ensures r == 0 ==> old(bytes) == []
    {
      var k := n;
      if script != [] {
        var a := script[0];
        script := script[1..];
        match a {
          case Eintr => return -1, true;
          case Fail =>
            refused := refused + 1;
            return -1, false;
          case Zero => k := 1;
          case Limit(m) => k := Min(n, m + 1);
        }
      }
      k := Min(k, |bytes|);
      forall i | 0 <= i < k {
        buf[off + i] := bytes[i];
      }
      assert buf[..off] == old(buf[..off]);
      assert buf[off..off + k] == bytes[..k];
      assert buf[off + k..] == old(buf[off + k..]);
      bytes := bytes[k..];
      r, eintr := k, false;
    }

    /** write(2): appends a prefix of the offered bytes. */
    method Write(buf: array<byte>, off: nat, n: nat) returns (r: int, eintr: bool)
      requires 0 < n && off + n <= buf.Length
      modifies this
      ensures |script| <= |old(script)| && Budget() <= old(Budget())
      ensures r <= 0 ==> -1 <= r && |script| < |old(script)| && bytes == old(bytes)
      ensures refused == old(refused) + if r == 0 || (r < 0 && !eintr) then 1 else 0
      ensures r > 0 ==> r <= n && bytes == old(bytes) + buf[off..off + r]
    {
      var k := n;
      if script != [] {
        var a := script[0];
        script := script[1..];
        match a {
          case Eintr => return -1, true;
          case Fail =>
            refused := refused + 1;
            return -1, false;
          case Zero =>
            refused := refused + 1;
            return 0, false;
          case Limit(m) => k := Min(n, m + 1);
        }
      }
      bytes := bytes + buf[off..off + k];
      r, eintr := k, false;
    }
  }

  lemma PieceStored(before: seq<byte>, after: seq<byte>, p: nat, r: nat)
    requires p + r <= |before| == |after|
    requires after[..p] == before[..p] && after[p + r..] == before[p + r..]
    ensures after[..p + r] == before[..p] + after[p..p + r]
    ensures after[p + r..] == before[p..][r..]
  {
  }

  /** Reads `n` bytes unless the stream ends first; `got` is what was stored. */
  method Readn(fd: Descriptor, vptr: array<byte>, n: nat) returns (r: int, ghost got: seq<byte>)
    requires n <= vptr.Length
    modifies fd, vptr
    ensures fd.Budget() <= old(fd.Budget())
    ensures old(fd.bytes) == got + fd.bytes && |got| <= n
    ensures vptr[..|got|] == got && vptr[|got|..] == old(vptr[|got|..])
    ensures r != -1 ==> r == |got| == Min(n, |old(fd.bytes)|) && fd.refused == old(fd.refused)
    ensures r == -1 ==> |got| < n && fd.refused == old(fd.refused) + 1
  {
    var ptr, nleft := 0, n;
    got := [];
    while nleft > 0
      invariant 0 <= nleft && ptr + nleft == n && ptr == |got|
      invariant fd.Budget() <= old(fd.Budget()) && fd.refused == old(fd.refused)
      invariant old(fd.bytes) == got + fd.bytes
      invariant vptr[..ptr] == got && vptr[ptr..] == old(vptr[ptr..])
      decreases nleft + |fd.script|
    {
      ghost var before := vptr[..];
      var nread, eintr := fd.Read(vptr, ptr, nleft);
      if nread < 0 {
        if eintr {
          nread := 0;
        } else {
          return -1, got;
        }
      } else if nread == 0 {
        break;
      }
      PieceStored(before, vptr[..], ptr, nread);
      got := got + vptr[ptr..ptr + nread];
      nleft := nleft - nread;
      ptr := ptr + nread;
    }
    r := n - nleft;
  }

  /** Writes all of `n` bytes or fails after a prefix of `put` bytes. */
  method Writen(fd: Descriptor, vptr: array<byte>, n: nat) returns (r: int, ghost put: nat)
    requires n <= vptr.Length
    modifies fd
    ensures fd.Budget() <= old(fd.Budget())
    ensures put <= n && fd.bytes == old(fd.bytes) + vptr[..put]
    ensures r != -1 ==> r == put == n && fd.refused == old(fd.refused)
    ensures r == -1 ==> put < n && fd.refused == old(fd.refused) + 1
  {
    var ptr, nleft := 0, n;
    while nleft > 0
      invariant 0 <= nleft && ptr + nleft == n
      invariant fd.Budget() <= old(fd.Budget()) && fd.refused == old(fd.refused)
      invariant fd.bytes == old(fd.bytes) + vptr[..ptr]
      decreases nleft + |fd.script|
    {
      var nwritten, eintr := fd.Write(vptr, ptr, nleft);
      if nwritten <= 0 {
        if nwritten < 0 && eintr {
          nwritten := 0;
        } else {
          return -1, ptr;
        }
      }
      assert vptr[..ptr + nwritten] == vptr[..ptr] + vptr[ptr..ptr + nwritten];
      nleft := nleft - nwritten;
      ptr := ptr + nwritten;
    }
    r, put := n, ptr;
  }

  /** What one side sends over an empty channel the other side receives, however the
      kernel chops it up; and nothing but a refusal can prevent it. */
  method SendThenReceive(fd: Descriptor, out: array<byte>, inn: array<byte>, n: nat) returns (sent: int, received: int)
    requires n <= out.Length && n <= inn.Length && out != inn
    requires fd.bytes == []
    modifies fd, inn
    ensures sent == n || sent == -1
    ensures sent == n && received != -1 ==> received == n && inn[..n] == out[..n] && fd.bytes == []
    ensures Refusals(old(fd.script)) == 0 ==> sent == n && received == n
  {
    ghost var put: nat, got;
    received := -1;
    sent, put := Writen(fd, out, n);
    ghost var mid := fd.bytes;
    if sent != -1 {
      received, got := Readn(fd, inn, n);
      assert received != -1 ==> inn[..n] == mid[..n] == out[..n];
    }
  }
}
