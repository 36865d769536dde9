/** Buffered line input (my_read and Readline in socket/wrap.c) refines cutting the
    byte stream, however the kernel delivers it. */
module LineIo {
  import opened StreamIo

  /** How much of the stream the next line takes: up to the first newline, to the
      end of the stream, or to `m` bytes, whichever is least. */
  function CutLen(s: seq<byte>, m: nat): (k: nat)
    ensures k <= m && k <= |s|
  {
    if m == 0 || s == [] then 0
    else if s[0] == NEWLINE then 1
    else 1 + CutLen(s[1..], m - 1)
  }

  predicate Ended(line: seq<byte>) {
    line != [] && line[|line| - 1] == NEWLINE
  }

  /** No newline but perhaps at the very end. */
  predicate OneLine(line: seq<byte>) {
    line != [] ==> NEWLINE !in line[..|line| - 1]
  }

  lemma StoreByte(stream: seq<byte>, line: seq<byte>, c: byte, left: seq<byte>, left': seq<byte>)
    requires stream == line + left && left == [c] + left'
    requires NEWLINE !in line
    ensures stream == (line + [c]) + left'
    ensures OneLine(line + [c])
    ensures Ended(line + [c]) <==> c == NEWLINE
    ensures c != NEWLINE ==> NEWLINE !in line + [c]
  {
    assert (line + [c])[..|line|] == line;
  }

  /** `k` is the right place to cut: no newline earlier, and a reason to stop. */
  predicate IsCut(s: seq<byte>, m: nat, k: nat) {
    && k <= m && k <= |s|
    && (k > 0 ==> NEWLINE !in s[..k - 1])
    && (k == m || k == |s| || (k > 0 && s[k - 1] == NEWLINE))
  }

  /** `CutLen` finds a right place, and there is only one. */
  lemma {:induction false} CutLenIsCut(s: seq<byte>, m: nat)
    ensures IsCut(s, m, CutLen(s, m))
    decreases m
  {
    if m > 0 && s != [] && s[0] != NEWLINE {
      CutLenIsCut(s[1..], m - 1);
      var k := CutLen(s[1..], m - 1);
      if k > 0 {
        assert s[..k] == [s[0]] + s[1..][..k - 1];
      }
    }
  }

  lemma {:induction false} CutIsUnique(s: seq<byte>, m: nat, k: nat)
    requires IsCut(s, m, k)
    ensures k == CutLen(s, m)
    decreases m
  {
    if m > 0 && s != [] {
      assert k > 0;
      if k > 1 {
        assert s[0] in s[..k - 1];
        assert s[1..][..k - 2] == s[..k - 1][1..];
        CutIsUnique(s[1..], m - 1, k - 1);
      } else if s[0] != NEWLINE {
        CutIsUnique(s[1..], m - 1, 0);
      }
    }
  }

  lemma NoInnerNewline(line: seq<byte>)
    requires OneLine(line)
    ensures forall i | 0 <= i < |line| - 1 :: line[i] != 10
  {
    forall i | 0 <= i < |line| - 1
      ensures line[i] != 10
    {
      assert line[i] in line[..|line| - 1];
    }
  }

  /** The same, for a stream seen as the bytes stored and the bytes left. */
  lemma CutHere(stream: seq<byte>, line: seq<byte>, left: seq<byte>, m: nat)
    requires stream == line + left && |line| <= m
    requires OneLine(line)
    requires |line| == m || left == [] || Ended(line)
    ensures |line| == CutLen(stream, m)
  {
    if line != [] {
      assert stream[..|line| - 1] == line[..|line| - 1];
    }
    CutIsUnique(stream, m, |line|);
  }

  /** The whole stream cut into lines of at most `m` bytes. */
  function Split(s: seq<byte>, m: nat): seq<seq<byte>>
    requires m > 0
    decreases |s|
  {
    if s == [] then [] else [s[..CutLen(s, m)]] + Split(s[CutLen(s, m)..], m)
  }

  function Join(lines: seq<seq<byte>>): seq<byte> {
    if lines == [] then [] else lines[0] + Join(lines[1..])
  }

  predicate IsLine(line: seq<byte>, m: nat) {
    && 0 < |line| <= m
    && NEWLINE !in line[..|line| - 1]
  }

  lemma FirstIsLine(s: seq<byte>, m: nat)
    requires m > 0 && s != []
    ensures IsLine(s[..CutLen(s, m)], m)
  {
    CutLenIsCut(s, m);
    var k := CutLen(s, m);
    assert s[..k][..k - 1] == s[..k - 1];
  }

  lemma {:induction false} PieceIsLine(s: seq<byte>, m: nat, i: nat)
    requires m > 0 && i < |Split(s, m)|
    ensures IsLine(Split(s, m)[i], m)
    decreases |s|
  {
    FirstIsLine(s, m);
    if i > 0 {
      PieceIsLine(s[CutLen(s, m)..], m, i - 1);
    }
  }

  lemma {:induction false} JoinSplit(s: seq<byte>, m: nat)
    requires m > 0
    ensures Join(Split(s, m)) == s
    decreases |s|
  {
    if s != [] {
      var k := CutLen(s, m);
      JoinSplit(s[k..], m);
      var rest := Split(s[k..], m);
      assert ([s[..k]] + rest)[1..] == rest;
      assert s[..k] + s[k..] == s;
    }
  }

  /** Cutting loses nothing: the pieces are lines and make up the stream. */
  lemma SplitJoins(s: seq<byte>, m: nat)
    requires m > 0
    ensures Join(Split(s, m)) == s
    ensures forall i | 0 <= i < |Split(s, m)| :: IsLine(Split(s, m)[i], m)
  {
    JoinSplit(s, m);
    forall i | 0 <= i < |Split(s, m)|
      ensures IsLine(Split(s, m)[i], m)
    {
      PieceIsLine(s, m, i);
    }
  }

  /** Only the last piece may stop for want of bytes. */
  lemma {:induction false} SplitStops(s: seq<byte>, m: nat, i: nat)
    requires m > 0 && i + 1 < |Split(s, m)|
    ensures var line := Split(s, m)[i]; |line| == m || Ended(line)
    decreases |s|
  {
    var k := CutLen(s, m);
    CutLenIsCut(s, m);
    if i > 0 {
      SplitStops(s[k..], m, i - 1);
    }
  }

  const CHUNK := 100

  /** A descriptor with my_read's static variables. */
  class LineReader {
    const fd: Descriptor
    const readBuf: array<byte>
    var readCnt: int
    var readPtr: nat

    /** The bytes read from the kernel and not yet handed out. */
    ghost var held: seq<byte>

    ghost predicate Valid()
      reads this, readBuf
    {
      && readBuf.Length == CHUNK
      && (if readCnt > 0 then readPtr + readCnt <= CHUNK && held == readBuf[readPtr..readPtr + readCnt] else held == [])
    }

    /** The stream as its reader sees it: what is held, then what is to come. */
    ghost function Stream(): seq<byte>
      reads this, fd
    {
      held + fd.bytes
    }

    constructor (fd: Descriptor)
      ensures Valid() && this.fd == fd && fresh(readBuf) && readBuf.Length == 100 && Stream() == fd.bytes
    {
      this.fd := fd;
      readBuf := new byte[CHUNK](_ => 0);
      readCnt, readPtr, held := 0, 0, [];
    }

    /** Lines 161-168: reads a chunk, again and again if interrupted. */
    method Refill() returns (rc: int)
      requires Valid() && readCnt <= 0
      modifies this, fd, readBuf
      ensures Valid()
      ensures fd.Budget() <= old(fd.Budget())
      ensures rc == 1 || rc == 0 || rc == -1
      ensures rc == 1 ==> readCnt > 0 && Stream() == old(fd.bytes)
      ensures rc == 0 ==> readCnt == 0 && fd.bytes == old(fd.bytes) == []
      ensures rc == -1 ==> readCnt < 0 && fd.bytes == old(fd.bytes) && fd.refused == old(fd.refused) + 1
      ensures rc != -1 ==> fd.refused == old(fd.refused)
    {
      while true
        invariant fd.Budget() <= old(fd.Budget()) && fd.refused == old(fd.refused)
        invariant fd.bytes == old(fd.bytes) && held == []
        decreases |fd.script|
      {
        var eintr;
        readCnt, eintr := fd.Read(readBuf, 0, CHUNK);
        if readCnt < 0 {
          if !eintr {
            return -1;
          }
        } else if readCnt == 0 {
          return 0;
        } else {
          break;
        }
      }
      readPtr, held := 0, readBuf[..readCnt];
      rc := 1;
    }

    /** Lines 170-171: the next byte held. */
    method HandOut() returns (c: byte)
      requires Valid() && readCnt > 0
      modifies `readCnt, `readPtr, `held
      ensures Valid() && fd.bytes == old(fd.bytes) && fd.script == old(fd.script) && fd.refused == old(fd.refused)
      ensures old(Stream()) == [c] + Stream()
    {
      assert held == [readBuf[readPtr]] + held[1..];
      readCnt := readCnt - 1;
      c := readBuf[readPtr];
      readPtr := readPtr + 1;
      held := held[1..];
    }

    /** One byte; 0 at the end of the stream and -1 on a hard error. */
    method MyRead() returns (rc: int, c: byte)
      requires Valid()
      modifies this, fd, readBuf
      ensures Valid()
      ensures fd.Budget() <= old(fd.Budget())
      ensures rc == 1 || rc == 0 || rc == -1
      ensures rc == 1 ==> old(Stream()) == [c] + Stream()
      ensures rc == 0 ==> old(Stream()) == [] && Stream() == []
      ensures rc == -1 ==> Stream() == old(Stream()) && fd.refused == old(fd.refused) + 1
      ensures rc != -1 ==> fd.refused == old(fd.refused)
    {
      rc, c := 1, 0;
      if readCnt <= 0 {
        rc := Refill();
        if rc != 1 {
          return;
        }
      }
      c := HandOut();
    }

    /** Lines 181-192: stores bytes until a newline, a full buffer, the end of the
        stream (`rc == 0`) or a hard error (`rc == -1`). */
    method StoreLine(vptr: array<byte>, maxlen: nat)
        returns (n: nat, ptr: nat, rc: int, ghost line: seq<byte>)
      requires Valid() && 1 <= maxlen <= vptr.Length && vptr != readBuf
      modifies this, fd, readBuf, vptr
      ensures Valid()
      ensures fd.Budget() <= old(fd.Budget())
      ensures old(Stream()) == line + Stream()
      ensures ptr == |line| < maxlen && vptr[..ptr] == line
      ensures forall i | ptr <= i < vptr.Length :: vptr[i] == old(vptr[i])
      ensures OneLine(line)
      ensures rc == 1 ==> n == if Ended(line) then |line| else maxlen
      ensures rc == 1 ==> Ended(line) || |line| == maxlen - 1
      ensures rc != 1 ==> (rc == 0 || rc == -1) && n == |line| + 1 < maxlen && NEWLINE !in line
      ensures rc == 0 ==> Stream() == []
      ensures rc == -1 ==> fd.refused == old(fd.refused) + 1
      ensures rc != -1 ==> fd.refused == old(fd.refused)
    {
      ghost var stream := Stream();
      var c := 0;
      n, ptr, rc, line := 1, 0, 1, [];
      while n < maxlen
        invariant Valid() && 1 <= n <= maxlen && ptr == n - 1 == |line|
        invariant fd.Budget() <= old(fd.Budget()) && fd.refused == old(fd.refused)
        invariant stream == line + Stream()
        invariant vptr[..ptr] == line
        invariant forall i | ptr <= i < vptr.Length :: vptr[i] == old(vptr[i])
        invariant NEWLINE !in line && !Ended(line) && rc == 1
      {
        ghost var left := Stream();
        rc, c := MyRead();
        if rc != 1 {
          return;
        }
        StoreByte(stream, line, c, left, Stream());
        line := line + [c];
        vptr[ptr] := c;
        ptr := ptr + 1;
        if c == NEWLINE {
          return;
        }
        n := n + 1;
      }
    }

    /** Stores the next line and a terminating NUL. The result is the length of the
        line, but `maxlen` when the buffer filled up before a newline. */
    method Readline(vptr: array<byte>, maxlen: nat) returns (r: int, ghost line: seq<byte>)
      requires Valid() && 1 <= maxlen <= vptr.Length && vptr != readBuf
      modifies this, fd, readBuf, vptr
      ensures Valid()
      ensures fd.Budget() <= old(fd.Budget())
      ensures old(Stream()) == line + Stream() && |line| < maxlen
      ensures r != -1 ==> |line| == CutLen(old(Stream()), maxlen - 1)
      ensures r != -1 ==> forall i | 0 <= i < |line| - 1 :: line[i] != 10
      ensures r != -1 ==> |line| == maxlen - 1 || Stream() == [] || (line != [] && line[|line| - 1] == 10)
      ensures vptr[..|line|] == line
      ensures r != -1 ==> vptr[|line|] == 0
      ensures forall i | |line| + (if r != -1 then 1 else 0) <= i < vptr.Length :: vptr[i] == old(vptr[i])
      ensures r != -1 ==>
                r == if |line| == maxlen - 1 && !(line != [] && line[|line| - 1] == 10) then maxlen else |line|
      ensures r != -1 ==> fd.refused == old(fd.refused)
      ensures r == -1 ==> |line| < maxlen - 1 && NEWLINE !in line && fd.refused == old(fd.refused) + 1
    {
      ghost var stream := Stream();
      var n, ptr, rc;
      n, ptr, rc, line := StoreLine(vptr, maxlen);
      if rc == -1 {
        return -1, line;
      }
      CutHere(stream, line, Stream(), maxlen - 1);
      NoInnerNewline(line);
      if rc == 0 {
        vptr[ptr] := 0;
        assert Ended(line) ==> NEWLINE in line;
        return n - 1, line;
      }
      vptr[ptr] := 0;
      return n, line;
    }
  }

  /** A piece cut from the front of a stream is the first piece of its splitting. */
  lemma SplitStep(whole: seq<seq<byte>>, lines: seq<seq<byte>>, line: seq<byte>, left: seq<byte>, m: nat)
    requires m > 0 && line != [] && |line| == CutLen(line + left, m)
    requires whole == lines + Split(line + left, m)
    ensures whole == (lines + [line]) + Split(left, m)
  {
    assert (line + left)[..|line|] == line && (line + left)[|line|..] == left;
  }

  /** Reading lines until one is empty (web/webserver.c, line 79): unless the kernel
      refuses, the lines are those of the splitting, whatever its chunks were. */
  method ReadAllLines(reader: LineReader, buf: array<byte>, maxlen: nat) returns (n: int, ghost lines: seq<seq<byte>>)
    requires reader.Valid() && 2 <= maxlen <= buf.Length && buf != reader.readBuf
    modifies reader, reader.fd, reader.readBuf, buf
    ensures reader.Valid() && n <= 0
    ensures lines <= Split(old(reader.Stream()), maxlen - 1)
    ensures n == 0 ==> lines == Split(old(reader.Stream()), maxlen - 1) && reader.Stream() == []
    ensures Refusals(old(reader.fd.script)) == 0 ==> n == 0
  {
    ghost var stream := reader.Stream();
    ghost var line;
    lines := [];
    while true
      invariant reader.Valid()
      invariant reader.fd.Budget() <= old(reader.fd.Budget()) && reader.fd.refused == old(reader.fd.refused)
      invariant Split(stream, maxlen - 1) == lines + Split(reader.Stream(), maxlen - 1)
      decreases |reader.Stream()|
    {
      n, line := reader.Readline(buf, maxlen);
      if n <= 0 {
        break;
      }
      SplitStep(Split(stream, maxlen - 1), lines, line, reader.Stream(), maxlen - 1);
      lines := lines + [line];
    }
  }
}
