/** The writer that stamps each log line: it buffers bytes until a newline and hands
    whole lines to the destination.

    A line handed over is kept without the time stamp and without the newline that the
    writer puts around it.  The destination may refuse a line; which ones it refuses is
    an input.
 */
module LineWriter {

  newtype Byte = b: int | 0 <= b < 0x100

  type Bytes = seq<Byte>

  const NEWLINE: Byte := 10

  ghost predicate NoNewline(s: Bytes) {
    forall k :: 0 <= k < |s| ==> s[k] != 10
  }

  // ---------- the reference: a stream cut byte by byte ----------

  datatype Pieces = Pieces(lines: seq<Bytes>, tail: Bytes)

  /** The complete lines of `begun` followed by `stream`, and what follows the last newline,
      when `begun` holds no newline. */
  function Cut(begun: Bytes, stream: Bytes): Pieces
    decreases |stream|
  {
    if stream == [] then Pieces([], begun)
    else if stream[0] == NEWLINE then
      var p := Cut([], stream[1..]);
      Pieces([begun] + p.lines, p.tail)
    else Cut(begun + [stream[0]], stream[1..])
  }

  function Joined(lines: seq<Bytes>): Bytes {
    if lines == [] then [] else lines[0] + [10] + Joined(lines[1..])
  }

  /** No line holds a newline, and the lines, each with its newline, and the tail give the
      stream back. */
  lemma {:induction false} CutIsLossless(begun: Bytes, stream: Bytes)
    requires NoNewline(begun)
    ensures var p := Cut(begun, stream);
            && Joined(p.lines) + p.tail == begun + stream
            && (forall k :: 0 <= k < |p.lines| ==> NoNewline(p.lines[k]))
            && NoNewline(p.tail)
    decreases |stream|
  {
    if stream == [] {
    } else if stream[0] == NEWLINE {
      CutIsLossless([], stream[1..]);
      Rejoin(begun, Cut([], stream[1..]));
      assert begun + stream == begun + [NEWLINE] + stream[1..];
    } else {
      CutIsLossless(begun + [stream[0]], stream[1..]);
      assert begun + stream == begun + [stream[0]] + stream[1..];
    }
  }

  lemma Rejoin(line: Bytes, p: Pieces)
    ensures Joined([line] + p.lines) + p.tail == line + [NEWLINE] + (Joined(p.lines) + p.tail)
  {
    assert ([line] + p.lines)[1..] == p.lines;
  }

  /** Cutting a longer stream continues where the shorter one stopped. */
  lemma {:induction false} CutContinues(begun: Bytes, s: Bytes, t: Bytes)
    ensures var p := Cut(begun, s);
            var q := Cut(p.tail, t);
            Cut(begun, s + t) == Pieces(p.lines + q.lines, q.tail)
    decreases |s|
  {
    if s == [] {
      assert s + t == t;
    } else {
      assert (s + t)[1..] == s[1..] + t;
      CutContinues(if s[0] == NEWLINE then [] else begun + [s[0]], s[1..], t);
    }
  }

  lemma {:induction false} CutPlain(begun: Bytes, s: Bytes)
    requires NoNewline(s)
    ensures Cut(begun, s) == Pieces([], begun + s)
    decreases |s|
  {
    if s != [] {
      CutPlain(begun + [s[0]], s[1..]);
      assert begun + [s[0]] + s[1..] == begun + s;
    }
  }

  lemma CutLine(begun: Bytes, line: Bytes, rest: Bytes)
    requires NoNewline(line)
    ensures var p := Cut([], rest);
            Cut(begun, line + [NEWLINE] + rest) == Pieces([begun + line] + p.lines, p.tail)
  {
    var s := [NEWLINE] + rest;
    CutPlain(begun, line);
    CutContinues(begun, line, s);
    assert line + s == line + [NEWLINE] + rest;
    assert s[1..] == rest;
  }

  /** There is no other way to cut a stream into newline-free lines and a newline-free tail. */
  lemma {:induction false} CutIsUnique(lines: seq<Bytes>, tail: Bytes)
    requires NoNewline(tail) && forall k :: 0 <= k < |lines| ==> NoNewline(lines[k])
    ensures Cut([], Joined(lines) + tail) == Pieces(lines, tail)
  {
    if lines == [] {
      CutPlain([], tail);
      assert Joined(lines) + tail == tail;
    } else {
      CutIsUnique(lines[1..], tail);
      CutLine([], lines[0], Joined(lines[1..]) + tail);
      assert Joined(lines) + tail == lines[0] + [NEWLINE] + (Joined(lines[1..]) + tail);
      assert [lines[0]] + lines[1..] == lines && [] + lines[0] == lines[0];
    }
  }

  // ---------- the writer ----------

  /** Where the first newline is, or -1. */
  method IndexByte(p: Bytes) returns (idx: int)
    ensures -1 <= idx < |p|
    ensures idx < 0 ==> NoNewline(p)
    ensures idx >= 0 ==> p[idx] == NEWLINE && NoNewline(p[..idx])
  {
    for i := 0 to |p|
      invariant NoNewline(p[..i])
    {
      if p[i] == NEWLINE {
        return i;
      }
    }
    return -1;
  }

  class TimestampWriter {
    var buf: Bytes
    var dst: seq<Bytes>
    var attempts: nat

    ghost predicate Valid()
      reads this
    {
      NoNewline(buf)
    }

    constructor ()
      ensures Valid() && buf == [] && dst == [] && attempts == 0
    {
      buf, dst, attempts := [], [], 0;
    }

    /** `refuses(k)` says whether the destination refuses the k-th line it is ever handed.
        When it takes every line, the call behaves as if buffer and input were one stream.
        When it refuses one, the call reports 0 bytes written; the lines before it are out,
        the refused line and the rest of the input are lost, and the buffer is empty. */
    method Write(p: Bytes, refuses: nat -> bool) returns (n: nat, failed: bool)
      requires Valid()
      modifies this
      ensures Valid()
      ensures var all := Cut(old(buf), p);
              var first := old(attempts);
              if forall k :: first <= k < first + |all.lines| ==> !refuses(k) then
                && !failed && n == |p|
                && dst == old(dst) + all.lines && buf == all.tail
                && attempts == first + |all.lines|
              else
                && failed && n == 0 && buf == [] && first < attempts <= first + |all.lines|
                && refuses(attempts - 1) && (forall k :: first <= k < attempts - 1 ==> !refuses(k))
                && dst == old(dst) + all.lines[..attempts - first - 1]
    {
      hide Cut;
      var rest := p;
      ghost var all := Cut(buf, p);
      ghost var sent: nat := 0;
      while rest != []
        invariant Valid()
        invariant sent <= |all.lines| && attempts == old(attempts) + sent
        invariant Cut(buf, rest) == Pieces(all.lines[sent..], all.tail)
        invariant dst == old(dst) + all.lines[..sent]
        invariant forall k :: old(attempts) <= k < attempts ==> !refuses(k)
        decreases |rest|
      {
        var idx := IndexByte(rest);
        if idx < 0 {
          CutPlain(buf, rest);
          buf := buf + rest;
          rest := [];
          break;
        }
        CutLine(buf, rest[..idx], rest[idx + 1..]);
        assert rest == rest[..idx] + [NEWLINE] + rest[idx + 1..];
        buf := buf + rest[..idx];
        var line := buf;
        buf := [];
        attempts := attempts + 1;
        assert line == all.lines[sent];
        if refuses(attempts - 1) {
          return 0, true;
        }
        dst := dst + [line];
        rest := rest[idx + 1..];
        sent := sent + 1;
      }
      CutPlain(buf, []);
      assert buf + [] == buf;
      return |p|, false;
    }
  }

  // ---------- any way of cutting the input into calls ----------

  function Concat(chunks: seq<Bytes>): Bytes {
    if chunks == [] then [] else chunks[0] + Concat(chunks[1..])
  }

  /** What a sequence of calls emits and leaves in the buffer when every line is taken. */
  function CallByCall(buf: Bytes, chunks: seq<Bytes>): Pieces
    decreases |chunks|
  {
    if chunks == [] then Pieces([], buf)
    else
      var first := Cut(buf, chunks[0]);
      var more := CallByCall(first.tail, chunks[1..]);
      Pieces(first.lines + more.lines, more.tail)
  }

  /** MAIN RESULT.  Only the stream matters, not how it is cut into calls. */
  lemma {:induction false} ChunkingIsInvisible(buf: Bytes, chunks: seq<Bytes>)
    ensures CallByCall(buf, chunks) == Cut(buf, Concat(chunks))
    decreases |chunks|
  {
    if chunks != [] {
      ChunkingIsInvisible(Cut(buf, chunks[0]).tail, chunks[1..]);
      CutContinues(buf, chunks[0], Concat(chunks[1..]));
    }
  }

  /** A client that makes all the calls against a destination that takes every line. */
  method WriteAll(w: TimestampWriter, chunks: seq<Bytes>)
    requires w.Valid()
    modifies w
    ensures w.Valid()
    ensures var all := Cut(old(w.buf), Concat(chunks));
            w.dst == old(w.dst) + all.lines && w.buf == all.tail
  {
    hide Cut;
    ChunkingIsInvisible(w.buf, chunks);
    ghost var all := CallByCall(w.buf, chunks);
    for i := 0 to |chunks|
      invariant w.Valid()
      invariant var more := CallByCall(w.buf, chunks[i..]);
                w.dst + more.lines == old(w.dst) + all.lines && more.tail == all.tail
    {
      assert chunks[i..][0] == chunks[i] && chunks[i..][1..] == chunks[i + 1..];
      var n, failed := w.Write(chunks[i], _ => false);
      assert n == |chunks[i]| && !failed;
    }
  }
}
