/**
 Lines out of a TLS connection (stratum.c). However the stream is cut into chunks and reads, `read_line` returns it
 split at line feeds, one carriage return dropped from the end of each line. The reader thread runs whenever it likes:
 before every call into the connection it takes any number of turns.
 */
module LineReader {
  import opened Words
  import opened TlsConn

  const CAPACITY: nat := 65536
  const LF: Byte := 10
  const CR: Byte := 13

  ghost predicate NoLf(s: seq<Byte>) { forall i :: 0 <= i < |s| ==> s[i] != LF }

  function StripCr(raw: seq<Byte>): seq<Byte> {
    if |raw| > 0 && raw[|raw| - 1] == CR then raw[..|raw| - 1] else raw
  }

  /** The position of the first line feed, or the length. */
  function FirstLf(s: seq<Byte>): (i: nat)
    ensures i <= |s| && NoLf(s[..i]) && (i < |s| ==> s[i] == LF)
  {
    if |s| == 0 || s[0] == LF then 0 else 1 + FirstLf(s[1..])
  }

  lemma {:induction false} FirstLfIs(s: seq<Byte>, i: nat)
    requires i < |s| && NoLf(s[..i]) && s[i] == LF
    ensures FirstLf(s) == i
  {
    if i > 0 {
      assert s[..i][0] == s[0];
      assert s[1..][..i - 1] == s[..i][1..];
      FirstLfIs(s[1..], i - 1);
    }
  }

  /** The complete lines of a stream. */
  function LinesOf(s: seq<Byte>): seq<seq<Byte>>
    decreases |s|
  {
    var i := FirstLf(s);
    if i == |s| then [] else [StripCr(s[..i])] + LinesOf(s[i + 1..])
  }

  /** The stream stops right after a line feed, or before anything came. */
  predicate AtLineStart(s: seq<Byte>) { |s| == 0 || s[|s| - 1] == LF }

  /** Splitting after a line feed splits the lines. */
  lemma {:induction false} LinesOfJoined(a: seq<Byte>, b: seq<Byte>)
    requires AtLineStart(a)
    ensures LinesOf(a + b) == LinesOf(a) + LinesOf(b)
    decreases |a|
  {
    hide NoLf, StripCr, FirstLf;
    if |a| == 0 {
      assert a + b == b;
      NothingToSplit(a);
    } else {
      var i := FirstLf(a);
      LfIsInside(a);
      SplitJoined(a, b, i);
      FirstLfIs(a + b, i);
      LinesOfJoined(a[i + 1..], b);
      OneFirst(StripCr(a[..i]), LinesOf(a[i + 1..]), LinesOf(b));
    }
  }

  lemma SplitJoined<T>(a: seq<T>, b: seq<T>, i: nat)
    requires i < |a|
    ensures (a + b)[..i] == a[..i] && (a + b)[i + 1..] == a[i + 1..] + b && (a + b)[i] == a[i]
    ensures i + 1 < |a| ==> a[i + 1..][|a| - i - 2] == a[|a| - 1]
  {
  }

  lemma OneFirst<T>(x: T, a: seq<T>, b: seq<T>)
    ensures [x] + (a + b) == ([x] + a) + b
  {
  }

  lemma NothingToSplit(s: seq<Byte>)
    ensures |s| == 0 ==> LinesOf(s) == []
  {
  }

  lemma LfIsInside(s: seq<Byte>)
    requires |s| > 0 && s[|s| - 1] == LF
    ensures FirstLf(s) < |s|
  {
    assert s[..|s|] == s;
  }

  /** One more raw line. */
  lemma OneMoreLine(a: seq<Byte>, raw: seq<Byte>)
    requires AtLineStart(a) && NoLf(raw)
    ensures LinesOf(a + (raw + [LF])) == LinesOf(a) + [StripCr(raw)] && AtLineStart(a + (raw + [LF]))
  {
    hide NoLf, StripCr, FirstLf;
    var line := raw + [LF];
    LinesOfJoined(a, line);
    assert line[..|raw|] == raw;
    FirstLfIs(line, |raw|);
    NothingToSplit(line[|raw| + 1..]);
  }

  /** Lines as a pool may send them: each ended by a line feed, with or without a carriage return before it. */
  function Joined(lines: seq<seq<Byte>>, returns_: seq<bool>): seq<Byte>
    requires |lines| == |returns_|
  {
    if |lines| == 0 then []
    else
      var n := |lines| - 1;
      Joined(lines[..n], returns_[..n]) + (lines[n] + (if returns_[n] then [13] else []) + [10])
  }

  /** Whatever lines are sent are the lines that are read, provided a line has no line feed in it and, if it is sent
      without a carriage return, none at its end. */
  lemma {:induction false} LinesReadBack(lines: seq<seq<Byte>>, returns_: seq<bool>)
    requires |lines| == |returns_|
    requires forall i :: 0 <= i < |lines| ==> 10 !in lines[i]
    requires forall i :: 0 <= i < |lines| && !returns_[i] && |lines[i]| > 0 ==> lines[i][|lines[i]| - 1] != 13
    ensures LinesOf(Joined(lines, returns_)) == lines && AtLineStart(Joined(lines, returns_))
  {
    hide LinesOf, NoLf, StripCr;
    if |lines| == 0 {
      NothingToSplit(Joined(lines, returns_));
    } else {
      hide AtLineStart;
      var n := |lines| - 1;
      var raw := lines[n] + if returns_[n] then [13] else [];
      LinesReadBack(lines[..n], returns_[..n]);
      RawLine(lines[n], returns_[n]);
      OneMoreLine(Joined(lines[..n], returns_[..n]), raw);
      assert Joined(lines, returns_) == Joined(lines[..n], returns_[..n]) + (raw + [LF]);
      assert lines == lines[..n] + [lines[n]];
    }
  }

  lemma RawLine(line: seq<Byte>, return_: bool)
    requires 10 !in line && (!return_ && |line| > 0 ==> line[|line| - 1] != 13)
    ensures var raw := line + if return_ then [13] else []; NoLf(raw) && StripCr(raw) == line
  {
  }

  /** Bytes without a line feed hold no line. */
  lemma NoLineWithoutLf(s: seq<Byte>)
    requires NoLf(s)
    ensures LinesOf(s) == []
  {
    assert FirstLf(s) == |s|;
  }

  /** What was consumed up to a line feed gave a prefix of the lines of the whole stream, and all of them when the
      rest holds no line feed. */
  lemma LinesArePrefix(consumed: seq<Byte>, rest: seq<Byte>)
    requires AtLineStart(consumed)
    ensures LinesOf(consumed) <= LinesOf(consumed + rest)
    ensures NoLf(rest) ==> LinesOf(consumed) == LinesOf(consumed + rest)
  {
    hide NoLf, FirstLf;
    LinesOfJoined(consumed, rest);
    if NoLf(rest) {
      NoLineWithoutLf(rest);
    }
  }

  /** The reader thread takes some turns, as long as it is in its loop. */
  method RunReader(conn: Conn, outcomes: seq<Outcome>)
    requires conn.Valid()
    modifies conn
    ensures conn.Valid() && conn.delivered == old(conn.delivered)
    ensures old(conn.received) <= conn.received && old(conn.Queue()) <= conn.Queue()
    ensures !old(conn.running) ==>
              conn.Queue() == old(conn.Queue()) && conn.eof == old(conn.eof) && conn.error == old(conn.error)
  {
    for i := 0 to |outcomes|
      invariant conn.Valid() && conn.delivered == old(conn.delivered)
      invariant old(conn.received) <= conn.received && old(conn.Queue()) <= conn.Queue()
      invariant !old(conn.running) ==> !conn.running && conn.Queue() == old(conn.Queue())
                                       && conn.eof == old(conn.eof) && conn.error == old(conn.error)
    {
      if conn.running {
        conn.ReaderTurn(outcomes[i]);
      }
    }
  }

  /** `conn_wait_read` on Android: no waiting, only the queue's state. */
  method WaitRead(conn: Conn) returns (ready: int)
    requires conn.Valid()
    ensures if |conn.Queue()| > 0 || (conn.eof && conn.error.None?) then ready == 1
            else ready == if conn.error.Some? then -1 else -3
  {
    var pending := conn.Pending();
    if pending > 0 || pending == -2 {
      return 1;
    }
    if pending < 0 {
      return -1;
    }
    return -3;
  }

  /** The outcomes of one call. */
  const LINE: int := 1
  const STREAM_ENDED: int := 0
  const FAILED: int := -1
  const TOO_LONG: int := -2
  const NOTHING_YET: int := -3

  class Reader {
    const conn: Conn
    const buffer: array<Byte>
    var used: nat
    ghost var consumed: seq<Byte>
    ghost var lines: seq<seq<Byte>>

    ghost predicate Valid()
      reads this, buffer, conn
    {
      && conn.Valid() && buffer.Length == CAPACITY && used <= CAPACITY
      && conn.delivered == consumed + buffer[..used]
      && AtLineStart(consumed) && lines == LinesOf(consumed)
    }

    constructor (conn: Conn)
      requires conn.Valid() && conn.delivered == []
      ensures Valid() && fresh(buffer) && this.conn == conn && lines == []
    {
      this.conn := conn;
      buffer := new Byte[CAPACITY](_ => 0);
      used, consumed, lines := 0, [], [];
      new;
      NothingToSplit(consumed);
    }

    /** The scan for a line feed. */
    method FindLf() returns (i: int)
      requires used <= buffer.Length
      ensures -1 <= i < used
      ensures if i < 0 then NoLf(buffer[..used]) else NoLf(buffer[..i]) && buffer[i] == LF
    {
      for k := 0 to used
        invariant NoLf(buffer[..k])
      {
        if buffer[k] == LF {
          return k;
        }
      }
      return -1;
    }

    /** The `memmove` that drops the first `n` bytes. */
    method DropFront(n: nat)
      requires n <= used <= buffer.Length
      modifies buffer, `used
      ensures used == old(used) - n && buffer[..used] == old(buffer[n..used])
    {
      forall k | 0 <= k < used - n {
        buffer[k] := buffer[k + n];
      }
      used := used - n;
    }

    /** Bytes from the connection, put behind those already there. */
    method Append(data: seq<Byte>)
      requires used + |data| <= buffer.Length
      modifies buffer, `used
      ensures used == old(used) + |data| && buffer[..used] == old(buffer[..used]) + data
    {
      forall k | 0 <= k < |data| {
        buffer[used + k] := data[k];
      }
      used := used + |data|;
    }

    /** The line that ends at `i`. */
    method TakeLine(i: nat, outSize: nat) returns (rc: int, line: seq<Byte>)
      requires Valid() && i < used && NoLf(buffer[..i]) && buffer[i] == LF
      modifies buffer, `used, `consumed, `lines
      ensures Valid()
      ensures |StripCr(old(buffer[..i]))| < outSize ==>
                rc == LINE && lines == old(lines) + [line] && |line| < outSize
                && consumed == old(consumed) + (old(buffer[..i]) + [LF])
      ensures |StripCr(old(buffer[..i]))| >= outSize ==>
                rc == TOO_LONG && lines == old(lines) && consumed == old(consumed) && used == old(used)
    {
      hide LinesOf, AtLineStart;
      line := [];
      ghost var raw := buffer[..i];
      var length := i;
      if length > 0 && buffer[length - 1] == CR {
        length := length - 1;
      }
      assert buffer[..length] == StripCr(raw);
      if length >= outSize {
        return TOO_LONG, [];
      }
      line := buffer[..length];
      ghost var rest := buffer[i + 1..used];
      assert buffer[..used] == (raw + [LF]) + rest;
      OneMoreLine(consumed, raw);
      Regroup(consumed, raw + [LF], rest);
      DropFront(i + 1);
      consumed := consumed + (raw + [LF]);
      lines := lines + [line];
      rc := LINE;
    }

    /** `read_line`. `network(k)` is what the reader thread does before the `k`-th call into the connection. */
    method ReadLine(outSize: nat, network: nat -> seq<Outcome>) returns (rc: int, line: seq<Byte>)
      requires Valid()
      modifies this, buffer, conn
      ensures Valid() && old(conn.received) <= conn.received
      ensures rc == LINE ==> lines == old(lines) + [line]
      ensures rc != LINE ==> lines == old(lines) && consumed == old(consumed)
      ensures rc in {LINE, STREAM_ENDED, FAILED, TOO_LONG, NOTHING_YET}
      ensures rc in {STREAM_ENDED, FAILED, NOTHING_YET} ==> NoLf(buffer[..used]) && conn.Queue() == []
      ensures rc == STREAM_ENDED ==> conn.eof && conn.error.None?
      ensures rc == FAILED ==> conn.error.Some?
      ensures rc == NOTHING_YET ==> !conn.eof && conn.error.None?
      ensures rc == TOO_LONG && outSize >= 65536 ==> used == 65536 && NoLf(buffer[..used])
    {
      hide LinesOf, AtLineStart, NoLf;
      line := [];
      var turn := 0;
      while true
        invariant Valid() && old(conn.received) <= conn.received
        invariant lines == old(lines) && consumed == old(consumed)
        decreases CAPACITY - used
      {
        var i := FindLf();
        if i >= 0 {
          rc, line := TakeLine(i, outSize);
          return;
        }
        if used == CAPACITY {
          return TOO_LONG, [];
        }
        var ready := Poll(conn, network(turn), network(turn + 1));
        if ready == -3 {
          return NOTHING_YET, [];
        }
        if ready < 0 {
          return FAILED, [];
        }
        RunReader(conn, network(turn + 2));
        turn := turn + 3;
        var n := Receive();
        if n == 0 {
          return STREAM_ENDED, [];
        }
      }
    }

    /** One `conn_read` into the free part of the buffer. A connection that was ready has bytes or has ended, so the
        negative results of the read cannot come back here. */
    method Receive() returns (n: nat)
      requires Valid() && used < CAPACITY && Ready(conn)
      modifies buffer, `used, conn
      ensures Valid() && used == old(used) + n && conn.received == old(conn.received)
      ensures n == 0 ==> conn.Queue() == [] && conn.eof && conn.error.None? && buffer[..used] == old(buffer[..used])
    {
      hide LinesOf, AtLineStart;
      ghost var before := buffer[..used];
      var got, data := conn.Read(CAPACITY - used);
      assert got >= 0;
      n := got;
      if n > 0 {
        Append(data);
        Regroup(consumed, before, data);
      }
    }
  }

  /** There is something to read, or the end of the stream to report. */
  ghost predicate Ready(conn: Conn)
    requires conn.Valid()
    reads conn
  {
    |conn.Queue()| > 0 || (conn.eof && conn.error.None?)
  }

  /** `conn_pending`, and `conn_wait_read` if nothing is pending, with the reader thread running before each. */
  method Poll(conn: Conn, before: seq<Outcome>, between: seq<Outcome>) returns (ready: int)
    requires conn.Valid()
    modifies conn
    ensures conn.Valid() && conn.delivered == old(conn.delivered) && old(conn.received) <= conn.received
    ensures ready in {1, -1, -3} && (ready == 1 <==> Ready(conn))
    ensures ready == -1 ==> conn.Queue() == [] && conn.error.Some?
    ensures ready == -3 ==> conn.Queue() == [] && !conn.eof && conn.error.None?
  {
    RunReader(conn, before);
    var pending := conn.Pending();
    if pending > 0 {
      return 1;
    }
    RunReader(conn, between);
    ready := WaitRead(conn);
  }

  lemma Regroup(a: seq<Byte>, b: seq<Byte>, c: seq<Byte>)
    ensures a + (b + c) == (a + b) + c
  {
  }
}
