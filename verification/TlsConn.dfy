/**
 The TLS connection of the Android app (BtcrigTls.java): a reader thread appends chunks under a lock, the miner's
 network thread takes bytes out of them. `received` records the bytes the reader accepted, `delivered` the bytes
 handed out.
 */
module TlsConn {
  import opened Words
  import opened Hex

  const MAX_BUFFERED_BYTES: nat := 1024 * 1024

  /** What one `input.read` of the reader thread gave. */
  datatype Outcome = Chunk(bytes: seq<Byte>) | EndOfStream | Failure(message: string)

  function Flatten(chunks: seq<seq<Byte>>): seq<Byte> {
    if |chunks| == 0 then [] else chunks[0] + Flatten(chunks[1..])
  }

  lemma {:induction false} FlattenJoin(chunks: seq<seq<Byte>>, chunk: seq<Byte>)
    ensures Flatten(chunks + [chunk]) == Flatten(chunks) + chunk
  {
    if |chunks| > 0 {
      FlattenJoin(chunks[1..], chunk);
      assert (chunks + [chunk])[1..] == chunks[1..] + [chunk];
    } else {
      assert (chunks + [chunk])[1..] == [];
    }
  }

  class Conn {
    var chunks: seq<seq<Byte>>
    var pending: int
    var offset: int
    var eof: bool
    var error: Option<string>
    var closed: bool
    var running: bool  // the reader thread is still in its loop
    ghost var received: seq<Byte>
    ghost var delivered: seq<Byte>

    ghost predicate Valid()
      reads this
    {
      && 0 <= offset && (if |chunks| == 0 then offset == 0 else offset <= |chunks[0]|)
      && pending == |Queue()| <= MAX_BUFFERED_BYTES
      && received == delivered + Queue()
      && (running ==> !eof && error.None?)
      && (eof ==> error.None?)
    }

    /** The bytes received and not yet handed out. */
    ghost function Queue(): seq<Byte>
      requires 0 <= offset && (if |chunks| == 0 then offset == 0 else offset <= |chunks[0]|)
      reads this
    {
      Rest(chunks, offset)
    }

    constructor ()
      ensures Valid() && received == [] && delivered == [] && running
    {
      chunks, pending, offset, eof, error, closed := [], 0, 0, false, None, false;
      running, received, delivered := true, [], [];
    }

    /** One turn of `readLoop`. A chunk that would overflow the buffer is dropped and breaks the connection. */
    method ReaderTurn(outcome: Outcome)
      requires Valid() && running
      modifies this
      ensures Valid() && delivered == old(delivered)
      ensures received == old(received) ==> Queue() == old(Queue())
      ensures match outcome
              case Chunk(bytes) =>
                if |old(Queue())| + |bytes| <= 1048576
                then received == old(received) + bytes && Queue() == old(Queue()) + bytes
                     && running && closed == old(closed)
                else received == old(received) && !running && error.Some? && closed
              case EndOfStream => received == old(received) && !running && eof && error.None?
              case Failure(message) =>
                received == old(received) && !running && !eof
                && (error.Some? <==> !old(closed)) && closed == old(closed)
    {
      match outcome
      case EndOfStream =>
        eof := true;
        running := false;
      case Chunk(bytes) =>
        if pending + |bytes| > MAX_BUFFERED_BYTES {
          error := Some("TLS read buffer overflow");
          closed := true;
          running := false;
          return;
        }
        AppendRest(chunks, offset, bytes);
        chunks := chunks + [bytes];
        pending := pending + |bytes|;
        received := received + bytes;
      case Failure(message) =>
        running := false;
        if !closed {
          error := Some(message);
        }
    }

    /** `read`: the next bytes of the queue; the end or an error only when the queue is empty. */
    method Read(len: nat) returns (result: int, data: seq<Byte>)
      requires Valid()
      modifies `chunks, `offset, `pending, `delivered
      ensures Valid()
      ensures if |old(Queue())| > 0
              then result == |data| == (if len < |old(Queue())| then len else |old(Queue())|)
                   && old(Queue()) == data + Queue() && delivered == old(delivered) + data
              else data == [] && delivered == old(delivered) && Queue() == old(Queue())
                   && result == (if error.Some? then -1 else if eof then 0 else -3)
    {
      hide Rest;
      data := [];
      if pending == 0 {
        result := if error.Some? then -1 else if eof then 0 else -3;
        return;
      }
      var copied := 0;
      ghost var queue := Queue();
      NothingLeft(chunks);
      while copied < len && |chunks| > 0
        invariant 0 <= copied == |data| <= len
        invariant 0 <= offset && (if |chunks| == 0 then offset == 0 else offset <= |chunks[0]|)
        invariant queue == data + Queue() && pending == |Queue()| && delivered == old(delivered) + data
        invariant |chunks| == 0 ==> Queue() == []
        decreases |chunks|, len - copied
      {
        var part := TakeFromFirst(len - copied);
        JoinAgain(data, part, Queue());
        JoinAgain(old(delivered), data, part);
        data := data + part;
        copied := copied + |part|;
      }
      result := copied;
    }

    /** One `arraycopy`: at most `limit` bytes of the first chunk, which goes when it is used up. */
    method TakeFromFirst(limit: nat) returns (part: seq<Byte>)
      requires |chunks| > 0 && 0 <= offset <= |chunks[0]| && pending == |Queue()|
      modifies `chunks, `offset, `pending, `delivered
      ensures 0 <= offset && (if |chunks| == 0 then offset == 0 else offset <= |chunks[0]|)
      ensures old(Queue()) == part + Queue() && pending == |Queue()| && delivered == old(delivered) + part
      ensures |chunks| == 0 ==> Queue() == []
      ensures |part| <= limit && (|chunks| < |old(chunks)| || (|chunks| == |old(chunks)| && |part| == limit))
    {
      var chunk := chunks[0];
      var n := if limit < |chunk| - offset then limit else |chunk| - offset;
      TakeRest(chunks, offset, n);
      part := chunk[offset..offset + n];
      hide Rest;
      delivered := delivered + part;
      offset := offset + n;
      pending := pending - n;
      if offset == |chunk| {
        DropChunk(chunks);
        NothingLeft(chunks[1..]);
        chunks := chunks[1..];
        offset := 0;
      }
    }

    /** `pending`: how many bytes are queued; with none, -1 for an error, -2 at the end of the stream. */
    method Pending() returns (result: int)
      requires Valid()
      ensures result == if |Queue()| > 0 then |Queue()| else if error.Some? then -1 else if eof then -2 else 0
    {
      if pending > 0 {
        return pending;
      }
      if error.Some? {
        return -1;
      }
      return if eof then -2 else 0;
    }
  }

  /** The chunks without the first `offset` bytes. */
  function Rest(chunks: seq<seq<Byte>>, offset: int): seq<Byte>
    requires 0 <= offset && (if |chunks| == 0 then offset == 0 else offset <= |chunks[0]|)
  {
    if |chunks| == 0 then [] else chunks[0][offset..] + Flatten(chunks[1..])
  }

  lemma AppendRest(chunks: seq<seq<Byte>>, offset: int, chunk: seq<Byte>)
    requires 0 <= offset && (if |chunks| == 0 then offset == 0 else offset <= |chunks[0]|)
    ensures Rest(chunks + [chunk], offset) == Rest(chunks, offset) + chunk
  {
    if |chunks| > 0 {
      FlattenJoin(chunks[1..], chunk);
      assert (chunks + [chunk])[1..] == chunks[1..] + [chunk];
    } else {
      assert (chunks + [chunk])[1..] == [];
    }
  }

  lemma TakeRest(chunks: seq<seq<Byte>>, offset: int, n: int)
    requires |chunks| > 0 && 0 <= offset && 0 <= n && offset + n <= |chunks[0]|
    ensures Rest(chunks, offset) == chunks[0][offset..offset + n] + Rest(chunks, offset + n)
  {
    hide Flatten;
    CutTwice(chunks[0], offset, offset + n);
    JoinAgain(chunks[0][offset..offset + n], chunks[0][offset + n..], Flatten(chunks[1..]));
  }

  lemma DropChunk(chunks: seq<seq<Byte>>)
    requires |chunks| > 0
    ensures Rest(chunks, |chunks[0]|) == Rest(chunks[1..], 0)
  {
    var rest := chunks[1..];
    if |rest| > 0 {
      assert rest[0][0..] == rest[0];
    }
  }

  lemma CutTwice<T>(s: seq<T>, i: nat, j: nat)
    requires i <= j <= |s|
    ensures s[i..] == s[i..j] + s[j..]
  {
  }

  lemma JoinAgain<T>(a: seq<T>, b: seq<T>, c: seq<T>)
    ensures a + (b + c) == (a + b) + c
  {
  }

  lemma NothingLeft(chunks: seq<seq<Byte>>)
    ensures |chunks| == 0 ==> Rest(chunks, 0) == []
  {
  }
}
