/** Byte streams as the program meets them: data arrives in chunks of the network's choosing,
    writes are accepted piecemeal, and either may stop for good at any call. */
module Streams {
  import opened Utf8
  import opened Wire

  datatype Result<+T> = Ok(value: T) | Err(error: WireError)

  /** What a read finds once all chunks are used up: end of stream, or no answer at all (an
      error, an expired timeout, or the reading future being dropped). */
  datatype Ending = CleanEof | Lost

  function Flatten(chunks: seq<seq<Byte>>): seq<Byte> {
    if chunks == [] then [] else chunks[0] + Flatten(chunks[1..])
  }

  /** The error of a reader that ran out of bytes. */
  function AtEnd(e: WireError, ending: Ending): WireError {
    if e == UnexpectedEof && ending.Lost? then ConnectionLost else e
  }

  class Source {
    var chunks: seq<seq<Byte>>
    const ending: Ending

    ghost predicate Valid()
      reads this
    {
      forall i | 0 <= i < |chunks| :: chunks[i] != []
    }

    /** Every byte still to come. */
    ghost function Bytes(): seq<Byte>
      reads this
    {
      Flatten(chunks)
    }

    constructor (chunks: seq<seq<Byte>>, ending: Ending)
      requires forall i | 0 <= i < |chunks| :: chunks[i] != []
      ensures Valid() && this.chunks == chunks && this.ending == ending
    {
      this.chunks := chunks;
      this.ending := ending;
    }

    /** One `read` into `buf[from..]`: some bytes of the first chunk; nothing at end of stream
        or for an empty buffer. */
    method Read(buf: array<Byte>, from: nat) returns (r: Result<nat>)
      requires Valid() && from <= buf.Length
      modifies this`chunks, buf
      ensures Valid()
      ensures buf[..from] == old(buf[..from])
      ensures r.Ok? ==> var n := r.value;
                from + n <= buf.Length && n <= |old(Bytes())|
                && buf[from..from + n] == old(Bytes())[..n] && Bytes() == old(Bytes())[n..]
                && (n == 0 <==> from == buf.Length || (old(Bytes()) == [] && ending.CleanEof?))
      ensures r.Err? <==> from < buf.Length && old(Bytes()) == [] && ending.Lost?
      ensures r.Err? ==> r == Err(ConnectionLost) && Bytes() == []
    {
      if from == buf.Length {
        return Ok(0);
      }
      if chunks == [] {
        return if ending.CleanEof? then Ok(0) else Err(ConnectionLost);
      }
      var c := chunks[0];
      assert Bytes() == c + Flatten(chunks[1..]);
      var n := if |c| <= buf.Length - from then |c| else buf.Length - from;
      forall i | 0 <= i < n {
        buf[from + i] := c[i];
      }
      chunks := if n == |c| then chunks[1..] else [c[n..]] + chunks[1..];
      if n < |c| {
        assert chunks[1..] == old(chunks)[1..];
      }
      r := Ok(n);
    }
  }

  /** `read_exact`: succeeds exactly when enough bytes are still to come, whatever the chunking. */
  method ReadExact(src: Source, n: nat) returns (r: Result<seq<Byte>>)
    requires src.Valid()
    modifies src`chunks
    ensures src.Valid()
    ensures match Take(old(src.Bytes()), n)
            case Parsed(b, rest) => r == Ok(b) && src.Bytes() == rest
            case Rejected(e) => r == Err(AtEnd(e, src.ending))
  {
    var buf := new Byte[n];
    var filled := 0;
    while filled < n
      invariant src.Valid() && fresh(buf)
      invariant 0 <= filled <= n && filled <= |old(src.Bytes())|
      invariant buf[..filled] == old(src.Bytes())[..filled]
      invariant src.Bytes() == old(src.Bytes())[filled..]
      decreases n - filled
    {
      var got := src.Read(buf, filled);
      if got.Err? {
        return Err(got.error);
      }
      if got.value == 0 {
        return Err(UnexpectedEof);
      }
      assert buf[..filled + got.value] == buf[..filled] + buf[filled..filled + got.value];
      filled := filled + got.value;
    }
    assert buf[..] == buf[..n];
    r := Ok(buf[..]);
  }

  /** The writing end.  `plan` says how many bytes each coming call accepts; when it is used up
      the stream takes no more (an error, or the writing future was dropped). */
  class Sink {
    var written: seq<Byte>
    var plan: seq<nat>

    constructor (plan: seq<nat>)
      ensures written == [] && this.plan == plan
    {
      this.written := [];
      this.plan := plan;
    }

    /** A stream that takes at least a byte at each call until it breaks. */
    ghost predicate Healthy()
      reads this
    {
      forall i | 0 <= i < |plan| :: plan[i] > 0
    }

    method Write(data: seq<Byte>) returns (r: Result<nat>)
      modifies this
      ensures r.Ok? <==> old(plan) != []
      ensures r.Ok? ==> plan == old(plan)[1..] && r.value == (if old(plan)[0] <= |data| then old(plan)[0] else |data|)
                        && written == old(written) + data[..r.value]
      ensures r.Err? ==> r == Err(ConnectionLost) && written == old(written) && plan == []
    {
      if plan == [] {
        return Err(ConnectionLost);
      }
      var n := if plan[0] <= |data| then plan[0] else |data|;
      written := written + data[..n];
      plan := plan[1..];
      r := Ok(n);
    }

    method Flush() returns (r: Result<()>)
      modifies this
      ensures written == old(written)
      ensures r == (if old(plan) != [] then Ok(()) else Err(ConnectionLost))
      ensures plan == if old(plan) != [] then old(plan)[1..] else []
    {
      if plan == [] {
        return Err(ConnectionLost);
      }
      plan := plan[1..];
      r := Ok(());
    }

    /** `write_all`: everything, or a strict prefix and an error; a healthy stream errs only when it
        is broken. */
    method WriteAll(data: seq<Byte>) returns (r: Result<()>)
      modifies this
      ensures old(Healthy()) ==> Healthy() && (r.Err? ==> plan == [])
      ensures r.Ok? ==> written == old(written) + data
      ensures r.Err? ==> r == Err(ConnectionLost) && old(written) <= written < old(written) + data
    {
      var sent := 0;
      while sent < |data|
        invariant 0 <= sent <= |data|
        invariant written == old(written) + data[..sent]
        invariant old(Healthy()) ==> Healthy()
        decreases |plan|
      {
        var n := Write(data[sent..]);
        if n.Err? {
          return Err(n.error);
        }
        if n.value == 0 {
          return Err(ConnectionLost);
        }
        assert data[..sent] + data[sent..][..n.value] == data[..sent + n.value];
        sent := sent + n.value;
      }
      assert data[..sent] == data;
      r := Ok(());
    }
  }
}
