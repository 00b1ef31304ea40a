/**
 Reading a pod-log stream into memory with one byte to spare over the limit, so that an
 overrun shows. The stream may be cut into chunks in any way and may fail at any point.
 */
module PodLogReader {
  import opened GoLibrary
  import opened Wrappers

  datatype Status = More | Eof | Failed

  /** The bytes still to come, in the chunks in which they will arrive. */
  class Stream {
    var chunks: seq<seq<byte>>
    const fails: bool  // how it ends once they have all been read

    constructor (chunks: seq<seq<byte>>, fails: bool)
      ensures this.chunks == chunks && this.fails == fails
    {
      this.chunks, this.fails := chunks, fails;
    }

    /** Read at most `max` bytes: the next chunk or as much of it as fits. */
    method Read(max: nat) returns (p: seq<byte>, status: Status)
      requires max > 0
      modifies this
      ensures Flat(old(chunks)) == p + Flat(chunks) && |p| <= max
      ensures status.More? <==> old(chunks) != []
      ensures status.More? ==> |p| == max || |chunks| < |old(chunks)|
      ensures !status.More? ==> p == [] && chunks == old(chunks) && status == (if fails then Failed else Eof)
    {
      if chunks == [] {
        p, status := [], if fails then Failed else Eof;
      } else if |chunks[0]| <= max {
        p, status := chunks[0], More;
        chunks := chunks[1..];
      } else {
        p, status := chunks[0][..max], More;
        ghost var before := chunks;
        chunks := [chunks[0][max..]] + chunks[1..];
        assert chunks[1..] == before[1..];
        assert before[0] == p + chunks[0];
      }
    }
  }

  function Flat(chunks: seq<seq<byte>>): seq<byte> {
    if chunks == [] then [] else chunks[0] + Flat(chunks[1..])
  }

  datatype ReadError = ReadFailed | TooLarge(limit: nat)

  /** What reading a stream with this content and ending yields, however it arrives. */
  function Outcome(content: seq<byte>, fails: bool, limit: nat): Result<seq<byte>, ReadError> {
    if |content| > limit then Err(TooLarge(limit))
    else if fails then Err(ReadFailed)
    else Ok(content)
  }

  function Total(copies: seq<nat>): nat {
    if copies == [] then 0 else Total(copies[..|copies| - 1]) + copies[|copies| - 1]
  }

  /** Copy the stream through a reader that stops after limit + 1 bytes. At most that many bytes are
      taken from the stream, and the result depends only on its content and its ending. `copies` says how
      many bytes the buffer grew by in each turn. */
  method ReadBounded(stream: Stream, limit: nat) returns (r: Result<seq<byte>, ReadError>, ghost copies: seq<nat>)
    modifies stream
    ensures Total(copies) == if |Flat(old(stream.chunks))| <= limit then |Flat(old(stream.chunks))| else limit + 1
    ensures r == Outcome(Flat(old(stream.chunks)), stream.fails, limit)
    ensures var content := Flat(old(stream.chunks));
            Flat(stream.chunks) == content[if |content| <= limit then |content| else limit + 1..]
  {
    ghost var content := Flat(stream.chunks);
    var buf: seq<byte> := [];
    var left: nat := limit + 1;
    var status := More;
    copies := [];
    while left > 0 && status.More?
      invariant content == buf + Flat(stream.chunks)
      invariant |buf| + left == limit + 1
      invariant Total(copies) == |buf|
      invariant !status.More? ==> left > 0 && stream.chunks == [] && status == (if stream.fails then Failed else Eof)
      decreases left, status.More?, |stream.chunks|
    {
      var p;
      p, status := stream.Read(left);
      buf := buf + p;
      left := left - |p|;
      assert (copies + [|p|])[..|copies|] == copies;
      copies := copies + [|p|];
    }
    assert Flat(stream.chunks) == content[|buf|..];
    if status.Failed? {
      return Err(ReadFailed), copies;
    }
    if |buf| > limit {
      assert |buf| == limit + 1 <= |content|;
      return Err(TooLarge(limit)), copies;
    }
    assert content == buf;
    return Ok(buf), copies;
  }

  /** The exact stream comes back if and only if it ends well within the limit; and a server that
      sends no more than the limit it was given never causes the size error. */
  lemma OutcomeExact(content: seq<byte>, fails: bool, limit: nat)
    ensures (exists bytes :: Outcome(content, fails, limit) == Ok(bytes)) <==> |content| <= limit && !fails
    ensures forall bytes :: Outcome(content, fails, limit) == Ok(bytes) ==> bytes == content
    ensures |content| <= limit <==> Outcome(content, fails, limit) != Err(TooLarge(limit))
  {
    if |content| <= limit && !fails {
      assert Outcome(content, fails, limit) == Ok(content);
    }
  }
}
