/**
  The streaming chunker: a fixed 64 KiB read buffer refilled from a reader that may
  hand out its bytes in pieces of any size. `NextChunk` is proved to return the next
  chunk of the whole-string reference in `ChunkSpec`, however the reads are split.
 */
module Chunker {
  import opened Basics
  import opened Fingerprint
  import opened ChunkSpec

  const READ_BUFFER_SIZE: nat := 64 * 1024

  /** How a reader answers one call: interrupted, at most `limit` bytes, or a hard error. */
  datatype Answer = Interrupted | AtMost(limit: nat) | Broken

  datatype ReadResult = Bytes(length: nat) | Retry | Error

  datatype Outcome = Chunk(bytes: seq<byte>) | EndOfInput | Failed

  /** A byte source. After its scripted answers it fills the buffer whenever it can. */
  class Reader {
    var rest: seq<byte>
    var answers: seq<Answer>
    /** Whether the end of the input has been reported. */
    ghost var ended: bool

    constructor (input: seq<byte>, answers: seq<Answer>)
      ensures rest == input && this.answers == answers && !ended
    {
      rest := input;
      this.answers := answers;
      ended := false;
    }

    /** No hard error lies ahead. */
    ghost predicate Sound()
      reads this
    {
      Broken !in answers
    }

    /** A caller that reads again after the end has been reported does not verify. */
    method Read(buffer: array<byte>) returns (r: ReadResult)
      requires buffer.Length > 0 && !ended
      modifies this, buffer
      ensures old(Sound()) ==> Sound()
      ensures r.Bytes? ==>
                && r.length <= buffer.Length
                && old(rest) == buffer[..r.length] + rest
                && (r.length == 0 <==> old(rest) == [])
                && (ended <==> r.length == 0)
      ensures r.Retry? ==> rest == old(rest) && !ended && |answers| < |old(answers)|
      ensures r.Error? ==> rest == old(rest) && !ended && !old(Sound())
    {
      var limit := buffer.Length;
      if answers != [] {
        var answer := answers[0];
        answers := answers[1..];
        match answer {
          case Interrupted => return Retry;
          case Broken => return Error;
          case AtMost(n) =>
            // A reader with bytes left never answers zero.
            if 0 < n < limit {
              limit := n;
            }
        }
      }
      var n := if |rest| < limit then |rest| else limit;
      for i := 0 to n
        invariant buffer[..i] == rest[..i]
        invariant rest == old(rest)
        modifies buffer
      {
        buffer[i] := rest[i];
      }
      rest := rest[n..];
      ended := n == 0;
      return Bytes(n);
    }
  }

  class ContentDefinedChunker {
    const reader: Reader
    const config: Config
    const readBuffer: array<byte>
    var readPosition: nat
    var readLength: nat
    var eof: bool

    ghost predicate Valid()
      reads this, reader
    {
      && config.IsValid()
      && readBuffer.Length == READ_BUFFER_SIZE
      && readPosition <= readLength <= readBuffer.Length
      && eof == reader.ended
      && (eof ==> readLength == 0 && reader.rest == [])
    }

    /** The bytes that no chunk has been returned for yet. */
    ghost function Pending(): seq<byte>
      requires Valid()
      reads this, reader, readBuffer
    {
      readBuffer[readPosition..readLength] + reader.rest
    }

    constructor (reader: Reader, config: Config)
      requires config.IsValid() && !reader.ended
      ensures Valid() && this.reader == reader && this.config == config
      ensures fresh(this) && fresh(readBuffer)
      ensures Pending() == reader.rest
    {
      this.reader := reader;
      this.config := config;
      readBuffer := new byte[READ_BUFFER_SIZE](_ => 0);
      readPosition := 0;
      readLength := 0;
      eof := false;
    }

    method Refill() returns (ok: bool)
      requires Valid() && readPosition == readLength && !eof
      modifies this`readPosition, this`readLength, this`eof, reader, readBuffer
      ensures old(reader.Sound()) ==> reader.Sound()
      ensures ok ==> Valid() && Pending() == old(Pending()) && readPosition == 0
      ensures ok ==> (eof <==> readLength == 0) && (eof <==> old(Pending()) == [])
      ensures !ok ==> !old(reader.Sound())
    {
      readPosition := 0;
      while true
        invariant reader.rest == old(reader.rest) && !reader.ended && !eof
        invariant readPosition == 0
        invariant old(reader.Sound()) ==> reader.Sound()
        decreases |reader.answers|
      {
        var r := reader.Read(readBuffer);
        match r {
          case Bytes(0) =>
            readLength := 0;
            eof := true;
            return true;
          case Bytes(length) =>
            readLength := length;
            return true;
          case Retry =>
          case Error =>
            return false;
        }
      }
    }

    /** Feeds up to `take` buffered bytes to the growing chunk, until one of them cuts it. */
    method Scan(prefix: seq<byte>, start: word, take: nat)
      returns (chunk: seq<byte>, fingerprint: word, used: nat, cut: bool)
      requires Valid() && readPosition + take <= readLength
      requires start == Of(prefix) && OpenChunk(config, prefix)
      ensures used <= take && chunk == prefix + readBuffer[readPosition..readPosition + used]
      ensures fingerprint == Of(chunk)
      ensures cut ==> used > 0 && Unstopped(config, chunk) && config.Stops(chunk)
      ensures !cut ==> used == take && OpenChunk(config, chunk)
    {
      hide Config.Stops, Config.Mask, Hits, Of, Roll, Config.IsValid, OpenChunk, Unstopped;
      chunk, fingerprint, used, cut := prefix, start, 0, false;
      var mask := config.Mask();
      while used < take
        invariant used <= take && chunk == prefix + readBuffer[readPosition..readPosition + used]
        invariant fingerprint == Of(chunk)
        invariant OpenChunk(config, chunk)
      {
        var b := readBuffer[readPosition + used];
        Extend(config, chunk, b, fingerprint);
        chunk := chunk + [b];
        fingerprint := Roll(fingerprint, b);
        used := used + 1;
        OpenMeans(config, chunk);
        if |chunk| >= config.minimumSize && Hits(fingerprint, mask) {
          return chunk, fingerprint, used, true;
        }
        if |chunk| == config.maximumSize {
          return chunk, fingerprint, used, true;
        }
      }
    }

    /** `Scan`, followed by the move of the read position past what it used. */
    method Consume(prefix: seq<byte>, start: word, take: nat)
      returns (chunk: seq<byte>, fingerprint: word, cut: bool)
      requires Valid() && readPosition + take <= readLength
      requires start == Of(prefix) && OpenChunk(config, prefix)
      modifies this`readPosition
      ensures Valid()
      ensures prefix + old(Pending()) == chunk + Pending()
      ensures fingerprint == Of(chunk)
      ensures cut ==> |prefix| < |chunk| && Unstopped(config, chunk) && config.Stops(chunk)
      ensures !cut ==> |chunk| == |prefix| + take && OpenChunk(config, chunk)
    {
      hide Config.Stops, Of, Config.IsValid, OpenChunk, Unstopped;
      ghost var window := readBuffer[readPosition..readLength];
      var used;
      chunk, fingerprint, used, cut := Scan(prefix, start, take);
      MoveBytes(prefix, window, used, reader.rest);
      assert readBuffer[readPosition..readPosition + used] == window[..used];
      readPosition := readPosition + used;
      assert readBuffer[readPosition..readLength] == window[used..];
    }

    /** Returns the next chunk of the whole-string reference, whatever the read sizes were. */
    method NextChunk() returns (r: Outcome)
      requires Valid()
      modifies this`readPosition, this`readLength, this`eof, reader, readBuffer
      ensures old(reader.Sound()) ==> reader.Sound()
      ensures r.Chunk? ==>
                && Valid()
                && old(Pending()) == r.bytes + Pending()
                && r.bytes != []
                && |r.bytes| == Cut(config, old(Pending()))
                && Unstopped(config, r.bytes) && (Pending() == [] || config.Stops(r.bytes))
                && |r.bytes| <= config.maximumSize
      ensures r.EndOfInput? ==> Valid() && old(Pending()) == [] && Pending() == []
      ensures r.Failed? ==> !old(reader.Sound())
    {
      hide Config.Stops, Of, Config.IsValid, Cut, OpenChunk, Unstopped;
      assert eof && readPosition == readLength ==> Pending() == [];
      hide Pending, Reader.Sound;
      if eof && readPosition == readLength {
        return EndOfInput;
      }
      ghost var input := Pending();
      var chunk: seq<byte> := [];
      var fingerprint: word := 0;
      EmptyIsOpen(config);

      while true
        invariant Valid() && !(eof && readPosition == readLength)
        invariant old(reader.Sound()) ==> reader.Sound()
        invariant input == chunk + Pending()
        invariant fingerprint == Of(chunk)
        invariant OpenChunk(config, chunk)
        decreases |Pending()|
      {
        if readPosition == readLength {
          var ok := Refill();
          if !ok {
            return Failed;
          }
          if eof && readLength == 0 {
            if chunk == [] {
              return EndOfInput;
            }
            LastChunk(config, input, chunk);
            return Chunk(chunk);
          }
        }

        OpenIsShort(config, chunk);
        var remainingToMaximum := config.maximumSize - |chunk|;
        var available := readLength - readPosition;
        var take := if remainingToMaximum < available then remainingToMaximum else available;
        var cut;
        chunk, fingerprint, cut := Consume(chunk, fingerprint, take);
        if cut {
          ClosingCut(config, input, chunk, Pending());
          return Chunk(chunk);
        }
      }
    }
  }

  /** A chunk in the making: nothing so far has cut it. */
  ghost predicate OpenChunk(c: Config, s: seq<byte>)
    requires c.IsValid()
  {
    Unstopped(c, s) && !c.Stops(s)
  }

  lemma MoveBytes(chunk: seq<byte>, window: seq<byte>, used: nat, rest: seq<byte>)
    requires used <= |window|
    ensures chunk + (window + rest) == (chunk + window[..used]) + (window[used..] + rest)
  {
  }

  lemma OpenMeans(c: Config, s: seq<byte>)
    requires c.IsValid()
    ensures OpenChunk(c, s) <==> Unstopped(c, s) && !c.Stops(s)
  {
    hide Unstopped, Config.Stops;
  }

  lemma EmptyIsOpen(c: Config)
    requires c.IsValid()
    ensures OpenChunk(c, []) && Of([]) == 0
  {
  }

  lemma OpenIsShort(c: Config, s: seq<byte>)
    requires c.IsValid() && OpenChunk(c, s)
    ensures |s| < c.maximumSize
  {
    hide Of, Remainder, ToWord;
    UnstoppedIsBounded(c, s);
  }

  /** One more byte: either the new chunk is open, or the two tests of the loop see the cut. */
  lemma Extend(c: Config, s: seq<byte>, b: byte, f: word)
    requires c.IsValid() && OpenChunk(c, s) && f == Of(s)
    ensures Roll(f, b) == Of(s + [b])
    ensures Unstopped(c, s + [b])
    ensures c.Stops(s + [b]) <==>
              (|s| + 1 >= c.minimumSize && Hits(Roll(f, b), c.Mask())) || |s| + 1 == c.maximumSize
  {
    hide Of, Roll, Config.Mask, Hits, Remainder, ToWord;
    OfAppend(s, b);
    MaskTest(c, Roll(f, b));
    forall m | 0 <= m < |s + [b]|
      ensures !c.Stops((s + [b])[..m])
    {
      assert (s + [b])[..m] == s[..m];
      assert m == |s| ==> s[..m] == s;
    }
  }

  lemma ClosingCut(c: Config, input: seq<byte>, chunk: seq<byte>, rest: seq<byte>)
    requires c.IsValid() && chunk != [] && input == chunk + rest
    requires Unstopped(c, chunk)
    requires rest == [] || c.Stops(chunk)
    ensures Cut(c, input) == |chunk| <= c.maximumSize
  {
    hide Cut, Config.Stops;
    UnstoppedIsBounded(c, chunk);
    assert input[..|chunk|] == chunk;
    FirstStopIsCut(c, input, |chunk|);
  }

  /** What is open when input runs out is the last chunk. */
  lemma LastChunk(c: Config, input: seq<byte>, chunk: seq<byte>)
    requires c.IsValid() && chunk != [] && input == chunk + [] && OpenChunk(c, chunk)
    ensures Cut(c, input) == |chunk| <= c.maximumSize && Unstopped(c, chunk)
  {
    hide Cut, Config.Stops, OpenChunk;
    OpenMeans(c, chunk);
    ClosingCut(c, input, chunk, []);
  }

  lemma NextOfChunks(c: Config, s: seq<byte>, chunk: seq<byte>, rest: seq<byte>, done: seq<seq<byte>>)
    requires c.IsValid() && s == chunk + rest && chunk != [] && |chunk| == Cut(c, s)
    ensures done + Chunks(c, s) == (done + [chunk]) + Chunks(c, rest)
  {
    hide Cut, Config.IsValid;
    assert s[..|chunk|] == chunk && s[|chunk|..] == rest;
    assert Chunks(c, s) == [chunk] + Chunks(c, rest);
  }

  lemma ChunksOfNone(c: Config)
    requires c.IsValid()
    ensures Chunks(c, []) == []
  {
  }

  /**
    Drains a reader. A reader without hard errors yields exactly the reference chunks;
    any other yields a prefix of them.
   */
  method ChunkAll(reader: Reader, config: Config) returns (chunks: seq<seq<byte>>, complete: bool)
    requires config.IsValid() && !reader.ended
    modifies reader
    ensures complete ==> chunks == Chunks(config, old(reader.rest))
    ensures complete ==> Concat(chunks) == old(reader.rest)
    ensures !complete ==> !old(reader.Sound()) && chunks <= Chunks(config, old(reader.rest))
  {
    hide Cut, Concat, Config.IsValid, Chunks;
    ghost var input := reader.rest;
    ChunksOfNone(config);
    ChunkSizes(config, input);
    var chunker := new ContentDefinedChunker(reader, config);
    chunks := [];
    while true
      invariant fresh(chunker) && fresh(chunker.readBuffer)
      invariant chunker.reader == reader && chunker.config == config && chunker.Valid()
      invariant old(reader.Sound()) ==> reader.Sound()
      invariant Chunks(config, input) == chunks + Chunks(config, chunker.Pending())
      decreases |chunker.Pending()|
    {
      ghost var pending := chunker.Pending();
      var r := chunker.NextChunk();
      match r {
        case EndOfInput =>
          return chunks, true;
        case Failed =>
          return chunks, false;
        case Chunk(bytes) =>
          NextOfChunks(config, pending, bytes, chunker.Pending(), chunks);
          chunks := chunks + [bytes];
      }
    }
  }
}
