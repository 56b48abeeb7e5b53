// The bounded copy (agent-platform/blob/local.go, copyBounded).
module BlobCopy {
  import opened Collections
  import opened Utf8

  datatype ReadError = Eof | ReadFailed
  datatype CopyError = Canceled | TooLarge | WriteFailed | ShortWrite | SourceFailed | NoProgress

  /** What one Read returns: some bytes, an error, or both. */
  datatype ReadResult = ReadResult(data: seq<byte>, error: Option<ReadError>)

  /** A reader, by what its calls will return; afterwards it returns nothing. */
  class Source {
    var script: seq<ReadResult>

    constructor (script: seq<ReadResult>)
      ensures this.script == script
    {
      this.script := script;
    }

    method Read() returns (r: ReadResult)
      modifies this
      ensures if old(script) == [] then r == ReadResult([], None) && script == []
              else r == old(script)[0] && script == old(script)[1..]
    {
      if script == [] {
        return ReadResult([], None);
      }
      r, script := script[0], script[1..];
    }
  }

  /** What one Write does: how many bytes it takes at most, and whether it fails. */
  datatype WriteResult = WriteResult(room: nat, fails: bool)

  /** A writer; behind its script it takes everything. */
  class Sink {
    var contents: seq<byte>
    var script: seq<WriteResult>

    constructor (script: seq<WriteResult>)
      ensures contents == [] && this.script == script
    {
      contents, this.script := [], script;
    }

    method Write(data: seq<byte>) returns (written: nat, failed: bool)
      modifies this
      ensures written <= |data| && contents == old(contents) + data[..written]
      ensures old(script) == [] ==> written == |data| && !failed && script == []
    {
      written, failed := |data|, false;
      if script != [] {
        written := if script[0].room < |data| then script[0].room else |data|;
        failed, script := script[0].fails, script[1..];
      }
      contents := contents + data[..written];
    }
  }

  /** How the reading goes when nothing stops it. */
  datatype Ending = AtEof | AtError | AtStall

  /** The whole source: every byte up to and including the first read that ends it. */
  function Whole(script: seq<ReadResult>): (seq<byte>, Ending) {
    if script == [] then ([], AtStall)
    else
      var r := script[0];
      if r.error.Some? then (r.data, if r.error.value == Eof then AtEof else AtError)
      else if r.data == [] then ([], AtStall)
      else
        var rest := Whole(script[1..]);
        (r.data + rest.0, rest.1)
  }

  /** However the source splits its data: success means that the destination got the
      entire source and that it fits; otherwise the destination got a prefix that fits.
      With a faithful destination the copy succeeds exactly when the source ends
      regularly and fits, and too large comes before any other failure. */
  method CopyBounded(cancel: seq<bool>, destination: Sink, source: Source, maximum: nat)
      returns (total: nat, error: Option<CopyError>)
    modifies destination, source
    ensures error.None? ==>
      var whole := Whole(old(source.script));
      && whole.1 == AtEof && destination.contents == old(destination.contents) + whole.0
      && total == |whole.0| <= maximum
    ensures error.Some? ==>
      var whole := Whole(old(source.script));
      && total <= |whole.0| && total <= maximum && destination.contents == old(destination.contents) + whole.0[..total]
    ensures cancel == [] && old(destination.script) == [] ==>
      var whole := Whole(old(source.script));
      && (error.None? <==> whole.1 == AtEof && |whole.0| <= maximum)
      && (error == Some(TooLarge) <==> |whole.0| > maximum)
      && (error == Some(SourceFailed) <==> |whole.0| <= maximum && whole.1 == AtError)
      && (error == Some(NoProgress) <==> |whole.0| <= maximum && whole.1 == AtStall)
  {
    ghost var whole, start := Whole(source.script).0, destination.contents;
    var polled := cancel;
    total := 0;
    while true
      invariant total <= |whole| && total <= maximum
      invariant Whole(source.script) == (whole[total..], Whole(old(source.script)).1)
      invariant destination.contents == start + whole[..total]
      invariant cancel == [] ==> polled == []
      invariant old(destination.script) == [] ==> destination.script == []
      decreases |source.script|
    {
      if polled != [] {
        if polled[0] {
          return total, Some(Canceled);
        }
        polled := polled[1..];
      }
      var r := source.Read();
      var count := |r.data|;
      if count > 0 {
        assert count <= |whole[total..]|;
        if total + count > maximum {
          return total, Some(TooLarge);
        }
        var written, failed := destination.Write(r.data);
        Advance(whole, total, r.data, written, start);
        total := total + written;
        if failed {
          return total, Some(WriteFailed);
        }
        if written != count {
          return total, Some(ShortWrite);
        }
      }
      if r.error.Some? {
        if r.error.value == Eof {
          assert whole[..total] == whole;
          return total, None;
        }
        return total, Some(SourceFailed);
      }
      if count == 0 {
        return total, Some(NoProgress);
      }
    }
  }

  /** Writing the first n bytes of the next piece. */
  lemma {:induction false} Advance(whole: seq<byte>, total: nat, data: seq<byte>, n: nat, start: seq<byte>)
    requires total <= |whole| && data <= whole[total..] && n <= |data|
    ensures total + n <= |whole| && start + whole[..total] + data[..n] == start + whole[..total + n]
    ensures whole[total..][n..] == whole[total + n..]
  {
    assert whole[..total + n] == whole[..total] + data[..n];
  }

  /** The whole does not depend on how it is split: joining two successive reads
      reads the same. */
  lemma {:induction false} SplitIrrelevant(a: seq<byte>, b: seq<byte>, e: Option<ReadError>, rest: seq<ReadResult>)
    requires a != [] && (b != [] || e.Some?)
    ensures Whole([ReadResult(a, None), ReadResult(b, e)] + rest) == Whole([ReadResult(a + b, e)] + rest)
  {
    var split, joined := [ReadResult(a, None), ReadResult(b, e)] + rest, [ReadResult(a + b, e)] + rest;
    assert split[1..] == [ReadResult(b, e)] + rest && split[1..][1..] == rest && joined[1..] == rest;
    if e.None? {
      assert a + (b + Whole(rest).0) == a + b + Whole(rest).0;
    }
  }
}
