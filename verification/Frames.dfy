/** Length-prefixed frames on a reliable byte stream. */
module Frames {
  import opened Prelude
  import opened Bytes

  const MAX_FRAME := 65535
  const PREFIX := 4

  datatype FrameError = FrameTooLarge | Truncated | Oversized

  predicate Fits(data: seq<byte>) {
    |data| <= MAX_FRAME
  }

  predicate AllFit(frames: seq<seq<byte>>) {
    forall i | 0 <= i < |frames| :: Fits(frames[i])
  }

  /** The bytes of one frame. */
  function Framed(data: seq<byte>): (s: seq<byte>)
    ensures |s| == PREFIX + |data|
  {
    BigEndian(|data|, PREFIX) + data
  }

  function FramedAll(frames: seq<seq<byte>>): seq<byte> {
    if frames == [] then [] else Framed(frames[0]) + FramedAll(frames[1..])
  }

  // ----- reading

  /** One `read_frame` on the bytes left before the end of the stream, and what it leaves. */
  datatype Read = End | Fail(error: FrameError) | Frame(data: seq<byte>, rest: seq<byte>)

  function ReadOne(s: seq<byte>): (r: Read)
    ensures r.Frame? ==> |r.rest| < |s|
  {
    if s == [] then End
    else if |s| < PREFIX then Fail(Truncated)
    else
      var len := FromBigEndian(s[..PREFIX]);
      if len > MAX_FRAME then Fail(Oversized)
      else if |s| < PREFIX + len then Fail(Truncated)
      else Frame(s[PREFIX..PREFIX + len], s[PREFIX + len..])
  }

  /** All frames up to the end of the stream, and how it ended: in order, or with an error. */
  datatype Contents = Contents(frames: seq<seq<byte>>, error: Option<FrameError>)

  function ReadAll(s: seq<byte>): Contents
    decreases |s|
  {
    match ReadOne(s)
    case End => Contents([], None)
    case Fail(e) => Contents([], Some(e))
    case Frame(data, rest) =>
      var tail := ReadAll(rest);
      Contents([data] + tail.frames, tail.error)
  }

  lemma ReadFramed(data: seq<byte>, rest: seq<byte>)
    requires Fits(data)
    ensures ReadOne(Framed(data) + rest) == Frame(data, rest)
  {
    Widths();
    DecodeEncode(|data|, PREFIX);
    var s := Framed(data) + rest;
    assert s[..PREFIX] == BigEndian(|data|, PREFIX);
  }

  /** A frame that was read is exactly the bytes it was read from. */
  lemma ReadIsFramed(s: seq<byte>)
    requires ReadOne(s).Frame?
    ensures Fits(ReadOne(s).data) && s == Framed(ReadOne(s).data) + ReadOne(s).rest
  {
    EncodeDecode(s[..PREFIX]);
    assert s == s[..PREFIX] + s[PREFIX..PREFIX + |ReadOne(s).data|] + ReadOne(s).rest;
  }

  /** A stream ends in order exactly when it is a concatenation of frames, which are then the ones read. */
  lemma {:induction false} OrderlyExactly(s: seq<byte>)
    ensures ReadAll(s).error.None? <==> s == FramedAll(ReadAll(s).frames)
    ensures AllFit(ReadAll(s).frames)
    decreases |s|
  {
    var r := ReadOne(s);
    if r.Frame? {
      ReadIsFramed(s);
      OrderlyExactly(r.rest);
      var frames := ReadAll(s).frames;
      assert frames[0] == r.data && frames[1..] == ReadAll(r.rest).frames;
      assert s[PREFIX + |r.data|..] == r.rest;
    }
  }

  // ----- truncation

  /** Whole frames within the first `k` bytes. */
  function Whole(frames: seq<seq<byte>>, k: nat): (w: nat)
    ensures w <= |frames|
  {
    if frames == [] || k < PREFIX + |frames[0]| then 0
    else 1 + Whole(frames[1..], k - PREFIX - |frames[0]|)
  }

  /** The cut after `k` bytes falls between two frames. */
  ghost predicate Boundary(frames: seq<seq<byte>>, k: nat) {
    exists j | 0 <= j <= |frames| :: k == |FramedAll(frames[..j])|
  }

  lemma BoundaryStep(frames: seq<seq<byte>>, k: nat)
    requires frames != [] && k >= |Framed(frames[0])|
    ensures Boundary(frames, k) <==> Boundary(frames[1..], k - |Framed(frames[0])|)
  {
    var n, tail := |Framed(frames[0])|, frames[1..];
    forall j | 0 <= j <= |tail|
      ensures |FramedAll(frames[..j + 1])| == n + |FramedAll(tail[..j])|
    {
      assert frames[..j + 1][1..] == tail[..j];
    }
    if Boundary(frames, k) {
      var j :| 0 <= j <= |frames| && k == |FramedAll(frames[..j])|;
      assert j > 0;
      assert k - n == |FramedAll(tail[..j - 1])|;
    }
    if Boundary(tail, k - n) {
      var j :| 0 <= j <= |tail| && k - n == |FramedAll(tail[..j])|;
      assert k == |FramedAll(frames[..j + 1])|;
    }
  }

  lemma NoBoundaryInside(frames: seq<seq<byte>>, k: nat)
    requires frames != [] && k < |Framed(frames[0])|
    ensures Boundary(frames, k) <==> k == 0
  {
    assert frames[..0] == [];
    if Boundary(frames, k) {
      var j :| 0 <= j <= |frames| && k == |FramedAll(frames[..j])|;
      if j > 0 {
        assert frames[..j][0] == frames[0];
      }
    }
  }

  lemma CutInside(data: seq<byte>, k: nat)
    requires Fits(data) && 0 < k < |Framed(data)|
    ensures ReadOne(Framed(data)[..k]) == Fail(Truncated)
  {
    Widths();
    DecodeEncode(|data|, PREFIX);
    var s := Framed(data)[..k];
    if k >= PREFIX {
      assert s[..PREFIX] == BigEndian(|data|, PREFIX);
    }
  }

  /**
   * Reading any sequence of frames cut off after any number of bytes gives the frames that arrived
   * whole, and an orderly end exactly when the cut is on a frame boundary. Uncut, it gives them all.
   */
  lemma {:induction false} TruncatedStream(frames: seq<seq<byte>>, k: nat)
    requires AllFit(frames) && k <= |FramedAll(frames)|
    ensures ReadAll(FramedAll(frames)[..k])
         == Contents(frames[..Whole(frames, k)], if Boundary(frames, k) then None else Some(Truncated))
    ensures k == |FramedAll(frames)| ==> Whole(frames, k) == |frames| && Boundary(frames, k)
  {
    var wire := FramedAll(frames);
    if frames == [] {
      assert frames[..0] == [] && wire[..k] == [];
    } else {
      var head, tail := Framed(frames[0]), frames[1..];
      if k < |head| {
        NoBoundaryInside(frames, k);
        assert wire[..k] == head[..k];
        if k > 0 {
          CutInside(frames[0], k);
        }
      } else {
        BoundaryStep(frames, k);
        TruncatedStream(tail, k - |head|);
        assert wire[..k] == head + FramedAll(tail)[..k - |head|];
        ReadFramed(frames[0], FramedAll(tail)[..k - |head|]);
        assert frames[..Whole(frames, k)] == [frames[0]] + tail[..Whole(tail, k - |head|)];
      }
    }
  }

  // ----- the operations on a stream

  class SendStream {
    var written: seq<byte>

    constructor ()
      ensures written == []
    {
      written := [];
    }

    method WriteFrame(data: seq<byte>) returns (r: Result<(), FrameError>)
      modifies this
      ensures Fits(data) ==> r == Ok(()) && written == old(written) + Framed(data)
      ensures Fits(data) ==> written == old(written) + BigEndian(|data|, 4) + data
      ensures !Fits(data) ==> r == Err(FrameTooLarge) && written == old(written)
    {
      if |data| > MAX_FRAME {
        return Err(FrameTooLarge);
      }
      written := written + BigEndian(|data|, PREFIX);
      written := written + data;
      assert written == old(written) + Framed(data);
      r := Ok(());
    }
  }

  class RecvStream {
    const bytes: seq<byte>
    var pos: nat

    ghost predicate Valid()
      reads this
    {
      pos <= |bytes|
    }

    constructor (bytes: seq<byte>)
      ensures Valid() && this.bytes == bytes && pos == 0
    {
      this.bytes, pos := bytes, 0;
    }

    /** After an error the stream is not read again; the position is then left at its end. */
    method ReadFrame() returns (r: Result<Option<seq<byte>>, FrameError>)
      requires Valid()
      modifies this
      ensures Valid()
      ensures match ReadOne(bytes[old(pos)..])
              case End => r == Ok(None) && pos == old(pos)
              case Fail(e) => r == Err(e) && pos == |bytes|
              case Frame(data, rest) => r == Ok(Some(data)) && bytes[pos..] == rest && pos > old(pos)
    {
      ghost var left := bytes[pos..];
      if pos == |bytes| {
        return Ok(None);
      }
      if |bytes| - pos < PREFIX {
        pos := |bytes|;
        return Err(Truncated);
      }
      assert bytes[pos..pos + PREFIX] == left[..PREFIX];
      var len := FromBigEndian(bytes[pos..pos + PREFIX]);
      if len > MAX_FRAME {
        pos := |bytes|;
        return Err(Oversized);
      }
      pos := pos + PREFIX;
      if |bytes| - pos < len {
        pos := |bytes|;
        return Err(Truncated);
      }
      r := Ok(Some(bytes[pos..pos + len]));
      assert bytes[pos..pos + len] == left[PREFIX..PREFIX + len];
      pos := pos + len;
      assert bytes[pos..] == left[PREFIX + len..];
    }
  }
}
