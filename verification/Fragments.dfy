/** The fragment format: header fields, the sizes of a message's parts, cutting and joining. */
module Fragments {
  import opened Prelude
  import opened Bytes

  const CHUNK := 1000
  const MAX_PAYLOAD := 65507
  const HEADER := 22

  /** Fragments of a message of the given length: at least one, even for an empty payload. */
  function Count(length: nat): (c: nat)
    ensures c >= 1 && length <= c * CHUNK
    ensures c > 1 ==> (c - 1) * CHUNK < length
  {
    if length == 0 then 1 else (length + CHUNK - 1) / CHUNK
  }

  /** Octets that fragment `i` must carry. */
  function PartSize(length: nat, i: nat): (n: nat)
    requires i < Count(length)
    ensures n <= CHUNK && i * CHUNK + n == Min((i + 1) * CHUNK, length)
  {
    Min(length - i * CHUNK, CHUNK)
  }

  datatype Fragment = Fragment(service: u16, flow: u64, message: u64, length: u16, index: u16, body: seq<byte>)

  datatype PushError = ShortFragment | InvalidLength | InvalidIndex | InvalidFragmentLength | Inconsistent

  predicate WellFormed(f: Fragment) {
    && f.length <= MAX_PAYLOAD
    && f.index < Count(f.length)
    && |f.body| == PartSize(f.length, f.index)
  }

  // ----- wire format

  function Encode(f: Fragment): (p: seq<byte>)
    ensures |p| == HEADER + |f.body|
  {
    BigEndian(f.service, 2) + BigEndian(f.flow, 8) + BigEndian(f.message, 8)
    + BigEndian(f.length, 2) + BigEndian(f.index, 2) + f.body
  }

  function Decode(p: seq<byte>): Fragment
    requires |p| >= HEADER
  {
    Widths();
    Fragment(FromBigEndian(p[..2]), FromBigEndian(p[2..10]), FromBigEndian(p[10..18]),
             FromBigEndian(p[18..20]), FromBigEndian(p[20..22]), p[22..])
  }

  /** The checks made on a plaintext before the reassembler looks at its state. */
  function Parse(p: seq<byte>): (r: Result<Fragment, PushError>) {
    if |p| < HEADER then Err(ShortFragment)
    else
      var f := Decode(p);
      if f.length > MAX_PAYLOAD then Err(InvalidLength)
      else if f.index >= Count(f.length) then Err(InvalidIndex)
      else if |f.body| != PartSize(f.length, f.index) then Err(InvalidFragmentLength)
      else Ok(f)
  }

  lemma Fields(a: seq<byte>, b: seq<byte>, c: seq<byte>, d: seq<byte>, e: seq<byte>, body: seq<byte>)
    requires |a| == 2 && |b| == 8 && |c| == 8 && |d| == 2 && |e| == 2
    ensures var p := a + b + c + d + e + body;
            && p[..2] == a && p[2..10] == b && p[10..18] == c && p[18..20] == d && p[20..22] == e && p[22..] == body
  {
  }

  lemma DecodeInvertsEncode(f: Fragment)
    ensures Decode(Encode(f)) == f
  {
    hide BigEndian, FromBigEndian, Pow256;
    Widths();
    DecodeEncode(f.service, 2);
    DecodeEncode(f.flow, 8);
    DecodeEncode(f.message, 8);
    DecodeEncode(f.length, 2);
    DecodeEncode(f.index, 2);
    Fields(BigEndian(f.service, 2), BigEndian(f.flow, 8), BigEndian(f.message, 8),
           BigEndian(f.length, 2), BigEndian(f.index, 2), f.body);
  }

  /** Where each field of the header is: service, flow, message, length, index, each most significant octet first. */
  lemma HeaderLayout(f: Fragment)
    ensures var p := Encode(f);
            && FromBigEndian(p[0..2]) == f.service && FromBigEndian(p[2..10]) == f.flow
            && FromBigEndian(p[10..18]) == f.message && FromBigEndian(p[18..20]) == f.length
            && FromBigEndian(p[20..22]) == f.index && p[22..] == f.body
  {
    hide BigEndian, FromBigEndian, Encode;
    DecodeInvertsEncode(f);
    assert Encode(f)[0..2] == Encode(f)[..2];
  }

  lemma EncodeInvertsDecode(p: seq<byte>)
    requires |p| >= HEADER
    ensures Encode(Decode(p)) == p
  {
    hide BigEndian, FromBigEndian, Pow256;
    Widths();
    EncodeDecode(p[..2]);
    EncodeDecode(p[2..10]);
    EncodeDecode(p[10..18]);
    EncodeDecode(p[18..20]);
    EncodeDecode(p[20..22]);
    assert p == p[..2] + p[2..10] + p[10..18] + p[18..20] + p[20..22] + p[22..];
  }

  /** The wire format is exact: plaintexts that pass the checks are the encodings of well-formed fragments. */
  lemma ParseExact(p: seq<byte>, f: Fragment)
    ensures Parse(p) == Ok(f) <==> WellFormed(f) && p == Encode(f)
  {
    hide Encode, Decode;
    if |p| >= HEADER {
      EncodeInvertsDecode(p);
    }
    DecodeInvertsEncode(f);
  }

  /** What is wrong with a plaintext that is refused: too short, or the first check its fragment fails. */
  lemma RefusedFor(p: seq<byte>, f: Fragment)
    ensures |p| < HEADER ==> Parse(p) == Err(ShortFragment)
    ensures p == Encode(f) && !WellFormed(f) ==>
              Parse(p) == Err(if f.length > MAX_PAYLOAD then InvalidLength
                              else if f.index >= Count(f.length) then InvalidIndex
                              else InvalidFragmentLength)
  {
    hide Encode, Decode;
    DecodeInvertsEncode(f);
  }

  // ----- cutting and joining

  function Body(payload: seq<byte>, i: nat): (b: seq<byte>)
    requires i < Count(|payload|)
    ensures |b| == PartSize(|payload|, i)
  {
    payload[i * CHUNK..Min((i + 1) * CHUNK, |payload|)]
  }

  function Bodies(payload: seq<byte>): (bodies: seq<seq<byte>>)
    ensures |bodies| == Count(|payload|)
  {
    seq(Count(|payload|), i requires 0 <= i < Count(|payload|) => Body(payload, i))
  }

  predicate ExactSizes(parts: seq<seq<byte>>, length: nat) {
    |parts| == Count(length) && forall i | 0 <= i < |parts| :: |parts[i]| == PartSize(length, i)
  }

  lemma {:induction false} JoinPrefix(payload: seq<byte>, k: nat)
    requires k <= Count(|payload|)
    ensures Concat(Bodies(payload)[..k]) == payload[..Min(k * CHUNK, |payload|)]
  {
    if k > 0 {
      JoinPrefix(payload, k - 1);
      assert Bodies(payload)[..k] == Bodies(payload)[..k - 1] + [Body(payload, k - 1)];
      ConcatSnoc(Bodies(payload)[..k - 1], Body(payload, k - 1));
    }
  }

  /** Joining the parts a payload is cut into gives the payload back. */
  lemma JoinInvertsCut(payload: seq<byte>)
    ensures Concat(Bodies(payload)) == payload
  {
    JoinPrefix(payload, Count(|payload|));
    assert Bodies(payload)[..Count(|payload|)] == Bodies(payload);
  }

  lemma {:induction false} PartAt(parts: seq<seq<byte>>, length: nat, k: nat, i: nat)
    requires ExactSizes(parts, length) && i < k <= |parts|
    ensures |Concat(parts[..k])| == Min(k * CHUNK, length)
    ensures Concat(parts[..k])[i * CHUNK..Min((i + 1) * CHUNK, length)] == parts[i]
  {
    assert parts[..k] == parts[..k - 1] + [parts[k - 1]];
    ConcatSnoc(parts[..k - 1], parts[k - 1]);
    if k > 1 {
      PartAt(parts, length, k - 1, if i < k - 1 then i else 0);
    }
  }

  /** Parts of the required sizes are what the message they join to is cut into. */
  lemma CutInvertsJoin(parts: seq<seq<byte>>, length: nat)
    requires ExactSizes(parts, length)
    ensures |Concat(parts)| == length && Bodies(Concat(parts)) == parts
  {
    assert parts[..|parts|] == parts;
    forall i | 0 <= i < |parts|
      ensures |Concat(parts)| == length && Body(Concat(parts), i) == parts[i]
    {
      PartAt(parts, length, |parts|, i);
    }
    assert |Concat(parts)| == length by { PartAt(parts, length, |parts|, 0); }
  }

  /** One call of `send`: its arguments and the message ID it was given. */
  datatype Message = Message(id: u64, service: u16, flow: u64, payload: seq<byte>)

  predicate Sendable(m: Message) {
    |m.payload| <= MAX_PAYLOAD
  }

  function Parts(m: Message): (c: nat)
    ensures c >= 1
  {
    Count(|m.payload|)
  }

  /** Fragment `i` of a message. */
  function Cut(m: Message, i: nat): (f: Fragment)
    requires Sendable(m) && i < Parts(m)
    ensures WellFormed(f)
  {
    Fragment(m.service, m.flow, m.id, |m.payload|, i, Body(m.payload, i))
  }
}
