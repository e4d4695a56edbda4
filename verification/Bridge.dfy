/**
 * The TCP bridge's two loops: one reads a socket, seals chunks and frames them, the other reads frames and
 * writes to the socket.
 */
module Bridge {
  import opened Prelude
  import opened Bytes
  import opened Cipher
  import opened Frames

  const MAX_CHUNK := 16384

  /** A chunk read from a socket and its ciphertext. Chunk `k` of a direction is sealed at nonce `first + k`. */
  datatype Sealed = Sealed(plain: seq<byte>, cipher: seq<byte>)

  predicate IsChunk(data: seq<byte>) {
    1 <= |data| <= MAX_CHUNK
  }

  predicate Proper(x: Sealed) {
    IsChunk(x.plain) && |x.cipher| == |x.plain| + TAG
  }

  predicate AllProper(sealed: seq<Sealed>) {
    forall i | 0 <= i < |sealed| :: Proper(sealed[i])
  }

  function Plains(sealed: seq<Sealed>): (r: seq<seq<byte>>)
    ensures |r| == |sealed|
  {
    seq(|sealed|, i requires 0 <= i < |sealed| => sealed[i].plain)
  }

  function Ciphers(sealed: seq<Sealed>): (r: seq<seq<byte>>)
    ensures |r| == |sealed|
  {
    seq(|sealed|, i requires 0 <= i < |sealed| => sealed[i].cipher)
  }

  /** The ideal cipher: at each nonce exactly the ciphertext sealed there opens, to what was sealed. */
  function IdealDecrypt(first: nat, sealed: seq<Sealed>): Decrypt {
    (n: nat, cipher: seq<byte>) =>
      if first <= n && n - first < |sealed| && sealed[n - first].cipher == cipher
      then Some(sealed[n - first].plain) else None
  }

  lemma CiphersFit(sealed: seq<Sealed>)
    requires AllProper(sealed)
    ensures AllFit(Ciphers(sealed))
  {
  }

  // ----- the two loops

  /** A chunk sealed at nonce `n`; where the cipher refuses it there is no ciphertext. */
  function SealOne(encrypt: Encrypt, n: nat, chunk: seq<byte>): Sealed {
    var cipher := encrypt(n, chunk);
    Sealed(chunk, if cipher.Some? then cipher.value else [])
  }

  /** Chunks sealed in order from nonce `first`. */
  function SealAll(encrypt: Encrypt, first: nat, chunks: seq<seq<byte>>): (r: seq<Sealed>)
    ensures |r| == |chunks|
  {
    seq(|chunks|, i requires 0 <= i < |chunks| => SealOne(encrypt, first + i, chunks[i]))
  }

  /** Chunk `i`, as it was read, is sealed `i`-th, at its own nonce. */
  lemma SealedInOrder(encrypt: Encrypt, first: nat, chunks: seq<seq<byte>>)
    requires Seals(encrypt, MAX_CHUNK) && forall i | 0 <= i < |chunks| :: IsChunk(chunks[i])
    ensures AllProper(SealAll(encrypt, first, chunks)) && Plains(SealAll(encrypt, first, chunks)) == chunks
    ensures forall i | 0 <= i < |chunks| ::
              encrypt(first + i, chunks[i]) == Some(Ciphers(SealAll(encrypt, first, chunks))[i])
  {
    forall i | 0 <= i < |chunks|
      ensures Proper(SealAll(encrypt, first, chunks)[i])
      ensures encrypt(first + i, chunks[i]) == Some(Ciphers(SealAll(encrypt, first, chunks))[i])
    {
      var chunk := chunks[i];
      assert IsChunk(chunk) && encrypt(first + i, chunk).Some?;
    }
  }

  datatype SendFailure = NotSealed | NotFramed

  /**
   * The sending loop: each chunk read from the socket becomes one frame. No chunk is too large for a
   * frame, so the loop reaches the end of its input.
   */
  method Transmit(send: SendStream, chunks: seq<seq<byte>>, first: nat, encrypt: Encrypt)
    returns (r: Result<(), SendFailure>)
    requires Seals(encrypt, MAX_CHUNK) && forall i | 0 <= i < |chunks| :: IsChunk(chunks[i])
    modifies send
    ensures r == Ok(())
    ensures AllProper(SealAll(encrypt, first, chunks)) && Plains(SealAll(encrypt, first, chunks)) == chunks
    ensures send.written == old(send.written) + FramedAll(Ciphers(SealAll(encrypt, first, chunks)))
  {
    SealedInOrder(encrypt, first, chunks);
    ghost var all := Ciphers(SealAll(encrypt, first, chunks));
    for i := 0 to |chunks|
      invariant send.written == old(send.written) + FramedAll(all[..i])
    {
      var cipher := encrypt(first + i, chunks[i]);
      if cipher.None? {
        return Err(NotSealed);
      }
      var w := send.WriteFrame(cipher.value);
      if w.Err? {
        return Err(NotFramed);
      }
      FramedAllSnoc(all[..i], all[i]);
      assert all[..i] + [all[i]] == all[..i + 1];
    }
    assert all[..|chunks|] == all;
    r := Ok(());
  }

  lemma {:induction false} FramedAllSplit(a: seq<seq<byte>>, b: seq<seq<byte>>)
    ensures FramedAll(a + b) == FramedAll(a) + FramedAll(b)
  {
    if a == [] {
      assert a + b == b;
    } else {
      FramedAllSplit(a[1..], b);
      assert (a + b)[1..] == a[1..] + b;
    }
  }

  lemma FramedAllSnoc(frames: seq<seq<byte>>, data: seq<byte>)
    ensures FramedAll(frames + [data]) == FramedAll(frames) + Framed(data)
  {
    FramedAllSplit(frames, [data]);
    assert [data][1..] == [];
  }

  /** The plaintexts of a sequence of frames, up to the first that is not authentic. */
  datatype Played = Played(plains: seq<seq<byte>>, authentic: bool)

  function Play(decrypt: Decrypt, n: nat, frames: seq<seq<byte>>): Played
    decreases |frames|
  {
    if frames == [] then Played([], true)
    else match decrypt(n, frames[0])
      case None => Played([], false)
      case Some(plain) =>
        var tail := Play(decrypt, n + 1, frames[1..]);
        Played([plain] + tail.plains, tail.authentic)
  }

  datatype Outcome = ShutDown | Broken(error: FrameError) | NotAuthentic

  datatype Reception = Reception(written: seq<byte>, outcome: Outcome)

  /** What the receiving loop writes, and how it stops, on the bytes of a whole stream. */
  function Received(decrypt: Decrypt, n: nat, s: seq<byte>): Reception {
    var all := ReadAll(s);
    var played := Play(decrypt, n, all.frames);
    Reception(Concat(played.plains),
              if !played.authentic then NotAuthentic
              else if all.error.Some? then Broken(all.error.value) else ShutDown)
  }

  lemma ReceivedStep(decrypt: Decrypt, n: nat, s: seq<byte>)
    ensures match ReadOne(s)
            case End => Received(decrypt, n, s) == Reception([], ShutDown)
            case Fail(e) => Received(decrypt, n, s) == Reception([], Broken(e))
            case Frame(data, rest) =>
              match decrypt(n, data)
              case None => Received(decrypt, n, s) == Reception([], NotAuthentic)
              case Some(plain) =>
                var left := Received(decrypt, n + 1, rest);
                Received(decrypt, n, s) == Reception(plain + left.written, left.outcome)
  {
    var r := ReadOne(s);
    if r.Frame? {
      var frames := ReadAll(s).frames;
      assert frames[0] == r.data && frames[1..] == ReadAll(r.rest).frames;
      if decrypt(n, r.data).Some? {
        var plains := Play(decrypt, n, frames).plains;
        assert plains[1..] == Play(decrypt, n + 1, frames[1..]).plains;
      }
    }
  }

  /** The receiving loop on the bytes of a whole stream. */
  method Receive(recv: RecvStream, first: nat, decrypt: Decrypt) returns (output: seq<byte>, end: Outcome)
    requires recv.Valid()
    modifies recv
    ensures Reception(output, end) == Received(decrypt, first, recv.bytes[old(recv.pos)..])
  {
    hide Received;
    output := [];
    var n := first;
    assert forall x: seq<byte> :: output + x == x;
    while true
      invariant recv.Valid()
      invariant var left := Received(decrypt, n, recv.bytes[recv.pos..]);
                Received(decrypt, first, recv.bytes[old(recv.pos)..]) == Reception(output + left.written, left.outcome)
      decreases |recv.bytes| - recv.pos
    {
      ReceivedStep(decrypt, n, recv.bytes[recv.pos..]);
      var r := recv.ReadFrame();
      assert output + [] == output;
      match r {
        case Err(e) => return output, Broken(e);
        case Ok(None) => return output, ShutDown;
        case Ok(Some(cipher)) =>
          var plain := decrypt(n, cipher);
          if plain.None? {
            return output, NotAuthentic;
          }
          ghost var rest := Received(decrypt, n + 1, recv.bytes[recv.pos..]).written;
          assert output + (plain.value + rest) == output + plain.value + rest;
          output := output + plain.value;
          n := n + 1;
      }
    }
  }

  // ----- what the receiving loop makes of a stream

  lemma {:induction false} PlaysInOrder(first: nat, sealed: seq<Sealed>, frames: seq<seq<byte>>, k: nat)
    requires k <= |sealed|
    ensures var played := Play(IdealDecrypt(first, sealed), first + k, frames).plains;
            k + |played| <= |sealed| && played == Plains(sealed)[k..k + |played|]
    decreases |frames|
  {
    var decrypt := IdealDecrypt(first, sealed);
    if frames != [] && decrypt(first + k, frames[0]).Some? {
      PlaysInOrder(first, sealed, frames[1..], k + 1);
      var played := Play(decrypt, first + k, frames).plains;
      assert played == [sealed[k].plain] + Plains(sealed)[k + 1..k + |played|];
    }
  }

  // ----- the two loops joined

  /** What is sealed at a nonce opens at that nonce to what it was. */
  ghost predicate Inverts(decrypt: Decrypt, encrypt: Encrypt) {
    forall n: nat, plain: seq<byte> | encrypt(n, plain).Some? :: decrypt(n, encrypt(n, plain).value) == Some(plain)
  }

  lemma {:induction false} PlaysWhatWasSealed(encrypt: Encrypt, decrypt: Decrypt, n: nat, chunks: seq<seq<byte>>,
                                              ciphers: seq<seq<byte>>)
    requires Inverts(decrypt, encrypt) && |ciphers| == |chunks|
    requires forall i | 0 <= i < |chunks| :: encrypt(n + i, chunks[i]) == Some(ciphers[i])
    ensures Play(decrypt, n, ciphers) == Played(chunks, true)
    decreases |chunks|
  {
    if chunks != [] {
      var chunk, cipher := chunks[0], ciphers[0];
      assert encrypt(n + 0, chunk) == Some(cipher);
      forall i | 0 <= i < |chunks| - 1
        ensures encrypt(n + 1 + i, chunks[1..][i]) == Some(ciphers[1..][i])
      {
        assert encrypt(n + (i + 1), chunks[i + 1]) == Some(ciphers[i + 1]);
      }
      PlaysWhatWasSealed(encrypt, decrypt, n + 1, chunks[1..], ciphers[1..]);
      assert [chunk] + chunks[1..] == chunks;
    }
  }

  lemma WholeStream(frames: seq<seq<byte>>)
    requires AllFit(frames)
    ensures ReadAll(FramedAll(frames)) == Contents(frames, None)
  {
    var n := |FramedAll(frames)|;
    TruncatedStream(frames, n);
    assert FramedAll(frames)[..n] == FramedAll(frames) && frames[..|frames|] == frames;
  }

  /** With any cipher pair that fits together, what the sending loop frames is received in full and in order. */
  lemma LoopsAgree(encrypt: Encrypt, decrypt: Decrypt, first: nat, chunks: seq<seq<byte>>)
    requires Seals(encrypt, MAX_CHUNK) && Inverts(decrypt, encrypt)
    requires forall i | 0 <= i < |chunks| :: IsChunk(chunks[i])
    ensures Received(decrypt, first, FramedAll(Ciphers(SealAll(encrypt, first, chunks))))
         == Reception(Concat(chunks), ShutDown)
  {
    hide SealAll, Ciphers, Plains, FramedAll, ReadAll, Play, Concat, Seals;
    var sealed := SealAll(encrypt, first, chunks);
    SealedInOrder(encrypt, first, chunks);
    CiphersFit(sealed);
    WholeStream(Ciphers(sealed));
    PlaysWhatWasSealed(encrypt, decrypt, first, chunks, Ciphers(sealed));
  }

  /** One direction of a bridge from end to end: what was read is what is written, and the end is passed on. */
  method Relay(chunks: seq<seq<byte>>, first: nat, encrypt: Encrypt, decrypt: Decrypt)
    returns (output: seq<byte>, end: Outcome)
    requires Seals(encrypt, MAX_CHUNK) && Inverts(decrypt, encrypt)
    requires forall i | 0 <= i < |chunks| :: IsChunk(chunks[i])
    ensures output == Concat(chunks) && end == ShutDown
  {
    hide Received, SealAll, FramedAll, Seals, Inverts;
    var send := new SendStream();
    var sent := Transmit(send, chunks, first, encrypt);
    LoopsAgree(encrypt, decrypt, first, chunks);
    var recv := new RecvStream(send.written);
    assert recv.bytes[0..] == FramedAll(Ciphers(SealAll(encrypt, first, chunks)));
    output, end := Receive(recv, first, decrypt);
  }

  // ----- how the receiving loop ends

  /** Frames up to `k` all open, in order from nonce `n`. */
  ghost predicate Authentic(decrypt: Decrypt, n: nat, frames: seq<seq<byte>>, k: nat)
    requires k <= |frames|
  {
    forall i | 0 <= i < k :: decrypt(n + i, frames[i]).Some?
  }

  lemma {:induction false} PlayEndsExactly(decrypt: Decrypt, n: nat, frames: seq<seq<byte>>)
    ensures var played := Play(decrypt, n, frames); var k := |played.plains|;
            && k <= |frames| && Authentic(decrypt, n, frames, k) && (played.authentic <==> k == |frames|)
            && (k < |frames| ==> decrypt(n + k, frames[k]).None?)
            && forall i | 0 <= i < k :: decrypt(n + i, frames[i]) == Some(played.plains[i])
    decreases |frames|
  {
    if frames != [] && decrypt(n, frames[0]).Some? {
      PlayEndsExactly(decrypt, n + 1, frames[1..]);
      var played := Play(decrypt, n, frames);
      forall i | 0 <= i < |played.plains|
        ensures decrypt(n + i, frames[i]) == Some(played.plains[i])
      {
        if i > 0 {
          assert decrypt(n + 1 + (i - 1), frames[1..][i - 1]) == Some(played.plains[1..][i - 1]);
          assert n + 1 + (i - 1) == n + i;
        }
      }
      if |played.plains| < |frames| {
        assert n + 1 + (|played.plains| - 1) == n + |played.plains|;
      }
    }
  }

  /**
   * On any bytes and with any cipher the loop ends in order exactly if the bytes are a concatenation of
   * frames that all open; a frame that does not open ends it there, before any framing error behind it.
   */
  lemma EndsExactly(decrypt: Decrypt, n: nat, s: seq<byte>)
    ensures var frames, end := ReadAll(s).frames, Received(decrypt, n, s).outcome;
            && (end == ShutDown <==> s == FramedAll(frames) && Authentic(decrypt, n, frames, |frames|))
            && (end == NotAuthentic <==> !Authentic(decrypt, n, frames, |frames|))
  {
    hide FramedAll, Play;
    OrderlyExactly(s);
    PlayEndsExactly(decrypt, n, ReadAll(s).frames);
  }

  lemma {:induction false} ConcatPrefix(chunks: seq<seq<byte>>, k: nat)
    requires k <= |chunks|
    ensures Concat(chunks[..k]) <= Concat(chunks)
    decreases k
  {
    if k > 0 {
      ConcatPrefix(chunks[1..], k - 1);
      assert chunks[..k][1..] == chunks[1..][..k - 1];
    }
  }

  /**
   * Whatever bytes the receiver is given, forged, cut or reordered, what it writes to its socket is a
   * prefix of what the sender read from the other.
   */
  lemma PrefixOnAnyBytes(first: nat, sealed: seq<Sealed>, s: seq<byte>)
    ensures Received(IdealDecrypt(first, sealed), first, s).written <= Concat(Plains(sealed))
  {
    var frames := ReadAll(s).frames;
    PlaysInOrder(first, sealed, frames, 0);
    var k := |Play(IdealDecrypt(first, sealed), first, frames).plains|;
    assert Plains(sealed)[0..k] == Plains(sealed)[..k];
    ConcatPrefix(Plains(sealed), k);
  }

  lemma {:induction false} PlayOwn(first: nat, sealed: seq<Sealed>, k: nat, n: nat)
    requires k <= n <= |sealed|
    ensures Play(IdealDecrypt(first, sealed), first + k, Ciphers(sealed)[k..n]) == Played(Plains(sealed)[k..n], true)
    decreases n - k
  {
    if k < n {
      PlayOwn(first, sealed, k + 1, n);
      assert Ciphers(sealed)[k..n][1..] == Ciphers(sealed)[k + 1..n];
      assert Plains(sealed)[k..n] == [sealed[k].plain] + Plains(sealed)[k + 1..n];
    }
  }

  /**
   * With the same cipher, after any `k` bytes of the sender's own stream the receiver has written exactly
   * the chunks whose frames are whole; a stream that ends there ends in order exactly on a frame boundary.
   */
  lemma WrittenAfter(first: nat, sealed: seq<Sealed>, k: nat)
    requires AllProper(sealed) && k <= |FramedAll(Ciphers(sealed))|
    ensures var all := Ciphers(sealed);
            Received(IdealDecrypt(first, sealed), first, FramedAll(all)[..k])
            == Reception(Concat(Plains(sealed)[..Whole(all, k)]),
                         if Boundary(all, k) then ShutDown else Broken(Truncated))
  {
    var all := Ciphers(sealed);
    var w := Whole(all, k);
    CiphersFit(sealed);
    TruncatedStream(all, k);
    PlayOwn(first, sealed, 0, w);
    assert all[0..w] == all[..w] && Plains(sealed)[0..w] == Plains(sealed)[..w];
  }
}
