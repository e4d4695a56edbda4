/** Sealing and opening of datagrams with explicit nonces. */
module Crypto {
  import opened Prelude
  import opened Bytes
  import opened Cipher
  import opened Replay

  /** Nonces one key may spend. */
  const BUDGET := 0x1_0000_0000
  const NONCE := 8

  datatype CryptoError = BudgetExhausted | EncryptFailed | ShortDatagram | ReplayedOrStale | NotAuthentic

  function NonceOf(datagram: seq<byte>): nat
    requires |datagram| >= NONCE
  {
    FromBigEndian(datagram[..NONCE])
  }

  /** What `open` decides for a datagram, given every nonce opened before it. */
  ghost function Opened(history: set<nat>, decrypt: Decrypt, datagram: seq<byte>)
    : (r: Result<seq<byte>, CryptoError>)
  {
    if |datagram| < NONCE + TAG then Err(ShortDatagram)
    else
      var n := NonceOf(datagram);
      if !(n < BUDGET && Fresh(history, n)) then Err(ReplayedOrStale)
      else match decrypt(n, datagram[NONCE..])
        case None => Err(NotAuthentic)
        case Some(plain) => Ok(plain)
  }

  /** What `seal` returns when `next` nonces have been spent. */
  function SealedAt(next: nat, encrypt: Encrypt, plain: seq<byte>): (r: Result<seq<byte>, CryptoError>) {
    if next >= BUDGET then Err(BudgetExhausted)
    else match encrypt(next, plain)
      case None => Err(EncryptFailed)
      case Some(cipher) => Ok(BigEndian(next, NONCE) + cipher)
  }

  class DatagramCrypto {
    var next: nat
    const replay: ReplayWindow

    ghost predicate Valid()
      reads this, replay, replay.seen
    {
      next <= BUDGET && replay.Valid()
    }

    constructor ()
      ensures Valid() && next == 0 && replay.history == {}
      ensures fresh(replay) && fresh(replay.seen)
    {
      next := 0;
      replay := new ReplayWindow();
    }

    /**
     * Nonces are handed out in order and never wrap: past the budget nothing is sealed. A nonce whose
     * encryption fails is spent.
     */
    method Seal(plain: seq<byte>, encrypt: Encrypt) returns (r: Result<seq<byte>, CryptoError>)
      requires Valid()
      modifies this
      ensures Valid()
      ensures r == SealedAt(old(next), encrypt, plain)
      ensures r.Ok? <==> old(next) < BUDGET && encrypt(old(next), plain).Some?
      ensures r.Ok? ==>
                && |r.value| >= NONCE && NonceOf(r.value) == old(next)
                && encrypt(old(next), plain) == Some(r.value[NONCE..])
      ensures r.Err? ==> r.error == if old(next) < BUDGET then EncryptFailed else BudgetExhausted
      ensures next == old(next) + if old(next) < BUDGET then 1 else 0
    {
      if next >= BUDGET {
        return Err(BudgetExhausted);
      }
      var nonce := next;
      next := next + 1;
      match encrypt(nonce, plain) {
        case None => r := Err(EncryptFailed);
        case Some(cipher) =>
          NonceReadsBack(nonce, cipher);
          r := Ok(BigEndian(nonce, NONCE) + cipher);
      }
    }

    /** The history grows by the nonce of an authentic datagram, and by nothing on any failure. */
    method Open(datagram: seq<byte>, decrypt: Decrypt) returns (r: Result<seq<byte>, CryptoError>)
      requires Valid()
      modifies replay, replay.seen
      ensures Valid()
      ensures r == Opened(old(replay.history), decrypt, datagram)
      ensures r.Ok? <==> && |datagram| >= NONCE + TAG && NonceOf(datagram) < BUDGET
                         && Fresh(old(replay.history), NonceOf(datagram))
                         && decrypt(NonceOf(datagram), datagram[NONCE..]).Some?
      ensures r.Ok? ==> decrypt(NonceOf(datagram), datagram[NONCE..]) == Some(r.value)
      ensures replay.history == old(replay.history) + if r.Ok? then {NonceOf(datagram)} else {}
    {
      if |datagram| < NONCE + TAG {
        return Err(ShortDatagram);
      }
      var n := NonceOf(datagram);
      var ok := replay.Acceptable(n);
      if !(n < BUDGET && ok) {
        return Err(ReplayedOrStale);
      }
      match decrypt(n, datagram[NONCE..]) {
        case None => r := Err(NotAuthentic);
        case Some(plain) =>
          replay.Record(n);
          r := Ok(plain);
      }
    }
  }

  /** The nonce in front of a sealed datagram reads back as the one it was sealed with. */
  lemma NonceReadsBack(n: nat, cipher: seq<byte>)
    requires n < BUDGET
    ensures NonceOf(BigEndian(n, NONCE) + cipher) == n
    ensures (BigEndian(n, NONCE) + cipher)[NONCE..] == cipher
  {
    Widths();
    DecodeEncode(n, NONCE);
    assert (BigEndian(n, NONCE) + cipher)[..NONCE] == BigEndian(n, NONCE);
  }
}
