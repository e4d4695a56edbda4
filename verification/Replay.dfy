/**
 * The anti-replay window of the datagram channel: a ring of 1024 bits that stands for the unbounded
 * set of nonces opened so far.
 */
module Replay {
  import opened Prelude
  import opened Bits

  const WINDOW := 1024
  const WORDS := 16

  /**
   * What the window has to decide, stated on the whole history: `n` was never opened, and no opened
   * nonce is 1024 or more ahead of it.
   */
  ghost predicate Fresh(history: set<nat>, n: nat) {
    n !in history && forall x | x in history :: x - n < WINDOW
  }

  // ----- the ring

  function Word(n: nat): (k: nat)
    ensures k < WORDS
  {
    n % WINDOW / 64
  }

  predicate Marked(seen: seq<nat>, n: nat)
    requires |seen| == WORDS
  {
    And(seen[Word(n)], Pow2(n % 64)) != 0
  }

  lemma Remainder(a: nat, b: nat)
    requires b < 64
    ensures (64 * a + b) % 64 == b
  {
  }

  lemma Slot(n: nat)
    ensures n % WINDOW == 64 * Word(n) + n % 64
  {
    var q, r := n / WINDOW, n % WINDOW;
    assert n == WINDOW * q + r && r == 64 * Word(n) + r % 64;
    Remainder(16 * q + Word(n), r % 64);
  }

  /** Two nonces share a bit of the ring exactly when they agree modulo 1024. */
  lemma SameSlot(m: nat, n: nat)
    ensures m % WINDOW == n % WINDOW <==> Word(m) == Word(n) && m % 64 == n % 64
  {
    Slot(m);
    Slot(n);
  }

  lemma MarkOne(seen: seq<nat>, n: nat, x: nat)
    requires |seen| == WORDS
    ensures Marked(seen[Word(n) := Or(seen[Word(n)], Pow2(n % 64))], x)
       <==> x % WINDOW == n % WINDOW || Marked(seen, x)
  {
    SameSlot(x, n);
    TestAfterSet(seen[Word(n)], n % 64, x % 64);
  }

  lemma ClearOne(seen: seq<nat>, n: nat, x: nat)
    requires |seen| == WORDS
    ensures Marked(seen[Word(n) := And(seen[Word(n)], Not(Pow2(n % 64)))], x)
       <==> x % WINDOW != n % WINDOW && Marked(seen, x)
  {
    SameSlot(x, n);
    TestAfterUnset(seen[Word(n)], n % 64, x % 64);
  }

  // ----- refinement

  /** The ring answers for the last 1024 nonces up to the highest one opened. */
  ghost predicate Tracks(seen: seq<nat>, h: int, history: set<nat>)
    requires |seen| == WORDS
  {
    forall x: nat | h - WINDOW < x <= h :: Marked(seen, x) <==> x in history
  }

  ghost predicate Represents(highest: Option<nat>, seen: seq<nat>, history: set<nat>) {
    && |seen| == WORDS
    && match highest {
         case None => history == {} && forall k | 0 <= k < WORDS :: seen[k] == 0
         case Some(h) => h in history && (forall x | x in history :: x <= h) && Tracks(seen, h, history)
       }
  }

  lemma SlideOne(seen: seq<nat>, x: nat, history: set<nat>)
    requires |seen| == WORDS && Tracks(seen, x - 1, history)
    requires forall y | y in history :: y < x
    ensures Tracks(seen[Word(x) := And(seen[Word(x)], Not(Pow2(x % 64)))], x, history)
  {
    var after := seen[Word(x) := And(seen[Word(x)], Not(Pow2(x % 64)))];
    forall y: nat | x - WINDOW < y <= x
      ensures Marked(after, y) <==> y in history
    {
      ClearOne(seen, x, y);
      if y % WINDOW == x % WINDOW {
        SameNonce(x, y, x);
      }
    }
  }

  lemma SameNonce(h: nat, x: nat, y: nat)
    requires h - WINDOW < x <= h && h - WINDOW < y <= h && x % WINDOW == y % WINDOW
    ensures x == y
  {
  }

  lemma MarkFresh(seen: seq<nat>, h: nat, n: nat, history: set<nat>)
    requires |seen| == WORDS && Tracks(seen, h, history)
    requires h - WINDOW < n <= h
    ensures Tracks(seen[Word(n) := Or(seen[Word(n)], Pow2(n % 64))], h, history + {n})
  {
    var after := seen[Word(n) := Or(seen[Word(n)], Pow2(n % 64))];
    forall y: nat | h - WINDOW < y <= h
      ensures Marked(after, y) <==> y in history + {n}
    {
      MarkOne(seen, n, y);
      if y % WINDOW == n % WINDOW {
        SameNonce(h, y, n);
      }
    }
  }

  class ReplayWindow {
    var highest: Option<nat>
    const seen: array<nat>
    ghost var history: set<nat>

    ghost predicate Valid()
      reads this, seen
    {
      Represents(highest, seen[..], history)
    }

    constructor ()
      ensures Valid() && history == {} && fresh(seen)
    {
      highest := None;
      seen := new nat[WORDS](_ => 0);
      history := {};
    }

    /** The ring decides freshness against the whole history. */
    method Acceptable(n: nat) returns (ok: bool)
      requires Valid()
      ensures ok <==> Fresh(history, n)
    {
      match highest {
        case None => ok := true;
        case Some(h) =>
          if n > h {
            ok := true;
          } else {
            ok := h - n < WINDOW && And(seen[Word(n)], Pow2(n % 64)) == 0;
            assert h - n < WINDOW ==> (Marked(seen[..], n) <==> n in history);
          }
      }
    }

    /** Makes room for nonces up to `n`: the slots that leave the window are emptied. */
    method Slide(h: nat, n: nat)
      requires highest == Some(h) && h < n && Valid()
      modifies seen
      ensures Tracks(seen[..], n, history)
    {
      if n - h >= WINDOW {
        for k := 0 to WORDS
          invariant forall j | 0 <= j < k :: seen[j] == 0
        {
          seen[k] := 0;
        }
        forall y: nat ensures !Marked(seen[..], y) { ZeroTest(y % 64); }
      } else {
        for x := h + 1 to n + 1
          invariant Tracks(seen[..], x - 1, history)
        {
          ghost var before := seen[..];
          seen[Word(x)] := And(seen[Word(x)], Not(Pow2(x % 64)));
          SlideOne(before, x, history);
          assert seen[..] == before[Word(x) := And(before[Word(x)], Not(Pow2(x % 64)))];
        }
      }
    }

    /** Recording an acceptable nonce adds exactly that nonce to the history. */
    method Record(n: nat)
      requires Valid() && Fresh(history, n)
      modifies this, seen
      ensures Valid() && history == old(history) + {n}
    {
      if highest.Some? && n > highest.value {
        Slide(highest.value, n);
      }
      ghost var before := seen[..];
      highest := Some(if highest.Some? && highest.value > n then highest.value else n);
      assert Tracks(before, highest.value, history) by {
        forall k: nat | k < 64 ensures And(0, Pow2(k)) == 0 { ZeroTest(k); }
      }
      MarkFresh(before, highest.value, n, history);
      seen[Word(n)] := Or(seen[Word(n)], Pow2(n % 64));
      history := history + {n};
      assert seen[..] == before[Word(n) := Or(before[Word(n)], Pow2(n % 64))];
    }
  }

  // ----- whole runs

  /** The nonces accepted before position `i` of a run. */
  ghost function AcceptedBefore(nonces: seq<nat>, accepted: seq<bool>, i: nat): set<nat>
    requires i <= |nonces| && i <= |accepted|
  {
    set j | 0 <= j < i && accepted[j] :: nonces[j]
  }

  /**
   * For every sequence of authenticated nonces offered to a new window, each is let through exactly
   * when it is fresh against all that were let through before it; so none is let through twice.
   */
  method Filter(nonces: seq<nat>) returns (accepted: seq<bool>)
    ensures |accepted| == |nonces|
    ensures forall i | 0 <= i < |nonces| ::
              accepted[i] <==> Fresh(AcceptedBefore(nonces, accepted, i), nonces[i])
    ensures forall i, j | 0 <= i < j < |nonces| && accepted[i] && accepted[j] :: nonces[i] != nonces[j]
  {
    var window := new ReplayWindow();
    accepted := [];
    for i := 0 to |nonces|
      invariant window.Valid() && fresh(window) && fresh(window.seen)
      invariant |accepted| == i
      invariant window.history == AcceptedBefore(nonces, accepted, i)
      invariant forall j | 0 <= j < i ::
                  accepted[j] <==> Fresh(AcceptedBefore(nonces, accepted, j), nonces[j])
    {
      var ok := window.Acceptable(nonces[i]);
      ghost var before := accepted;
      if ok {
        window.Record(nonces[i]);
      }
      accepted := accepted + [ok];
      forall j | 0 <= j <= i
        ensures AcceptedBefore(nonces, accepted, j) == AcceptedBefore(nonces, before, j)
      {
      }
    }
    forall i, j | 0 <= i < j < |nonces| && accepted[i] && accepted[j]
      ensures nonces[i] != nonces[j]
    {
      assert nonces[i] in AcceptedBefore(nonces, accepted, j);
    }
  }
}
