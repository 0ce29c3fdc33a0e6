/** The two sliding-window limiters, on a client's connection and per peer, and
    the one specification both meet. Clock readings do not go back. */
module RateLimit {
  import opened Text

  /** Readings in order, oldest first. */
  predicate Ascending(times: seq<real>) {
    forall i, j :: 0 <= i < j < |times| ==> times[i] <= times[j]
  }

  predicate NotAfter(times: seq<real>, now: real) {
    forall i :: 0 <= i < |times| ==> times[i] <= now
  }

  // ---------------------------------------------------------------------
  // The specification: the log of everything ever accepted
  // ---------------------------------------------------------------------

  /** How many of `times` are less than `window` before `now`. */
  function Recent(times: seq<real>, window: real, now: real): nat {
    if times == [] then 0
    else Recent(times[..|times| - 1], window, now) + if now - times[|times| - 1] < window then 1 else 0
  }

  /** Whether a message at `now` may pass, given every message accepted before. */
  predicate Allowed(accepted: seq<real>, window: real, max: nat, now: real) {
    Recent(accepted, window, now) < max
  }

  /** The entries still inside the window, oldest first. */
  function Within(times: seq<real>, window: real, now: real): seq<real> {
    if times == [] then []
    else
      var front := Within(times[..|times| - 1], window, now);
      if now - times[|times| - 1] < window then front + [times[|times| - 1]] else front
  }

  lemma {:induction false} WithinCounts(times: seq<real>, window: real, now: real)
    ensures |Within(times, window, now)| == Recent(times, window, now)
    ensures forall t <- Within(times, window, now) :: t in times && now - t < window
    ensures Ascending(times) ==> Ascending(Within(times, window, now))
  {
    if times != [] {
      WithinCounts(times[..|times| - 1], window, now);
      var w := Within(times[..|times| - 1], window, now);
      if Ascending(times) {
        forall i | 0 <= i < |w| ensures w[i] <= times[|times| - 1] {
          assert w[i] in w && w[i] in times[..|times| - 1];
          var k :| 0 <= k < |times| - 1 && times[..|times| - 1][k] == w[i];
          assert times[k] <= times[|times| - 1];
        }
      }
    }
  }

  /** Filtering by an earlier reading first changes nothing. */
  lemma {:induction false} WithinTwice(times: seq<real>, window: real, earlier: real, now: real)
    requires earlier <= now
    ensures Within(Within(times, window, earlier), window, now) == Within(times, window, now)
  {
    if times != [] {
      var front, t := times[..|times| - 1], times[|times| - 1];
      WithinTwice(front, window, earlier, now);
      var w := Within(front, window, earlier);
      if earlier - t < window {
        assert (w + [t])[..|w|] == w;
      }
    }
  }

  lemma {:induction false} WithinAppend(times: seq<real>, t: real, window: real, now: real)
    ensures Within(times + [t], window, now) == Within(times, window, now) + (if now - t < window then [t] else [])
  {
    assert (times + [t])[..|times|] == times;
  }

  /** On an ascending list the window is a suffix. */
  lemma {:induction false} WithinIsSuffix(times: seq<real>, n: nat, window: real, now: real)
    requires Ascending(times) && n <= |times|
    requires forall i :: 0 <= i < n ==> now - times[i] >= window
    requires n < |times| ==> now - times[n] < window
    ensures Within(times, window, now) == times[n..]
  {
    if |times| > n {
      var front := times[..|times| - 1];
      WithinIsSuffix(front, n, window, now);
      assert times[n] <= times[|times| - 1];
      assert times[n..] == front[n..] + [times[|times| - 1]];
    } else if times != [] {
      var front := times[..n - 1];
      WithinIsSuffix(front, n - 1, window, now);
    }
  }

  /** Every message of this log passed when it came. */
  ghost predicate Governed(accepted: seq<real>, window: real, max: nat) {
    forall k :: 0 <= k < |accepted| ==> Allowed(accepted[..k], window, max, accepted[k])
  }

  lemma GovernedGrows(accepted: seq<real>, window: real, max: nat, now: real)
    requires Governed(accepted, window, max) && Allowed(accepted, window, max, now)
    ensures Governed(accepted + [now], window, max)
  {
    var grown := accepted + [now];
    forall k | 0 <= k < |grown| ensures Allowed(grown[..k], window, max, grown[k]) {
      assert grown[..k] == accepted[..k];
      assert accepted[..|accepted|] == accepted;
    }
  }

  /** How many of `times` lie in the half-open window from `start`. */
  function CountFrom(times: seq<real>, start: real, window: real): nat {
    if times == [] then 0
    else
      CountFrom(times[..|times| - 1], start, window)
      + if start <= times[|times| - 1] < start + window then 1 else 0
  }

  lemma {:induction false} CountedIsRecent(times: seq<real>, start: real, window: real, now: real)
    requires now < start + window
    ensures CountFrom(times, start, window) <= Recent(times, window, now)
  {
    if times != [] {
      CountedIsRecent(times[..|times| - 1], start, window, now);
    }
  }

  /** No half-open window of the limiter's length, wherever it starts, holds more
      accepted messages than the limit. */
  lemma {:induction false} NoWindowHoldsMore(accepted: seq<real>, start: real, window: real, max: nat)
    requires Governed(accepted, window, max)
    ensures CountFrom(accepted, start, window) <= max
  {
    if accepted != [] {
      var n := |accepted| - 1;
      forall k | 0 <= k < n ensures Allowed(accepted[..n][..k], window, max, accepted[..n][k]) {
        assert accepted[..n][..k] == accepted[..k];
      }
      NoWindowHoldsMore(accepted[..n], start, window, max);
      if start <= accepted[n] < start + window {
        CountedIsRecent(accepted[..n], start, window, accepted[n]);
      }
    }
  }

  lemma {:induction false} RecentIsCounted(times: seq<real>, start: real, window: real, now: real)
    requires now < start + window && NotAfter(times, now)
    requires forall i :: 0 <= i < |times| && now - times[i] < window ==> start <= times[i]
    ensures Recent(times, window, now) <= CountFrom(times, start, window)
  {
    if times != [] {
      RecentIsCounted(times[..|times| - 1], start, window, now);
    }
  }

  lemma {:induction false} FirstRecent(times: seq<real>, window: real, now: real)
    requires Ascending(times) && NotAfter(times, now) && window > 0.0
    ensures exists start: real :: FromFirst(times, window, now, start)
  {
    if times == [] || now - times[|times| - 1] >= window {
      forall i | 0 <= i < |times| ensures now - times[i] >= window {
        assert times[i] <= times[|times| - 1];
      }
      assert FromFirst(times, window, now, now);
    } else {
      var front, t := times[..|times| - 1], times[|times| - 1];
      FirstRecent(front, window, now);
      var start: real :| FromFirst(front, window, now, start);
      var least := if t < start then t else start;
      forall i | 0 <= i < |times| && now - times[i] < window ensures least <= times[i] {
        if i < |front| {
          assert front[i] == times[i];
        }
      }
      assert FromFirst(times, window, now, least);
    }
  }

  /** A window that begins at `start` holds `now` and every one of these still recent. */
  predicate FromFirst(times: seq<real>, window: real, now: real, start: real) {
    && start <= now < start + window
    && forall i :: 0 <= i < |times| && now - times[i] < window ==> start <= times[i]
  }

  /** Every half-open window of the limiter's length, wherever it starts, holds at most
      the limit. */
  ghost predicate NoWindowOver(times: seq<real>, window: real, max: nat) {
    forall start: real :: CountFrom(times, start, window) <= max
  }

  /** The limiter is as permissive as its promise allows: a message passes exactly when
      no window, wherever it starts, would then hold more than the limit. */
  lemma PassesExactlyWhenItMay(accepted: seq<real>, window: real, max: nat, now: real)
    requires window > 0.0 && Ascending(accepted) && NotAfter(accepted, now) && Governed(accepted, window, max)
    ensures Allowed(accepted, window, max, now) <==> NoWindowOver(accepted + [now], window, max)
  {
    var after := accepted + [now];
    assert after[..|accepted|] == accepted;
    if Allowed(accepted, window, max, now) {
      GovernedGrows(accepted, window, max, now);
      forall start: real ensures CountFrom(after, start, window) <= max {
        NoWindowHoldsMore(after, start, window, max);
      }
    } else {
      FirstRecent(accepted, window, now);
      var start: real :| FromFirst(accepted, window, now, start);
      RecentIsCounted(accepted, start, window, now);
      assert CountFrom(after, start, window) == CountFrom(accepted, start, window) + 1;
    }
  }

  // ---------------------------------------------------------------------
  // A client's connection: drop the expired from the front of a deque
  // ---------------------------------------------------------------------

  /** The deque holds exactly the accepted times still inside the window. */
  ghost predicate DequeAgrees(times: seq<real>, accepted: seq<real>, window: real, max: nat, clock: real) {
    && Ascending(accepted) && NotAfter(accepted, clock) && Governed(accepted, window, max)
    && Ascending(times) && times == Within(accepted, window, clock)
    && |times| <= max
  }

  /** Popping the expired front of the deque leaves what the filter form keeps. */
  lemma PoppingIsFiltering(
    times: seq<real>, n: nat, accepted: seq<real>, window: real, max: nat, clock: real, now: real)
    requires DequeAgrees(times, accepted, window, max, clock) && clock <= now && n <= |times|
    requires forall i :: 0 <= i < n ==> now - times[i] >= window
    requires n < |times| ==> now - times[n] < window
    ensures times[n..] == Within(times, window, now) && DequeAgrees(times[n..], accepted, window, max, now)
    ensures |times[n..]| == Recent(accepted, window, now)
  {
    WithinIsSuffix(times, n, window, now);
    WithinTwice(accepted, window, clock, now);
    WithinCounts(accepted, window, now);
  }

  lemma DequeAccepts(times: seq<real>, accepted: seq<real>, window: real, max: nat, now: real)
    requires window > 0.0 && DequeAgrees(times, accepted, window, max, now) && |times| < max
    ensures DequeAgrees(times + [now], accepted + [now], window, max, now)
  {
    WithinCounts(accepted, window, now);
    WithinAppend(accepted, now, window, now);
    GovernedGrows(accepted, window, max, now);
    WithinNotAfter(accepted, window, now);
    AppendedInOrder(times, now);
    AppendedInOrder(accepted, now);
  }

  class ConnectionLimiter {
    const window: real
    const max: nat
    var times: seq<real>
    ghost var accepted: seq<real>
    ghost var clock: real

    ghost predicate Valid()
      reads this
    {
      window > 0.0 && DequeAgrees(times, accepted, window, max, clock)
    }

    constructor (window: real, max: nat)
      requires window > 0.0
      ensures Valid() && this.window == window && this.max == max && accepted == []
    {
      this.window, this.max := window, max;
      times, accepted, clock := [], [], 0.0;
    }

    /** One received message: the times popped are exactly those the filter form
        would leave out, and the answer is the specification's. */
    method Receive(now: real) returns (passed: bool)
      requires Valid() && now >= clock
      modifies this
      ensures Valid() && clock == now
      ensures passed <==> Allowed(old(accepted), window, max, now)
      ensures passed <==> NoWindowOver(old(accepted) + [now], window, max)
      ensures accepted == old(accepted) + if passed then [now] else []
      ensures times == Within(accepted, window, now)
    {
      ghost var start := times;
      ghost var popped := 0;
      while times != [] && now - times[0] >= window
        invariant clock == old(clock) && accepted == old(accepted)
        invariant popped <= |start| && times == start[popped..]
        invariant forall i :: 0 <= i < popped ==> now - start[i] >= window
        decreases |times|
      {
        times := times[1..];
        popped := popped + 1;
      }
      PoppingIsFiltering(start, popped, accepted, window, max, clock, now);
      PassesExactlyWhenItMay(accepted, window, max, now);
      clock := now;
      if |times| >= max { return false; }
      DequeAccepts(times, accepted, window, max, now);
      times := times + [now];
      accepted := accepted + [now];
      passed := true;
    }
  }

  // ---------------------------------------------------------------------
  // Inter-system peers: filter a list per peer, and sweep the idle ones
  // ---------------------------------------------------------------------

  function ListFor(lists: map<string, seq<real>>, peer: string): seq<real> {
    if peer in lists then lists[peer] else []
  }

  /** What is kept for a peer agrees with its whole history from `clock` on. */
  ghost predicate PeerAgrees(kept: seq<real>, history: seq<real>, window: real, max: nat, clock: real) {
    && Ascending(history) && NotAfter(history, clock) && Governed(history, window, max)
    && Ascending(kept)
    && Within(kept, window, clock) == Within(history, window, clock)
  }

  ghost predicate AllAgree(
    times: map<string, seq<real>>, accepted: map<string, seq<real>>, window: real, max: nat, clock: real)
  {
    forall p :: PeerAgrees(ListFor(times, p), ListFor(accepted, p), window, max, clock)
  }

  lemma PeerLater(kept: seq<real>, history: seq<real>, window: real, max: nat, clock: real, now: real)
    requires PeerAgrees(kept, history, window, max, clock) && clock <= now
    ensures PeerAgrees(kept, history, window, max, now)
  {
    WithinTwice(kept, window, clock, now);
    WithinTwice(history, window, clock, now);
  }

  lemma AllLater(times: map<string, seq<real>>, accepted: map<string, seq<real>>, window: real, max: nat,
                 clock: real, now: real)
    requires AllAgree(times, accepted, window, max, clock) && clock <= now
    ensures AllAgree(times, accepted, window, max, now)
  {
    forall p ensures PeerAgrees(ListFor(times, p), ListFor(accepted, p), window, max, now) {
      PeerLater(ListFor(times, p), ListFor(accepted, p), window, max, clock, now);
    }
  }

  lemma PeerFiltered(kept: seq<real>, history: seq<real>, window: real, max: nat, now: real)
    requires PeerAgrees(kept, history, window, max, now)
    ensures PeerAgrees(Within(history, window, now), history, window, max, now)
  {
    WithinCounts(history, window, now);
    WithinTwice(history, window, now, now);
  }

  lemma AppendedInOrder(times: seq<real>, now: real)
    requires Ascending(times) && NotAfter(times, now)
    ensures Ascending(times + [now]) && NotAfter(times + [now], now)
  {
  }

  lemma WithinNotAfter(history: seq<real>, window: real, now: real)
    requires NotAfter(history, now)
    ensures NotAfter(Within(history, window, now), now)
  {
    WithinCounts(history, window, now);
    var w := Within(history, window, now);
    forall i | 0 <= i < |w| ensures w[i] <= now {
      assert w[i] in w && w[i] in history;
    }
  }

  lemma PeerAccepts(history: seq<real>, window: real, max: nat, now: real)
    requires window > 0.0 && PeerAgrees(Within(history, window, now), history, window, max, now)
    requires Allowed(history, window, max, now)
    ensures Within(history + [now], window, now) == Within(history, window, now) + [now]
    ensures PeerAgrees(Within(history, window, now) + [now], history + [now], window, max, now)
  {
    var w := Within(history, window, now);
    WithinAppend(w, now, window, now);
    WithinAppend(history, now, window, now);
    GovernedGrows(history, window, max, now);
    WithinNotAfter(history, window, now);
    AppendedInOrder(w, now);
    AppendedInOrder(history, now);
  }

  class PeerLimiter {
    const window: real
    const max: nat
    var times: map<string, seq<real>>
    ghost var accepted: map<string, seq<real>>  // per peer, everything ever accepted
    ghost var clock: real

    ghost predicate Valid()
      reads this
    {
      window > 0.0 && AllAgree(times, accepted, window, max, clock)
    }

    constructor (window: real, max: nat)
      requires window > 0.0
      ensures Valid() && this.window == window && this.max == max && accepted == map[] && times == map[]
    {
      this.window, this.max := window, max;
      times, accepted, clock := map[], map[], 0.0;
    }

    /** `_sweep_stale_windows`, at a connection's start: no history changes, so no
        later decision does. */
    method Sweep(now: real)
      requires Valid() && now >= clock
      modifies this`times, this`clock
      ensures Valid() && clock == now && accepted == old(accepted)
      ensures times.Keys == set p | p in old(times) && !(old(times)[p] == [] || now - old(times)[p][|old(times)[p]| - 1] >= window)
      ensures forall p <- times :: times[p] == old(times)[p]
    {
      AllLater(times, accepted, window, max, clock, now);
      clock := now;
      ghost var before := times;
      var stale := set p | p in times && (times[p] == [] || now - times[p][|times[p]| - 1] >= window);
      times := map p | p in times && p !in stale :: times[p];
      forall p ensures PeerAgrees(ListFor(times, p), ListFor(accepted, p), window, max, now) {
        assert PeerAgrees(ListFor(before, p), ListFor(accepted, p), window, max, now);
        if p in stale {
          AllExpired(before[p], window, now);
        }
      }
    }

    /** One message from a peer, on whichever connection it arrives. */
    method Receive(peer: string, now: real) returns (passed: bool)
      requires Valid() && now >= clock
      modifies this
      ensures Valid() && clock == now
      ensures passed <==> Allowed(ListFor(old(accepted), peer), window, max, now)
      ensures passed <==> NoWindowOver(ListFor(old(accepted), peer) + [now], window, max)
      ensures accepted == if passed then old(accepted)[peer := ListFor(old(accepted), peer) + [now]] else old(accepted)
      ensures times == old(times)[peer := Within(ListFor(accepted, peer), window, now)]
    {
      ghost var t0, a0 := times, accepted;
      AllLater(t0, a0, window, max, clock, now);
      MessageAgrees(t0, a0, peer, window, max, now);
      assert PeerAgrees(ListFor(t0, peer), ListFor(a0, peer), window, max, now);
      PassesExactlyWhenItMay(ListFor(a0, peer), window, max, now);
      var mine := Within(ListFor(times, peer), window, now);
      passed := |mine| < max;
      if passed {
        mine := mine + [now];
        accepted := a0[peer := ListFor(a0, peer) + [now]];
        assert ListFor(accepted, peer) == ListFor(a0, peer) + [now];
      }
      times := times[peer := mine];
      clock := now;
    }
  }

  /** What one message does to the kept lists and to the histories they stand for. */
  lemma MessageAgrees(times: map<string, seq<real>>, accepted: map<string, seq<real>>, peer: string,
                      window: real, max: nat, now: real)
    requires window > 0.0 && AllAgree(times, accepted, window, max, now)
    ensures var history, mine := ListFor(accepted, peer), Within(ListFor(times, peer), window, now);
            && mine == Within(history, window, now)
            && (|mine| < max <==> Allowed(history, window, max, now))
            && (if |mine| < max then
                  Within(history + [now], window, now) == mine + [now] &&
                  AllAgree(times[peer := mine + [now]], accepted[peer := history + [now]], window, max, now)
                else
                  AllAgree(times[peer := mine], accepted, window, max, now))
  {
    var history := ListFor(accepted, peer);
    assert PeerAgrees(ListFor(times, peer), history, window, max, now);
    var mine := Within(ListFor(times, peer), window, now);
    WithinCounts(history, window, now);
    PeerFiltered(ListFor(times, peer), history, window, max, now);
    if |mine| < max {
      PeerAccepts(history, window, max, now);
      Stored(times, accepted, peer, mine + [now], history + [now], window, max, now);
    } else {
      StoredRefused(times, accepted, peer, mine, window, max, now);
    }
  }

  /** Storing a peer's list leaves every other peer's as it was. */
  lemma Stored(times: map<string, seq<real>>, accepted: map<string, seq<real>>, peer: string,
               mine: seq<real>, history: seq<real>, window: real, max: nat, now: real)
    requires AllAgree(times, accepted, window, max, now)
    requires PeerAgrees(mine, history, window, max, now)
    ensures AllAgree(times[peer := mine], accepted[peer := history], window, max, now)
  {
    var kept, logged := times[peer := mine], accepted[peer := history];
    forall p ensures PeerAgrees(ListFor(kept, p), ListFor(logged, p), window, max, now) {
      assert PeerAgrees(ListFor(times, p), ListFor(accepted, p), window, max, now);
    }
  }

  lemma StoredRefused(times: map<string, seq<real>>, accepted: map<string, seq<real>>, peer: string,
                      mine: seq<real>, window: real, max: nat, now: real)
    requires AllAgree(times, accepted, window, max, now)
    requires PeerAgrees(mine, ListFor(accepted, peer), window, max, now)
    ensures AllAgree(times[peer := mine], accepted, window, max, now)
  {
    var kept := times[peer := mine];
    forall p ensures PeerAgrees(ListFor(kept, p), ListFor(accepted, p), window, max, now) {
      assert PeerAgrees(ListFor(times, p), ListFor(accepted, p), window, max, now);
    }
  }

  lemma {:induction false} AllExpired(times: seq<real>, window: real, now: real)
    requires Ascending(times)
    requires times != [] ==> now - times[|times| - 1] >= window
    ensures Within(times, window, now) == []
  {
    if times != [] {
      var front := times[..|times| - 1];
      if front != [] {
        assert times[|front| - 1] <= times[|front|];
      }
      AllExpired(front, window, now);
    }
  }
}
