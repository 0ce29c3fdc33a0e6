/** The Programmer's session tokens: a bounded table with sliding expiry, against
    the history of how each token was used. */
module SessionTokens {
  import opened Text

  /** What happened to the table, in order. Hashing is taken as injective, so a
      token stands for its hash. */
  datatype Event =
    | Issued(token: string, fingerprint: string, at: real)
    | Checked(token: string, fingerprint: string, refresh: bool, at: real)
    | Revoked(token: string)
    | Evicted(token: string)
    | Cleared

  // ---------------------------------------------------------------------
  // One token's fate
  // ---------------------------------------------------------------------

  /** Never minted; good since its last use by a client; or lost for good. */
  datatype Fate = Unborn | Alive(fingerprint: string, lastUse: real) | Lost

  function Next(f: Fate, e: Event, token: string, ttl: real): Fate {
    match e
    case Issued(t, fp, at) => if t == token && f.Unborn? then Alive(fp, at) else f
    case Revoked(t) => if t == token && f.Alive? then Lost else f
    case Evicted(t) => if t == token && f.Alive? then Lost else f
    case Cleared => if f.Alive? then Lost else f
    case Checked(t, fp, refresh, at) =>
      if t != token || !f.Alive? then f
      else if fp != f.fingerprint || at - f.lastUse > ttl then Lost
      else if refresh then f.(lastUse := at)
      else f
  }

  function FateOf(log: seq<Event>, token: string, ttl: real): Fate {
    if log == [] then Unborn
    else Next(FateOf(log[..|log| - 1], token, ttl), log[|log| - 1], token, ttl)
  }

  predicate Accepts(f: Fate, fingerprint: string, ttl: real, at: real) {
    f.Alive? && fingerprint == f.fingerprint && at - f.lastUse <= ttl
  }

  lemma FateGrows(log: seq<Event>, e: Event, ttl: real)
    ensures forall t :: FateOf(log + [e], t, ttl) == Next(FateOf(log, t, ttl), e, t, ttl)
  {
    assert (log + [e])[..|log|] == log;
  }

  // ---------------------------------------------------------------------
  // The table
  // ---------------------------------------------------------------------

  datatype Session = Session(expiresAt: real, fingerprint: string)

  predicate Earliest(sessions: map<string, Session>, o: string) {
    o in sessions && forall t <- sessions :: sessions[o].expiresAt <= sessions[t].expiresAt
  }

  function Unexpired(sessions: map<string, Session>, now: real): map<string, Session> {
    map t | t in sessions && sessions[t].expiresAt >= now :: sessions[t]
  }

  /** The entry is what the token's history says it should be. */
  predicate Backed(s: Session, f: Fate, ttl: real) {
    f == Alive(s.fingerprint, s.expiresAt - ttl)
  }

  /** No check from `clock` on could accept a token with this fate. */
  predicate Gone(f: Fate, ttl: real, clock: real) {
    f.Alive? ==> clock - f.lastUse > ttl
  }

  ghost predicate Agrees(sessions: map<string, Session>, log: seq<Event>, ttl: real, clock: real) {
    forall t :: if t in sessions then Backed(sessions[t], FateOf(log, t, ttl), ttl) else Gone(FateOf(log, t, ttl), ttl, clock)
  }

  /** The table once a token has been checked. */
  function AfterCheck(sessions: map<string, Session>, token: string, fingerprint: string, refresh: bool,
                      ttl: real, now: real): map<string, Session>
  {
    if token !in sessions then sessions
    else if sessions[token].expiresAt < now || sessions[token].fingerprint != fingerprint then sessions - {token}
    else if refresh then sessions[token := sessions[token].(expiresAt := now + ttl)]
    else sessions
  }

  lemma CheckedAgrees(sessions: map<string, Session>, log: seq<Event>, ttl: real, clock: real,
                      token: string, fingerprint: string, refresh: bool, now: real)
    requires Agrees(sessions, log, ttl, clock) && clock <= now
    ensures Agrees(AfterCheck(sessions, token, fingerprint, refresh, ttl, now),
                   log + [Checked(token, fingerprint, refresh, now)], ttl, now)
  {
    FateGrows(log, Checked(token, fingerprint, refresh, now), ttl);
    var after, grown := AfterCheck(sessions, token, fingerprint, refresh, ttl, now),
                        log + [Checked(token, fingerprint, refresh, now)];
    forall t ensures if t in after then Backed(after[t], FateOf(grown, t, ttl), ttl) else Gone(FateOf(grown, t, ttl), ttl, now) {
      assert if t in sessions then Backed(sessions[t], FateOf(log, t, ttl), ttl) else Gone(FateOf(log, t, ttl), ttl, clock);
    }
  }

  /** The table and the history agree, and the history is one that can be. */
  ghost predicate Truthful(sessions: map<string, Session>, log: seq<Event>, ttl: real, clock: real) {
    Historic(log, clock) && Agrees(sessions, log, ttl, clock)
  }

  lemma CheckedTruthful(sessions: map<string, Session>, log: seq<Event>, ttl: real, clock: real,
                        token: string, fingerprint: string, refresh: bool, now: real)
    requires Truthful(sessions, log, ttl, clock) && clock <= now
    ensures Truthful(AfterCheck(sessions, token, fingerprint, refresh, ttl, now),
                     log + [Checked(token, fingerprint, refresh, now)], ttl, now)
    ensures Entitled(log, token, fingerprint, ttl, now) <==>
              token in sessions && sessions[token].expiresAt >= now && sessions[token].fingerprint == fingerprint
  {
    CheckedAgrees(sessions, log, ttl, clock, token, fingerprint, refresh, now);
    HistoricGrows(log, Checked(token, fingerprint, refresh, now), clock, now, ttl);
    OrderedLater(log, clock, now);
    AcceptedExactly(log, token, fingerprint, ttl, now);
    assert if token in sessions then Backed(sessions[token], FateOf(log, token, ttl), ttl)
           else Gone(FateOf(log, token, ttl), ttl, clock);
  }

  /** An event that takes `token` away, and with it its entry. */
  lemma TakenTruthful(sessions: map<string, Session>, log: seq<Event>, ttl: real, clock: real, token: string, e: Event)
    requires Truthful(sessions, log, ttl, clock) && (e == Revoked(token) || e == Evicted(token))
    ensures Truthful(sessions - {token}, log + [e], ttl, clock)
  {
    HistoricGrows(log, e, clock, clock, ttl);
    FateGrows(log, e, ttl);
    var after, grown := sessions - {token}, log + [e];
    forall t
      ensures if t in after then Backed(after[t], FateOf(grown, t, ttl), ttl) else Gone(FateOf(grown, t, ttl), ttl, clock)
    {
      assert if t in sessions then Backed(sessions[t], FateOf(log, t, ttl), ttl) else Gone(FateOf(log, t, ttl), ttl, clock);
    }
  }

  lemma ClearedTruthful(sessions: map<string, Session>, log: seq<Event>, ttl: real, clock: real)
    requires Truthful(sessions, log, ttl, clock)
    ensures Truthful(map[], log + [Cleared], ttl, clock)
  {
    HistoricGrows(log, Cleared, clock, clock, ttl);
    FateGrows(log, Cleared, ttl);
  }

  lemma IssuedTruthful(sessions: map<string, Session>, log: seq<Event>, ttl: real, clock: real,
                       token: string, fingerprint: string)
    requires Truthful(sessions, log, ttl, clock) && FateOf(log, token, ttl).Unborn?
    ensures token !in sessions
    ensures Truthful(sessions[token := Session(clock + ttl, fingerprint)], log + [Issued(token, fingerprint, clock)], ttl, clock)
  {
    var e := Issued(token, fingerprint, clock);
    HistoricGrows(log, e, clock, clock, ttl);
    FateGrows(log, e, ttl);
    var after, grown := sessions[token := Session(clock + ttl, fingerprint)], log + [e];
    forall t
      ensures t == token ==> token !in sessions
      ensures if t in after then Backed(after[t], FateOf(grown, t, ttl), ttl) else Gone(FateOf(grown, t, ttl), ttl, clock)
    {
      assert if t in sessions then Backed(sessions[t], FateOf(log, t, ttl), ttl) else Gone(FateOf(log, t, ttl), ttl, clock);
    }
  }

  lemma PrunedTruthful(sessions: map<string, Session>, log: seq<Event>, ttl: real, clock: real, now: real)
    requires Truthful(sessions, log, ttl, clock) && clock <= now
    ensures Truthful(Unexpired(sessions, now), log, ttl, now)
  {
    OrderedLater(log, clock, now);
    var after := Unexpired(sessions, now);
    forall t ensures if t in after then Backed(after[t], FateOf(log, t, ttl), ttl) else Gone(FateOf(log, t, ttl), ttl, now) {
      assert if t in sessions then Backed(sessions[t], FateOf(log, t, ttl), ttl) else Gone(FateOf(log, t, ttl), ttl, clock);
    }
  }

  /** No other entry's token was last used earlier. */
  ghost predicate LeastRecent(log: seq<Event>, among: map<string, Session>, oldest: string, ttl: real) {
    && FateOf(log, oldest, ttl).Alive?
    && forall t <- among ::
         FateOf(log, t, ttl).Alive? && FateOf(log, oldest, ttl).lastUse <= FateOf(log, t, ttl).lastUse
  }

  lemma EarliestIsLeastRecent(sessions: map<string, Session>, log: seq<Event>, ttl: real, clock: real, oldest: string)
    requires Truthful(sessions, log, ttl, clock) && Earliest(sessions, oldest)
    ensures LeastRecent(log, sessions, oldest, ttl)
  {
    assert Backed(sessions[oldest], FateOf(log, oldest, ttl), ttl);
    forall t <- sessions ensures Backed(sessions[t], FateOf(log, t, ttl), ttl) {
    }
  }

  class SessionTokenStore {
    const ttl: real
    const max: nat
    var sessions: map<string, Session>
    ghost var log: seq<Event>
    ghost var clock: real

    ghost predicate Valid()
      reads this
    {
      max >= 1 && |sessions| <= max && "" !in sessions && Truthful(sessions, log, ttl, clock)
    }

    constructor (ttl: real, max: nat)
      requires max >= 1
      ensures Valid() && this.ttl == ttl && this.max == max && log == [] && sessions == map[]
    {
      this.ttl, this.max := ttl, max;
      sessions, log, clock := map[], [], 0.0;
    }

    /** `_prune`: entries past their expiry go, and nothing the history would
        still accept. */
    method Prune(now: real)
      requires Valid() && now >= clock
      modifies this`sessions, this`clock
      ensures Valid() && clock == now && sessions == Unexpired(old(sessions), now)
    {
      PrunedTruthful(sessions, log, ttl, clock, now);
      clock := now;
      ghost var before := sessions;
      var expired := set t | t in sessions && sessions[t].expiresAt < now;
      sessions := map t | t in sessions && t !in expired :: sessions[t];
      assert sessions == Unexpired(before, now);
      Fewer(sessions.Keys, before.Keys);
    }

    method Drop(token: string)
      requires token in sessions
      modifies this`sessions
      ensures sessions == old(sessions) - {token} && |sessions| < |old(sessions)|
    {
      ghost var before := sessions.Keys;
      sessions := sessions - {token};
      assert sessions.Keys == before - {token};
    }

    /** Evict the entry closest to expiry, the least recently used one. */
    method EvictOldest() returns (ghost oldest: string)
      requires Valid() && sessions != map[]
      modifies this`sessions, this`log
      ensures Valid() && log == old(log) + [Evicted(oldest)]
      ensures oldest in old(sessions) && sessions == old(sessions) - {oldest} && |sessions| < max
      ensures LeastRecent(old(log), old(sessions), oldest, ttl)
    {
      EarliestExists(sessions);
      var chosen :| Earliest(sessions, chosen);
      EarliestIsLeastRecent(sessions, log, ttl, clock, chosen);
      TakenTruthful(sessions, log, ttl, clock, chosen, Evicted(chosen));
      Drop(chosen);
      log := log + [Evicted(chosen)];
      oldest := chosen;
    }

    /** `issue`: `token` is fresh random text, never minted before. The table
        stays within its bound; an entry is evicted only when it is full of
        unexpired ones, and it is a least recently used one. */
    method Issue(token: string, fingerprint: string, now: real) returns (ghost evicted: Option<string>)
      requires Valid() && now >= clock && token != "" && FateOf(log, token, ttl).Unborn?
      modifies this
      ensures Valid() && clock == now
      ensures evicted.Some? <==> |set t | t in old(sessions) && old(sessions)[t].expiresAt >= now| >= max
      ensures evicted.None? ==>
                log == old(log) + [Issued(token, fingerprint, now)]
                && sessions == Unexpired(old(sessions), now)[token := Session(now + ttl, fingerprint)]
      ensures evicted.Some? ==>
                && log == old(log) + [Evicted(evicted.value)] + [Issued(token, fingerprint, now)]
                && sessions == (Unexpired(old(sessions), now) - {evicted.value})[token := Session(now + ttl, fingerprint)]
                && evicted.value in Unexpired(old(sessions), now)
                && LeastRecent(old(log), Unexpired(old(sessions), now), evicted.value, ttl)
    {
      Prune(now);
      UnexpiredKeys(old(sessions), now);
      evicted := None;
      if |sessions| >= max {
        var oldest := EvictOldest();
        evicted := Some(oldest);
        FateGrows(old(log), Evicted(oldest), ttl);
      }
      Insert(token, fingerprint, now);
    }

    method Insert(token: string, fingerprint: string, now: real)
      requires Valid() && now == clock && token != "" && FateOf(log, token, ttl).Unborn? && |sessions| < max
      modifies this`sessions, this`log
      ensures Valid() && log == old(log) + [Issued(token, fingerprint, now)]
      ensures sessions == old(sessions)[token := Session(now + ttl, fingerprint)]
    {
      ghost var before := sessions;
      IssuedTruthful(before, log, ttl, clock, token, fingerprint);
      sessions := sessions[token := Session(now + ttl, fingerprint)];
      assert sessions.Keys == before.Keys + {token};
      log := log + [Issued(token, fingerprint, now)];
      assert Truthful(sessions, log, ttl, clock);
    }

    /** `validate`: accepted exactly when the whole history of the token's uses entitles
        it to be. */
    method Validate(token: string, fingerprint: string, refresh: bool, now: real) returns (accepted: bool)
      requires Valid() && now >= clock
      modifies this
      ensures Valid() && clock == now
      ensures log == old(log) + [Checked(token, fingerprint, refresh, now)]
      ensures accepted <==> Entitled(old(log), token, fingerprint, ttl, now)
      ensures sessions - {token} == old(sessions) - {token}
    {
      CheckedTruthful(sessions, log, ttl, clock, token, fingerprint, refresh, now);
      log := log + [Checked(token, fingerprint, refresh, now)];
      clock := now;
      accepted := Look(token, fingerprint, refresh, now);
    }

    /** What a check finds, and what it leaves of the entry. */
    method Look(token: string, fingerprint: string, refresh: bool, now: real) returns (accepted: bool)
      requires "" !in sessions
      modifies this`sessions
      ensures sessions == AfterCheck(old(sessions), token, fingerprint, refresh, ttl, now)
      ensures |sessions| <= |old(sessions)| && "" !in sessions && sessions - {token} == old(sessions) - {token}
      ensures accepted <==> token in old(sessions) && old(sessions)[token].expiresAt >= now
                            && old(sessions)[token].fingerprint == fingerprint
    {
      if token == "" || token !in sessions { return false; }
      var s := sessions[token];
      if s.expiresAt < now || s.fingerprint != fingerprint {
        Drop(token);
        return false;
      }
      if refresh {
        ghost var before := sessions.Keys;
        sessions := sessions[token := s.(expiresAt := now + ttl)];
        assert sessions.Keys == before;
      }
      accepted := true;
    }

    method DropIfHeld(token: string) returns (held: bool)
      modifies this`sessions
      ensures held <==> token in old(sessions)
      ensures sessions == old(sessions) - {token} && |sessions| <= |old(sessions)|
    {
      held := token in sessions;
      if held {
        Drop(token);
      } else {
        assert sessions - {token} == sessions;
      }
    }

    /** `revoke`. */
    method Revoke(token: string) returns (existed: bool)
      requires Valid()
      modifies this
      ensures Valid() && clock == old(clock) && log == old(log) + [Revoked(token)]
      ensures existed <==> token in old(sessions)
      ensures sessions == old(sessions) - {token}
    {
      TakenTruthful(sessions, log, ttl, clock, token, Revoked(token));
      existed := DropIfHeld(token);
      log := log + [Revoked(token)];
    }

    method Clear()
      requires Valid()
      modifies this
      ensures Valid() && sessions == map[] && log == old(log) + [Cleared]
    {
      ClearedTruthful(sessions, log, ttl, clock);
      log := log + [Cleared];
      sessions := map[];
    }
  }

  lemma UnexpiredKeys(sessions: map<string, Session>, now: real)
    ensures |Unexpired(sessions, now)| == |set t | t in sessions && sessions[t].expiresAt >= now|
  {
    assert Unexpired(sessions, now).Keys == set t | t in sessions && sessions[t].expiresAt >= now;
  }

  lemma Fewer(a: set<string>, b: set<string>)
    requires a <= b
    ensures |a| <= |b|
  {
    assert b == a + (b - a);
  }

  lemma {:induction false} EarliestExists(sessions: map<string, Session>)
    requires sessions != map[]
    ensures exists o :: Earliest(sessions, o)
    decreases |sessions|
  {
    var k :| k in sessions;
    var rest := sessions - {k};
    assert rest.Keys == sessions.Keys - {k};
    if rest == map[] {
      forall t <- sessions ensures t == k {
        assert t !in rest.Keys;
      }
      assert Earliest(sessions, k);
    } else {
      EarliestExists(rest);
      var o :| Earliest(rest, o);
      var best := if sessions[k].expiresAt <= sessions[o].expiresAt then k else o;
      forall t <- sessions ensures sessions[best].expiresAt <= sessions[t].expiresAt {
        assert t == k || t in rest;
      }
      assert Earliest(sessions, best);
    }
  }

  // ---------------------------------------------------------------------
  // What a fate says about the whole history
  // ---------------------------------------------------------------------

  predicate MintedAt(log: seq<Event>, i: nat, token: string) {
    i < |log| && log[i].Issued? && log[i].token == token
  }

  /** When the token minted at `i` was last used by a client, before `n`. */
  function LastRefresh(log: seq<Event>, i: nat, n: nat): real
    requires i < n <= |log| && log[i].Issued?
  {
    if n == i + 1 then log[i].at
    else
      var e := log[n - 1];
      if e.Checked? && e.token == log[i].token && e.refresh then e.at else LastRefresh(log, i, n - 1)
  }

  /** Event `j` does not take away the token minted at `i`, presents its own
      fingerprint, and, as a use by a client, comes within the TTL of the one
      before it. */
  predicate Harmless(log: seq<Event>, i: nat, j: nat, ttl: real)
    requires i < j < |log| && log[i].Issued?
  {
    match log[j]
    case Issued(_, _, _) => true
    case Revoked(t) => t != log[i].token
    case Evicted(t) => t != log[i].token
    case Cleared => false
    case Checked(t, f, refresh, at) =>
      t == log[i].token ==> f == log[i].fingerprint && (refresh ==> at - LastRefresh(log, i, j) <= ttl)
  }

  predicate Standing(log: seq<Event>, i: nat, n: nat, ttl: real)
    requires i < n <= |log| && log[i].Issued?
  {
    forall j :: i < j < n ==> Harmless(log, i, j, ttl)
  }

  function TimeOf(e: Event): Option<real> {
    if e.Issued? || e.Checked? then Some(e.at) else None
  }

  /** The clock never went back, and reads `at` now. */
  predicate Ordered(log: seq<Event>, at: real) {
    && (forall j :: 0 <= j < |log| && TimeOf(log[j]).Some? ==> TimeOf(log[j]).value <= at)
    && forall i, j :: 0 <= i < j < |log| && TimeOf(log[i]).Some? && TimeOf(log[j]).Some? ==>
                        TimeOf(log[i]).value <= TimeOf(log[j]).value
  }

  ghost predicate MintedOnce(log: seq<Event>, token: string) {
    forall i, j :: MintedAt(log, i, token) && MintedAt(log, j, token) ==> i == j
  }

  /** No token was minted twice, and the clock never went back. */
  ghost predicate Historic(log: seq<Event>, at: real) {
    Ordered(log, at) && forall t :: MintedOnce(log, t)
  }

  lemma OrderedLater(log: seq<Event>, at: real, now: real)
    requires Ordered(log, at) && at <= now
    ensures Ordered(log, now)
  {
  }

  lemma UnbornNeverMinted(log: seq<Event>, token: string, ttl: real, at: real)
    requires MintedOnce(log, token) && Ordered(log, at)
    ensures FateOf(log, token, ttl).Unborn? ==> forall i :: !MintedAt(log, i, token)
  {
    assert log[..|log|] == log;
    forall i: nat | MintedAt(log, i, token) ensures !FateOf(log, token, ttl).Unborn? {
      FateFromMint(log, i, |log|, token, ttl, at);
    }
  }

  lemma HistoricGrows(log: seq<Event>, e: Event, at: real, now: real, ttl: real)
    requires Historic(log, at) && at <= now && (TimeOf(e).Some? ==> TimeOf(e).value == now)
    requires e.Issued? ==> FateOf(log, e.token, ttl).Unborn?
    ensures Historic(log + [e], now)
  {
    var r := log + [e];
    assert forall i :: 0 <= i < |log| ==> r[i] == log[i];
    if e.Issued? {
      UnbornNeverMinted(log, e.token, ttl, at);
    }
    forall t ensures MintedOnce(r, t) {
      assert MintedOnce(log, t);
      forall i: nat, j: nat | MintedAt(r, i, t) && MintedAt(r, j, t) ensures i == j {
        assert i < |log| ==> MintedAt(log, i, t);
        assert j < |log| ==> MintedAt(log, j, t);
      }
    }
  }

  /** A token is lost without an event that says so only by standing idle. */
  predicate Expired(log: seq<Event>, i: nat, n: nat, ttl: real)
    requires i < n <= |log| && log[i].Issued?
  {
    exists j :: i < j < n && log[j].Checked? && log[j].at - LastRefresh(log, i, n) > ttl
  }

  lemma {:induction false} FateBeforeMint(log: seq<Event>, n: nat, token: string, ttl: real)
    requires n <= |log| && forall j :: 0 <= j < n ==> !MintedAt(log, j, token)
    ensures FateOf(log[..n], token, ttl).Unborn?
  {
    if n > 0 {
      assert log[..n][..n - 1] == log[..n - 1];
      FateBeforeMint(log, n - 1, token, ttl);
      assert !MintedAt(log, n - 1, token);
    }
  }

  lemma {:induction false} FateFromMint(log: seq<Event>, i: nat, n: nat, token: string, ttl: real, at: real)
    requires MintedAt(log, i, token) && i < n <= |log| && MintedOnce(log, token) && Ordered(log, at)
    ensures Told(log, i, n, FateOf(log[..n], token, ttl), ttl)
  {
    assert log[..n][..n - 1] == log[..n - 1];
    if n == i + 1 {
      FateBeforeMint(log, i, token, ttl);
    } else {
      FateFromMint(log, i, n - 1, token, ttl, at);
      assert n - 1 > i && !MintedAt(log, n - 1, token);
      FateStep(log, i, n, token, ttl, at);
    }
  }

  /** What the fate before an event says, and what it says after it. */
  ghost predicate Told(log: seq<Event>, i: nat, n: nat, f: Fate, ttl: real)
    requires i < n <= |log| && log[i].Issued?
  {
    match f
    case Unborn => false
    case Alive(fp, use) => Standing(log, i, n, ttl) && fp == log[i].fingerprint && use == LastRefresh(log, i, n)
    case Lost => !Standing(log, i, n, ttl) || Expired(log, i, n, ttl)
  }

  lemma FateStep(log: seq<Event>, i: nat, n: nat, token: string, ttl: real, at: real)
    requires MintedAt(log, i, token) && i < n - 1 && n <= |log| && !MintedAt(log, n - 1, token) && Ordered(log, at)
    requires Told(log, i, n - 1, FateOf(log[..n - 1], token, ttl), ttl)
    ensures Told(log, i, n, Next(FateOf(log[..n - 1], token, ttl), log[n - 1], token, ttl), ttl)
  {
    var e, g := log[n - 1], FateOf(log[..n - 1], token, ttl);
    if Standing(log, i, n, ttl) {
      assert Standing(log, i, n - 1, ttl) && Harmless(log, i, n - 1, ttl);
      if g.Lost? {
        var j :| i < j < n - 1 && log[j].Checked? && log[j].at - LastRefresh(log, i, n - 1) > ttl;
        assert TimeOf(e).Some? ==> TimeOf(log[j]).value <= TimeOf(e).value;
        assert LastRefresh(log, i, n) == LastRefresh(log, i, n - 1);
      }
    }
  }

  /** The token was issued, never revoked, evicted or cleared since, every check so
      far presented the fingerprint it was minted under, and no gap between a client's
      uses of it, the present one included, is longer than the TTL. */
  ghost predicate Entitled(log: seq<Event>, token: string, fingerprint: string, ttl: real, at: real) {
    exists i: nat :: MintedAt(log, i, token) && Standing(log, i, |log|, ttl)
                     && fingerprint == log[i].fingerprint && at - LastRefresh(log, i, |log|) <= ttl
  }

  /** The table's answer is the one the whole history gives. */
  lemma AcceptedExactly(log: seq<Event>, token: string, fingerprint: string, ttl: real, at: real)
    requires MintedOnce(log, token) && Ordered(log, at)
    ensures Accepts(FateOf(log, token, ttl), fingerprint, ttl, at) <==> Entitled(log, token, fingerprint, ttl, at)
  {
    assert log[..|log|] == log;
    if i: nat :| MintedAt(log, i, token) {
      FateFromMint(log, i, |log|, token, ttl, at);
      if FateOf(log, token, ttl).Lost? && Standing(log, i, |log|, ttl) {
        var j :| i < j < |log| && log[j].Checked? && log[j].at - LastRefresh(log, i, |log|) > ttl;
        assert TimeOf(log[j]).value <= at;
      }
    } else {
      FateBeforeMint(log, |log|, token, ttl);
    }
  }

  /** A token once issued and then rejected is rejected forever: whatever happens
      afterwards, and whatever fingerprint is presented, its mint's own included. */
  lemma {:induction false} RejectedForever(
    log: seq<Event>, token: string, fp: string, refresh: bool, now: real, more: seq<Event>, fp': string, ttl: real, at: real)
    requires !FateOf(log, token, ttl).Unborn? && !Accepts(FateOf(log, token, ttl), fp, ttl, now)
    ensures !Accepts(FateOf(log + [Checked(token, fp, refresh, now)] + more, token, ttl), fp', ttl, at)
  {
    FateGrows(log, Checked(token, fp, refresh, now), ttl);
    StaysLost(log + [Checked(token, fp, refresh, now)], more, token, ttl);
  }

  lemma {:induction false} StaysLost(log: seq<Event>, more: seq<Event>, token: string, ttl: real)
    requires FateOf(log, token, ttl).Lost?
    ensures FateOf(log + more, token, ttl).Lost?
  {
    if more == [] {
      assert log + more == log;
    } else {
      var front, last := more[..|more| - 1], more[|more| - 1];
      StaysLost(log, front, token, ttl);
      FateGrows(log + front, last, ttl);
      assert log + more == log + front + [last];
    }
  }

  /** A check that is not the client's own use never extends a token's life. */
  lemma BackgroundCheckNeverExtends(
    log: seq<Event>, token: string, fp: string, now: real, other: string, fp': string, ttl: real, at: real)
    ensures Accepts(FateOf(log + [Checked(token, fp, false, now)], other, ttl), fp', ttl, at) ==>
              Accepts(FateOf(log, other, ttl), fp', ttl, at)
  {
    FateGrows(log, Checked(token, fp, false, now), ttl);
  }
}
