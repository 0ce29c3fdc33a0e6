/** Following the chosen adapter: a restart when its addresses have changed,
    confirmed over several checks, once per process. */
module ListenWatcher {
  import opened Text
  import opened Listen
  import opened ListenSockets

  /** One poll: the enumeration failed, or it completed with these adapters and
      these addresses answering a trial bind. */
  datatype Check = Failed | Completed(found: seq<Adapter>, bindable: set<string>)

  /** What a completed check shows against what this process resolved. */
  datatype Difference = Same | Usable | Moved(addresses: seq<string>)

  function Enumerated(plan: ListenPlan): seq<string> {
    Undropped(plan.interfaces, {})
  }

  function Fresh(plan: ListenPlan, found: seq<Adapter>): seq<string> {
    Resolve(plan.choice, found).NetworkAddresses()
  }

  /** The addresses the bind refused that the adapter still has. */
  function StillRefused(plan: ListenPlan, found: seq<Adapter>): set<string> {
    set ip | ip in plan.dropped && ip in Fresh(plan, found)
  }

  function DifferenceOf(plan: ListenPlan, found: seq<Adapter>, bindable: set<string>): Difference {
    if plan.choice.mode != OneAdapter then Same
    else if Fresh(plan, found) != Enumerated(plan) then Moved(Fresh(plan, found))
    else if StillRefused(plan, found) != {} && StillRefused(plan, found) <= bindable then Usable
    else Same
  }

  /** The last `n` of these all show `d`. */
  predicate Confirmed(seen: seq<Difference>, n: nat, d: Difference) {
    n <= |seen| && forall i :: |seen| - n <= i < |seen| ==> seen[i] == d
  }

  /** The last `n` of these all show one same difference. */
  ghost predicate Streak(seen: seq<Difference>, n: nat) {
    exists d :: d != Same && Confirmed(seen, n, d)
  }

  /** The tuple `_seen` compares: the new addresses, or a marker before the same
      ones once the refused are usable. */
  function KeyOf(plan: ListenPlan, d: Difference): Option<seq<string>> {
    match d
    case Same => None
    case Usable => Some(["usable"] + Enumerated(plan))
    case Moved(addresses) => Some(addresses)
  }

  // ---------------------------------------------------------------------
  // The same, read off the adapters
  // ---------------------------------------------------------------------

  /** Each of these checks found the adapter with one same list of addresses, which
      is not the one this process resolved. */
  ghost predicate AllMovedAlike(plan: ListenPlan, checks: seq<Check>) {
    exists now :: now != AddressesOf(plan.interfaces) && AllFound(plan.choice, checks, now)
  }

  predicate AllFound(choice: ListenChoice, checks: seq<Check>, addresses: seq<string>) {
    forall c <- checks :: c.Completed? && AddressesNow(choice, c.found) == addresses
  }

  /** Each of these checks found the addresses this process resolved, some of them
      refused by its bind, and all of the refused usable now. */
  predicate AllUsable(plan: ListenPlan, checks: seq<Check>) {
    var own := AddressesOf(plan.interfaces);
    && (exists ip <- own :: ip in plan.dropped)
    && forall c <- checks ::
         && c.Completed? && AddressesNow(plan.choice, c.found) == own
         && forall ip <- own :: ip in plan.dropped ==> ip in c.bindable
  }

  /** The latest `n` of these checks are a reason to restart. */
  ghost predicate Reason(plan: ListenPlan, checks: seq<Check>, n: nat) {
    && plan.choice.mode == OneAdapter && n <= |checks|
    && var latest := checks[|checks| - n..];
       AllMovedAlike(plan, latest) || AllUsable(plan, latest)
  }

  /** One check, read off the adapters. */
  lemma ShownBy(plan: ListenPlan, found: seq<Adapter>, bindable: set<string>)
    requires plan.choice.mode == OneAdapter
    ensures var d, now, own := DifferenceOf(plan, found, bindable), AddressesNow(plan.choice, found), AddressesOf(plan.interfaces);
            && (forall addresses :: d == Moved(addresses) <==> addresses == now && now != own)
            && (d == Usable <==>
                  && now == own && (exists ip <- own :: ip in plan.dropped)
                  && forall ip <- own :: ip in plan.dropped ==> ip in bindable)
  {
    FreshIsNow(plan.choice, found);
    UndroppedNone(plan.interfaces);
    var refused := StillRefused(plan, found);
    assert forall ip :: ip in refused <==> ip in plan.dropped && ip in Fresh(plan, found);
  }

  predicate ShowsAt(plan: ListenPlan, checks: seq<Check>, shown: seq<Difference>, i: int) {
    0 <= i < |checks| && i < |shown| ==>
      checks[i].Completed? && shown[i] == DifferenceOf(plan, checks[i].found, checks[i].bindable)
  }

  /** What each of these checks shows. */
  ghost predicate ShownOf(plan: ListenPlan, checks: seq<Check>, shown: seq<Difference>) {
    |shown| == |checks| && forall i :: ShowsAt(plan, checks, shown, i)
  }

  lemma ShownTail(plan: ListenPlan, checks: seq<Check>, shown: seq<Difference>, n: nat)
    requires ShownOf(plan, checks, shown) && n <= |checks|
    ensures ShownOf(plan, checks[|checks| - n..], shown[|shown| - n..])
  {
    var latest, tail := checks[|checks| - n..], shown[|shown| - n..];
    forall i ensures ShowsAt(plan, latest, tail, i) {
      assert ShowsAt(plan, checks, shown, i + |checks| - n);
    }
  }

  lemma ShownNext(plan: ListenPlan, checks: seq<Check>, shown: seq<Difference>, found: seq<Adapter>, bindable: set<string>)
    requires ShownOf(plan, checks, shown)
    ensures ShownOf(plan, checks + [Completed(found, bindable)], shown + [DifferenceOf(plan, found, bindable)])
  {
    var grown, after := checks + [Completed(found, bindable)], shown + [DifferenceOf(plan, found, bindable)];
    forall i ensures ShowsAt(plan, grown, after, i) {
      assert ShowsAt(plan, checks, shown, i);
    }
  }

  predicate AllAre(shown: seq<Difference>, d: Difference) {
    forall e <- shown :: e == d
  }

  lemma MovedAlikeShown(plan: ListenPlan, checks: seq<Check>, shown: seq<Difference>)
    requires ShownOf(plan, checks, shown) && plan.choice.mode == OneAdapter && checks != []
    ensures AllMovedAlike(plan, checks) <==> exists a :: AllAre(shown, Moved(a))
  {
    forall i | 0 <= i < |checks|
      ensures checks[i].Completed?
      ensures forall a :: shown[i] == Moved(a) <==>
                a == AddressesNow(plan.choice, checks[i].found) && a != AddressesOf(plan.interfaces)
    {
      assert ShowsAt(plan, checks, shown, i);
      ShownBy(plan, checks[i].found, checks[i].bindable);
    }
    if AllMovedAlike(plan, checks) {
      var now :| now != AddressesOf(plan.interfaces) && AllFound(plan.choice, checks, now);
      assert forall i :: 0 <= i < |shown| ==> checks[i] in checks && shown[i] == Moved(now);
      assert AllAre(shown, Moved(now));
    }
    if a :| AllAre(shown, Moved(a)) {
      assert shown[0] in shown;
      forall c <- checks ensures c.Completed? && AddressesNow(plan.choice, c.found) == a {
        var i :| 0 <= i < |checks| && checks[i] == c;
        assert shown[i] in shown;
      }
      assert AllFound(plan.choice, checks, a);
    }
  }

  lemma UsableShown(plan: ListenPlan, checks: seq<Check>, shown: seq<Difference>)
    requires ShownOf(plan, checks, shown) && plan.choice.mode == OneAdapter && checks != []
    ensures AllUsable(plan, checks) <==> AllAre(shown, Usable)
  {
    forall i | 0 <= i < |checks|
      ensures shown[i] == Usable <==> AllUsable(plan, [checks[i]])
    {
      assert ShowsAt(plan, checks, shown, i);
      ShownBy(plan, checks[i].found, checks[i].bindable);
      assert forall c <- [checks[i]] :: c == checks[i];
      assert checks[i] in [checks[i]];
    }
    if AllUsable(plan, checks) {
      forall i | 0 <= i < |shown| ensures shown[i] == Usable {
        assert checks[i] in checks;
        assert AllUsable(plan, [checks[i]]);
      }
    }
    if AllAre(shown, Usable) {
      assert shown[0] in shown && AllUsable(plan, [checks[0]]);
      forall c <- checks ensures AllUsable(plan, [c]) && c in [c] {
        var i :| 0 <= i < |checks| && checks[i] == c;
        assert shown[i] in shown;
      }
    }
  }

  lemma MovedStreak(plan: ListenPlan, checks: seq<Check>, shown: seq<Difference>, n: nat)
    requires ShownOf(plan, checks, shown) && 1 <= n <= |checks| && plan.choice.mode == OneAdapter
    ensures AllMovedAlike(plan, checks[|checks| - n..]) <==> exists a :: Confirmed(shown, n, Moved(a))
  {
    var latest, tail := checks[|checks| - n..], shown[|shown| - n..];
    ShownTail(plan, checks, shown, n);
    MovedAlikeShown(plan, latest, tail);
    forall a ensures Confirmed(shown, n, Moved(a)) <==> AllAre(tail, Moved(a)) {
      ConfirmedTail(shown, tail, n, Moved(a));
    }
  }

  lemma UsableStreak(plan: ListenPlan, checks: seq<Check>, shown: seq<Difference>, n: nat)
    requires ShownOf(plan, checks, shown) && 1 <= n <= |checks| && plan.choice.mode == OneAdapter
    ensures AllUsable(plan, checks[|checks| - n..]) <==> Confirmed(shown, n, Usable)
  {
    var latest, tail := checks[|checks| - n..], shown[|shown| - n..];
    ShownTail(plan, checks, shown, n);
    UsableShown(plan, latest, tail);
    ConfirmedTail(shown, tail, n, Usable);
  }

  lemma StreakKinds(shown: seq<Difference>, n: nat)
    ensures Streak(shown, n) <==> Confirmed(shown, n, Usable) || exists a :: Confirmed(shown, n, Moved(a))
  {
    if d :| d != Same && Confirmed(shown, n, d) {
      assert d == Usable || d == Moved(d.addresses);
    }
  }

  lemma NoStreak(plan: ListenPlan, checks: seq<Check>, shown: seq<Difference>, n: nat)
    requires ShownOf(plan, checks, shown) && n >= 1 && (n > |checks| || plan.choice.mode != OneAdapter)
    ensures !Streak(shown, n)
  {
    if 1 <= n <= |checks| {
      assert ShowsAt(plan, checks, shown, |checks| - 1);
      NothingShown(shown);
    }
  }

  /** The streaks `_seen` counts are the reasons. */
  lemma StreakIsReason(plan: ListenPlan, checks: seq<Check>, shown: seq<Difference>, n: nat)
    requires ShownOf(plan, checks, shown) && n >= 1
    ensures Reason(plan, checks, n) <==> Streak(shown, n)
  {
    if n <= |checks| && plan.choice.mode == OneAdapter {
      MovedStreak(plan, checks, shown, n);
      UsableStreak(plan, checks, shown, n);
      StreakKinds(shown, n);
    } else {
      NoStreak(plan, checks, shown, n);
    }
  }

  lemma ConfirmedTail(shown: seq<Difference>, tail: seq<Difference>, n: nat, d: Difference)
    requires n <= |shown| && tail == shown[|shown| - n..]
    ensures Confirmed(shown, n, d) <==> AllAre(tail, d)
  {
    assert forall i :: |shown| - n <= i < |shown| ==> shown[i] == tail[i - (|shown| - n)] && shown[i] in tail;
    assert forall e <- tail :: exists i :: |shown| - n <= i < |shown| && shown[i] == e;
  }

  /** No adapter address is the word that marks a usable one. */
  predicate PlainAddresses(found: seq<Adapter>) {
    forall a <- found :: "usable" !in a.Ips()
  }

  lemma FreshIsPlain(plan: ListenPlan, found: seq<Adapter>)
    requires PlainAddresses(found)
    ensures "usable" !in Fresh(plan, found)
  {
    if plan.choice.mode == OneAdapter && "usable" in Fresh(plan, found) {
      ResolvedWithinChosen(plan.choice, found, {}, "usable");
    }
  }

  /** What `_seen` and `_count` hold after these. */
  ghost predicate Counts(plan: ListenPlan, shown: seq<Difference>, seen: Option<seq<string>>, count: nat) {
    if shown == [] || shown[|shown| - 1].Same? then seen == None && count == 0
    else
      && seen == KeyOf(plan, shown[|shown| - 1])
      && count >= 1 && Confirmed(shown, count, shown[|shown| - 1])
      && !Confirmed(shown, count + 1, shown[|shown| - 1])
  }

  predicate Plain(d: Difference) {
    d.Moved? ==> "usable" !in d.addresses
  }

  lemma StreakNext(
    plan: ListenPlan, earlier: seq<Difference>, seen: Option<seq<string>>, count: nat, d: Difference, n: nat)
    requires Counts(plan, earlier, seen, count) && (forall e <- earlier :: Plain(e)) && Plain(d) && n >= 1
    ensures var key := KeyOf(plan, d);
            var now: nat := if key.None? then 0 else if key != seen then 1 else count + 1;
            Counts(plan, earlier + [d], key, now) && (Streak(earlier + [d], n) <==> now >= n)
  {
    var key, shown := KeyOf(plan, d), earlier + [d];
    if key.None? {
      NothingShown(shown);
    } else {
      if earlier != [] && key == seen {
        assert earlier[|earlier| - 1] in earlier;
        SameKeySameDifference(plan, earlier[|earlier| - 1], d);
      }
      var now := if key != seen then 1 else count + 1;
      StreakGrows(earlier, now - 1, d);
      OnlyLastConfirmed(shown, n, d);
      ShorterStreak(shown, now, n, d);
    }
  }

  /** What the process keeps of its checks. */
  ghost predicate Recorded(
    plan: ListenPlan, checks: seq<Check>, shown: seq<Difference>, seen: Option<seq<string>>, count: nat)
  {
    ShownOf(plan, checks, shown) && (forall d <- shown :: Plain(d)) && Counts(plan, shown, seen, count)
  }

  lemma CheckNext(
    plan: ListenPlan, checks: seq<Check>, shown: seq<Difference>, seen: Option<seq<string>>, count: nat,
    found: seq<Adapter>, bindable: set<string>, n: nat)
    requires Recorded(plan, checks, shown, seen, count) && PlainAddresses(found) && n >= 1
    ensures var d := DifferenceOf(plan, found, bindable);
            var key := KeyOf(plan, d);
            var now: nat := if key.None? then 0 else if key != seen then 1 else count + 1;
            && Recorded(plan, checks + [Completed(found, bindable)], shown + [d], key, now)
            && (Reason(plan, checks + [Completed(found, bindable)], n) <==> now >= n)
  {
    var d := DifferenceOf(plan, found, bindable);
    FreshIsPlain(plan, found);
    assert Plain(d);
    StreakNext(plan, shown, seen, count, d, n);
    ShownNext(plan, checks, shown, found, bindable);
    StreakIsReason(plan, checks + [Completed(found, bindable)], shown + [d], n);
  }

  class ListenWatcher {
    const plan: ListenPlan
    const confirmPolls: nat
    var seen: Option<seq<string>>
    var count: nat
    var restarting: bool
    ghost var restarts: nat
    ghost var checks: seq<Check>  // each completed check, while watching
    ghost var shown: seq<Difference>  // what it showed

    ghost predicate Valid()
      reads this
    {
      && confirmPolls >= 1
      && restarts == (if restarting then 1 else 0)
      && (!restarting ==> Recorded(plan, checks, shown, seen, count) && count < confirmPolls)
    }

    constructor (plan: ListenPlan, confirmPolls: int)
      ensures Valid() && this.plan == plan && this.confirmPolls == (if confirmPolls > 1 then confirmPolls else 1)
      ensures checks == [] && !restarting
    {
      this.plan := plan;
      this.confirmPolls := if confirmPolls > 1 then confirmPolls else 1;
      seen, count, restarting := None, 0, false;
      restarts, checks, shown := 0, [], [];
    }

    /** What this check shows, as the tuple that is compared; none for no difference. */
    method KeyNow(found: seq<Adapter>, bindable: set<string>) returns (key: Option<seq<string>>)
      ensures key == KeyOf(plan, DifferenceOf(plan, found, bindable))
    {
      if plan.choice.mode != OneAdapter {
        return None;
      }
      var now, before := Fresh(plan, found), Enumerated(plan);
      if now != before {
        return Some(now);
      }
      var refused := StillRefused(plan, found);
      if refused == {} || !(refused <= bindable) {
        return None;
      }
      key := Some(["usable"] + now);
    }

    /** `_check_adapter`: true for a reason to restart, which is when the latest
        `confirmPolls` completed checks found the adapter with one same list of
        addresses that is not the one resolved at the start, or all found that one with
        every address its bind refused usable. */
    method CheckAdapter(found: seq<Adapter>, bindable: set<string>) returns (reason: bool)
      requires Valid() && !restarting && PlainAddresses(found)
      modifies this`seen, this`count, this`checks, this`shown
      ensures checks == old(checks) + [Completed(found, bindable)]
      ensures reason <==> Reason(plan, checks, confirmPolls)
      ensures !reason ==> Valid()
    {
      var key := KeyNow(found, bindable);
      CheckNext(plan, checks, shown, seen, count, found, bindable, confirmPolls);
      checks, shown := checks + [Completed(found, bindable)], shown + [DifferenceOf(plan, found, bindable)];
      reason := Count(key);
    }

    /** The streak so far: a check that shows another difference begins a new one, and
        one that shows none ends it. */
    method Count(key: Option<seq<string>>) returns (confirmed: bool)
      requires confirmPolls >= 1
      modifies this`seen, this`count
      ensures seen == key
      ensures count == if key.None? then 0 else if key != old(seen) then 1 else old(count) + 1
      ensures confirmed <==> count >= confirmPolls
    {
      if key.None? {
        seen, count := None, 0;
        return false;
      }
      if key != seen {
        seen, count := key, 0;
      }
      count := count + 1;
      confirmed := count >= confirmPolls;
    }

    /** `tick`: a restart fires exactly when the completed checks are a reason for one,
        and only the first time. A failed poll changes nothing. */
    method Tick(check: Check) returns (restarted: bool)
      requires Valid() && (check.Completed? ==> PlainAddresses(check.found))
      modifies this
      ensures Valid()
      ensures check.Failed? || old(restarting) ==> !restarted && checks == old(checks) && restarts == old(restarts)
      ensures check.Completed? && !old(restarting) ==>
                checks == old(checks) + [check] && (restarted <==> Reason(plan, checks, confirmPolls))
      ensures restarting == (old(restarting) || restarted)
    {
      if restarting || check.Failed? { return false; }
      restarted := CheckAdapter(check.found, check.bindable);
      if restarted {
        restarting := true;
        restarts := restarts + 1;
      }
    }
  }

  lemma NothingShown(shown: seq<Difference>)
    requires shown != [] && shown[|shown| - 1] == Same
    ensures forall n: nat :: n >= 1 ==> !Streak(shown, n)
  {
    forall n: nat, d | n >= 1 && d != Same ensures !Confirmed(shown, n, d) {
      assert shown[|shown| - 1] != d;
    }
  }

  lemma OnlyLastConfirmed(shown: seq<Difference>, n: nat, d: Difference)
    requires n >= 1 && shown != [] && shown[|shown| - 1] == d && d != Same
    ensures Streak(shown, n) <==> Confirmed(shown, n, d)
  {
    forall e | e != d ensures !Confirmed(shown, n, e) {
      assert shown[|shown| - 1] != e;
    }
  }

  /** A streak of exactly `count` confirms `n` of them when it is as long. */
  lemma ShorterStreak(shown: seq<Difference>, count: nat, n: nat, d: Difference)
    requires Confirmed(shown, count, d) && !Confirmed(shown, count + 1, d)
    ensures Confirmed(shown, n, d) <==> count >= n
  {
    if count + 1 <= |shown| {
      var i :| |shown| - (count + 1) <= i < |shown| && shown[i] != d;
    }
  }

  lemma SameKeySameDifference(plan: ListenPlan, a: Difference, b: Difference)
    requires a.Moved? ==> "usable" !in a.addresses
    requires b.Moved? ==> "usable" !in b.addresses
    requires KeyOf(plan, a) == KeyOf(plan, b)
    ensures a == b
  {
    var marked := ["usable"] + Enumerated(plan);
    assert marked[0] == "usable";
  }

  lemma StreakGrows(earlier: seq<Difference>, n: nat, d: Difference)
    requires n > 0 ==> Confirmed(earlier, n, d) && !Confirmed(earlier, n + 1, d)
    requires n == 0 ==> earlier == [] || earlier[|earlier| - 1] != d
    ensures Confirmed(earlier + [d], n + 1, d) && !Confirmed(earlier + [d], n + 2, d)
  {
    var s := earlier + [d];
    if n + 1 <= |earlier| {
      var i :| |earlier| - (n + 1) <= i < |earlier| && earlier[i] != d;
      assert s[i] != d;
    }
  }

  // ---------------------------------------------------------------------
  // No restart loop, and no change left alone
  // ---------------------------------------------------------------------

  /** A start on these adapters, whatever the bind then refused of it, resolved the
      addresses the chosen adapter had then. */
  lemma ResolvedThen(choice: ListenChoice, adapters: seq<Adapter>, refused: set<string>)
    requires choice.mode == OneAdapter
    ensures var plan := Resolve(choice, adapters).Without(refused);
            && plan.choice == choice && plan.dropped == refused
            && AddressesOf(plan.interfaces) == AddressesNow(choice, adapters)
  {
    var base := Resolve(choice, adapters);
    FreshIsNow(choice, adapters);
    assert base.choice == choice && base.dropped + refused == refused;
  }

  /** A poll that failed, or found the adapter as it was while some address the bind
      refused stays unusable. */
  predicate Quiet(choice: ListenChoice, adapters: seq<Adapter>, refused: set<string>, check: Check) {
    check.Completed? && choice.mode == OneAdapter ==>
      && AddressesNow(choice, check.found) == AddressesNow(choice, adapters)
      && ((forall ip <- AddressesNow(choice, adapters) :: ip !in refused)
          || exists ip <- AddressesNow(choice, adapters) :: ip in refused && ip !in check.bindable)
  }

  /** Such a poll, as the latest one, is no reason to restart: what the bind refused
      never looks like a change. */
  lemma BindsNeverLookLikeChanges(
    choice: ListenChoice, adapters: seq<Adapter>, refused: set<string>, checks: seq<Check>, n: nat)
    requires checks != [] && n >= 1 && Quiet(choice, adapters, refused, checks[|checks| - 1])
    ensures !Reason(Resolve(choice, adapters).Without(refused), checks, n)
  {
    var plan := Resolve(choice, adapters).Without(refused);
    if choice.mode == OneAdapter && n <= |checks| {
      ResolvedThen(choice, adapters, refused);
      var latest := checks[|checks| - n..];
      assert latest[n - 1] == checks[|checks| - 1] && latest[n - 1] in latest;
    }
  }

  /** No number of polls restarts a server whose adapter stays as it was while an
      address its bind refused stays unusable. */
  method WatchUnchanged(
    w: ListenWatcher, ghost choice: ListenChoice, ghost refused: set<string>,
    ghost adapters: seq<Adapter>, polls: seq<Check>)
    requires w.Valid() && w.checks == [] && !w.restarting
    requires w.plan == Resolve(choice, adapters).Without(refused)
    requires forall c <- polls :: Quiet(choice, adapters, refused, c) && (c.Completed? ==> PlainAddresses(c.found))
    modifies w
    ensures w.restarts == 0
  {
    for i := 0 to |polls|
      invariant w.Valid() && !w.restarting
    {
      assert polls[i] in polls;
      var restarted := w.Tick(polls[i]);
      if polls[i].Completed? {
        BindsNeverLookLikeChanges(choice, adapters, refused, w.checks, w.confirmPolls);
      }
    }
  }

  function CompletedOf(polls: seq<Check>): nat {
    if polls == [] then 0
    else CompletedOf(polls[..|polls| - 1]) + if polls[|polls| - 1].Completed? then 1 else 0
  }

  lemma OneMoreFound(
    plan: ListenPlan, checks: seq<Check>, from: nat, check: Check, now: seq<string>, n: nat)
    requires plan.choice.mode == OneAdapter && now != AddressesOf(plan.interfaces) && n >= 1
    requires from <= |checks| && AllFound(plan.choice, checks[from..], now)
    requires check.Completed? && AddressesNow(plan.choice, check.found) == now
    ensures AllFound(plan.choice, (checks + [check])[from..], now)
    ensures |checks| + 1 - from >= n ==> Reason(plan, checks + [check], n)
  {
    var after := checks + [check];
    assert after[from..] == checks[from..] + [check];
    if |after| - from >= n {
      var latest := after[|after| - n..];
      assert forall c <- latest :: c in after[from..];
      assert AllFound(plan.choice, latest, now);
    }
  }

  /** A change that stays is followed: once the chosen adapter has another list of
      addresses than it had at the start, or none where it had some, or some where it
      had none, `confirmPolls` completed polls that find it so restart the server. */
  method WatchChanged(
    w: ListenWatcher, ghost choice: ListenChoice, ghost refused: set<string>,
    ghost adapters: seq<Adapter>, polls: seq<Check>, ghost now: seq<string>)
    requires w.Valid() && !w.restarting && choice.mode == OneAdapter
    requires w.plan == Resolve(choice, adapters).Without(refused)
    requires now != AddressesNow(choice, adapters)
    requires forall c <- polls :: c.Completed? ==> PlainAddresses(c.found) && AddressesNow(choice, c.found) == now
    modifies w
    ensures CompletedOf(polls) >= w.confirmPolls ==> w.restarts == 1
  {
    ghost var from := |w.checks|;
    ResolvedThen(choice, adapters, refused);
    for i := 0 to |polls|
      invariant w.Valid() && from <= |w.checks|
      invariant !w.restarting ==>
                  |w.checks| - from == CompletedOf(polls[..i]) < w.confirmPolls
                  && AllFound(choice, w.checks[from..], now)
    {
      assert polls[i] in polls && polls[..i + 1][..i] == polls[..i];
      if polls[i].Completed? && !w.restarting {
        OneMoreFound(w.plan, w.checks, from, polls[i], now, w.confirmPolls);
      }
      var restarted := w.Tick(polls[i]);
    }
    assert polls[..|polls|] == polls;
  }
}
