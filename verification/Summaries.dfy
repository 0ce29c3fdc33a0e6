/** What a command's window shows in short: its traffic cut for the live view, and
    the values that moved. Neither loses anything silently. */
module Summaries {
  import opened Text

  // ---------------------------------------------------------------------
  // The command's own message
  // ---------------------------------------------------------------------

  /** A traffic entry: sent to the device or not, a raw chunk or a whole message. */
  datatype Entry = Entry(id: nat, sent: bool, chunk: bool)

  predicate Request(e: Entry) {
    e.sent && !e.chunk
  }

  function NonChunk(window: seq<Entry>): seq<Entry> {
    if window == [] then []
    else NonChunk(window[..|window| - 1]) + if window[|window| - 1].chunk then [] else [window[|window| - 1]]
  }

  /** Where in the window without its chunks the entry at `i` is. */
  lemma {:induction false} RankInNonChunk(window: seq<Entry>, i: nat)
    requires i < |window| && !window[i].chunk
    ensures |NonChunk(window[..i])| < |NonChunk(window)|
    ensures NonChunk(window)[|NonChunk(window[..i])|] == window[i]
  {
    var n := |window| - 1;
    if i < n {
      RankInNonChunk(window[..n], i);
      assert window[..n][..i] == window[..i];
    }
  }

  /** The places, counted from `start` in the device's list, of a window's requests. */
  function Placed(window: seq<Entry>, start: nat): seq<nat> {
    if window == [] then []
    else
      var n := |window| - 1;
      Placed(window[..n], start) + if Request(window[n]) then [start + n] else []
  }

  ghost predicate Rising(s: seq<nat>) {
    forall i, j :: 0 <= i < j < |s| ==> s[i] < s[j]
  }

  lemma {:induction false} PlacedRises(window: seq<Entry>, start: nat)
    ensures Rising(Placed(window, start))
    ensures forall i :: 0 <= i < |Placed(window, start)| ==> Placed(window, start)[i] < start + |window|
  {
    if window != [] {
      PlacedRises(window[..|window| - 1], start);
    }
  }

  lemma {:induction false} PlacedIsExact(window: seq<Entry>, start: nat)
    ensures forall at :: at in Placed(window, start) <==>
              start <= at < start + |window| && Request(window[at - start])
  {
    if window != [] {
      var n := |window| - 1;
      PlacedIsExact(window[..n], start);
      forall at ensures at in Placed(window, start) <==> start <= at < start + |window| && Request(window[at - start]) {
        if start <= at < start + n {
          assert window[..n][at - start] == window[at - start];
        }
      }
    }
  }

  /** How many of the placed requests went out before the call returned. */
  function Before(placed: seq<nat>, returned: nat): (n: nat)
    ensures n <= |placed|
  {
    if placed == [] || placed[0] >= returned then 0 else 1 + Before(placed[1..], returned)
  }

  lemma {:induction false} BeforeSplits(placed: seq<nat>, returned: nat)
    requires Rising(placed)
    ensures forall i :: 0 <= i < |placed| ==> (placed[i] < returned <==> i < Before(placed, returned))
  {
    if placed != [] && placed[0] < returned {
      BeforeSplits(placed[1..], returned);
      forall i | 0 <= i < |placed| ensures placed[i] < returned <==> i < Before(placed, returned) {
        if i > 0 {
          assert placed[i] == placed[1..][i - 1];
        }
      }
    }
  }

  /** `_own_send`: which request is the command's own message. The last one sent
      before the call returned, else the first after it. */
  function OwnRequest(placed: seq<nat>, returned: nat): Option<nat> {
    var n := Before(placed, returned);
    if 0 < n then Some(n - 1) else if placed != [] then Some(0) else None
  }

  /** In words: the latest of those sent before the call returned, and where none was,
      the first of all. */
  lemma OwnRequestIs(placed: seq<nat>, returned: nat)
    requires Rising(placed)
    ensures match OwnRequest(placed, returned)
            case None => placed == []
            case Some(k) =>
              && k < |placed|
              && if exists at <- placed :: at < returned then
                   placed[k] < returned && forall at <- placed :: at <= placed[k] || at >= returned
                 else k == 0
  {
    BeforeSplits(placed, returned);
    var n := Before(placed, returned);
    if n > 0 {
      assert placed[n - 1] in placed;
    }
  }

  /** Where that message is among the window's whole messages; 0 when there is none. */
  function OwnSend(window: seq<Entry>, start: nat, returned: nat): nat {
    var placed := Placed(window, start);
    var own := OwnRequest(placed, returned);
    if own.None? || !(start <= placed[own.value] <= start + |window|) then 0
    else |NonChunk(window[..placed[own.value] - start])|
  }

  lemma OwnSendIsARequest(window: seq<Entry>, start: nat, returned: nat)
    requires Placed(window, start) != []
    ensures OwnSend(window, start, returned) < |NonChunk(window)|
    ensures Request(NonChunk(window)[OwnSend(window, start, returned)])
  {
    var placed := Placed(window, start);
    PlacedIsExact(window, start);
    PlacedRises(window, start);
    BeforeSplits(placed, returned);
    var at := placed[OwnRequest(placed, returned).value];
    assert at in placed;
    RankInNonChunk(window, at - start);
  }

  // ---------------------------------------------------------------------
  // The live view of the traffic
  // ---------------------------------------------------------------------

  const LIVE_ENTRIES := 40
  const LIVE_HEAD := 20

  /** `count` entries left out before the shown entry at `before`. */
  datatype Gap = Gap(before: nat, count: nat)

  /** Where the shown head begins: at the command's own message, kept in range. */
  function HeadStart(length: nat, own: int): nat
    requires length > LIVE_ENTRIES
  {
    if own < 0 then 0 else if own > length - LIVE_ENTRIES then length - LIVE_ENTRIES else own
  }

  /** What is left out: before the shown head, and between it and the newest. */
  function Gaps(length: nat, own: int): seq<Gap> {
    if length <= LIVE_ENTRIES then []
    else
      var from := HeadStart(length, own);
      var middle := length - LIVE_ENTRIES - from;
      (if from > 0 then [Gap(0, from)] else []) + if middle > 0 then [Gap(LIVE_HEAD, middle)] else []
  }

  function Shown<T>(traffic: seq<T>, own: int): seq<T> {
    if |traffic| <= LIVE_ENTRIES then traffic
    else
      var from := HeadStart(|traffic|, own);
      traffic[from..from + LIVE_HEAD] + traffic[|traffic| - (LIVE_ENTRIES - LIVE_HEAD)..]
  }

  /** `live_traffic`. */
  function LiveTraffic<T>(traffic: seq<T>, own: int): (seq<T>, seq<Gap>) {
    (Shown(traffic, own), Gaps(|traffic|, own))
  }

  /** The entries left out at or before the shown entry at `k`. */
  function LeftOutBefore(gaps: seq<Gap>, k: nat): nat {
    if gaps == [] then 0
    else (if gaps[0].before <= k then gaps[0].count else 0) + LeftOutBefore(gaps[1..], k)
  }

  lemma NoGap(k: nat)
    ensures LeftOutBefore([], k) == 0
  {
  }

  lemma OneGap(g: Gap, k: nat)
    ensures LeftOutBefore([g], k) == if g.before <= k then g.count else 0
  {
    assert [g][1..] == [];
  }

  lemma TwoGaps(g: Gap, h: Gap, k: nat)
    ensures LeftOutBefore([g] + [h], k) == LeftOutBefore([g], k) + LeftOutBefore([h], k)
  {
    OneGap(g, k);
    assert ([g] + [h])[1..] == [h];
  }

  /** Before the shown tail, only the head's own start has been left out; from it on,
      everything that is not shown. */
  lemma GapsClosed(length: nat, own: int, k: nat)
    requires length > LIVE_ENTRIES
    ensures LeftOutBefore(Gaps(length, own), k) == if k < LIVE_HEAD then HeadStart(length, own) else length - LIVE_ENTRIES
  {
    var from := HeadStart(length, own);
    var middle := length - LIVE_ENTRIES - from;
    var head, tail := Gap(0, from), Gap(LIVE_HEAD, middle);
    OneGap(head, k);
    OneGap(tail, k);
    if from > 0 && middle > 0 {
      TwoGaps(head, tail, k);
    } else if from > 0 {
      assert Gaps(length, own) == [head];
    } else if middle > 0 {
      assert Gaps(length, own) == [tail];
    }
  }

  /** Where the shown entry at `k` stands in the whole traffic. */
  lemma ShownAt<T>(traffic: seq<T>, own: int, k: nat)
    requires k < |Shown(traffic, own)|
    ensures var at := k + LeftOutBefore(Gaps(|traffic|, own), k);
            at < |traffic| && Shown(traffic, own)[k] == traffic[at]
  {
    if |traffic| > LIVE_ENTRIES {
      GapsClosed(|traffic|, own, k);
    }
  }

  /** The cut loses nothing: at most 40 entries are shown; putting the gaps back gives
      every one its own place, in order, and accounts for all the traffic. */
  lemma LiveTrafficRestores<T>(traffic: seq<T>, own: int)
    ensures var (shown, gaps) := LiveTraffic(traffic, own);
            |shown| <= LIVE_ENTRIES && |shown| + LeftOutBefore(gaps, |shown|) == |traffic|
    ensures var (shown, gaps) := LiveTraffic(traffic, own);
            forall k :: 0 <= k < |shown| ==>
              k + LeftOutBefore(gaps, k) < |traffic| && shown[k] == traffic[k + LeftOutBefore(gaps, k)]
    ensures var (shown, gaps) := LiveTraffic(traffic, own);
            forall j, k :: 0 <= j < k < |shown| ==> LeftOutBefore(gaps, j) <= LeftOutBefore(gaps, k)
  {
    forall k | 0 <= k < |Shown(traffic, own)|
      ensures var at := k + LeftOutBefore(Gaps(|traffic|, own), k);
              at < |traffic| && Shown(traffic, own)[k] == traffic[at]
    {
      ShownAt(traffic, own, k);
    }
    if |traffic| > LIVE_ENTRIES {
      GapsClosed(|traffic|, own, LIVE_ENTRIES);
      forall j: nat, k: nat | j < k
        ensures LeftOutBefore(Gaps(|traffic|, own), j) <= LeftOutBefore(Gaps(|traffic|, own), k)
      {
        GapsClosed(|traffic|, own, j);
        GapsClosed(|traffic|, own, k);
      }
    }
  }

  /** The newest 20 entries are always shown, last, and 40 are shown where there are as
      many. */
  lemma NewestAreShown<T>(traffic: seq<T>, own: int)
    ensures var shown, n := Shown(traffic, own), AtMost(|traffic|, 20);
            && |shown| == AtMost(|traffic|, 40)
            && shown[|shown| - n..] == traffic[|traffic| - n..]
  {
  }

  function AtMost(n: nat, limit: nat): nat {
    if n < limit then n else limit
  }

  /** Where the entry at `own` is shown. */
  function ShownPlace(length: nat, own: nat): nat
    requires own < length
  {
    if length <= LIVE_ENTRIES then own else own - HeadStart(length, own)
  }

  lemma OwnGap(length: nat, own: nat)
    requires own < length
    ensures ShownPlace(length, own) + LeftOutBefore(Gaps(length, own), ShownPlace(length, own)) == own
  {
    if length <= LIVE_ENTRIES {
      NoGap(own);
    } else {
      GapsClosed(length, own, ShownPlace(length, own));
    }
  }

  lemma SliceOfDrop<T>(s: seq<T>, a: nat, k: nat, n: nat)
    requires a + k + n <= |s|
    ensures s[a..][k..k + n] == s[a + k..a + k + n]
  {
  }

  lemma EarlyShown<T>(traffic: seq<T>, own: nat)
    requires own + LIVE_ENTRIES < |traffic|
    ensures |Shown(traffic, own)| == LIVE_ENTRIES
    ensures Shown(traffic, own)[0..LIVE_HEAD] == traffic[own..own + LIVE_HEAD]
  {
  }

  lemma LateShown<T>(traffic: seq<T>, own: nat)
    requires |traffic| > LIVE_ENTRIES && |traffic| - LIVE_ENTRIES <= own < |traffic|
    ensures Shown(traffic, own) == traffic[|traffic| - LIVE_ENTRIES..]
  {
  }

  lemma OwnSlice<T>(traffic: seq<T>, own: nat, n: nat)
    requires own < |traffic| && n == AtMost(|traffic| - own, LIVE_HEAD)
    ensures var shown, k := Shown(traffic, own), ShownPlace(|traffic|, own);
            k <= |shown| - n && shown[k..k + n] == traffic[own..own + n]
  {
    if |traffic| > LIVE_ENTRIES {
      var last := |traffic| - LIVE_ENTRIES;
      if own < last {
        EarlyShown(traffic, own);
        assert n == LIVE_HEAD && ShownPlace(|traffic|, own) == 0;
      } else {
        LateShown(traffic, own);
        SliceOfDrop(traffic, last, own - last, n);
      }
    }
  }

  /** The command's own message is always shown, and what follows it straight after:
      20 entries, or as many as there are. */
  lemma OwnMessageIsShown<T>(traffic: seq<T>, own: nat)
    requires own < |traffic|
    ensures var (shown, gaps) := LiveTraffic(traffic, own);
            var n, k := AtMost(|traffic| - own, LIVE_HEAD), ShownPlace(|traffic|, own);
            k <= |shown| - n && k + LeftOutBefore(gaps, k) == own && shown[k..k + n] == traffic[own..own + n]
  {
    OwnGap(|traffic|, own);
    OwnSlice(traffic, own, AtMost(|traffic| - own, LIVE_HEAD));
  }

  // ---------------------------------------------------------------------
  // The values that moved
  // ---------------------------------------------------------------------

  /** A value as a record keeps it. */
  datatype Value = Null | Flag(b: bool) | Whole(n: int) | Number(x: real) | Words(s: string)

  /** Python's `==`: a flag is the number 0 or 1, and a whole number equals its float. */
  predicate PyEqual(a: Value, b: Value) {
    if Numeric(a) && Numeric(b) then AsReal(a) == AsReal(b) else a == b
  }

  predicate Numeric(v: Value) { v.Flag? || v.Whole? || v.Number? }

  function AsReal(v: Value): real
    requires Numeric(v)
  {
    match v
    case Flag(b) => if b then 1.0 else 0.0
    case Whole(n) => n as real
    case Number(x) => x
  }

  predicate SameType(a: Value, b: Value) {
    (a.Null? <==> b.Null?) && (a.Flag? <==> b.Flag?) && (a.Whole? <==> b.Whole?)
    && (a.Number? <==> b.Number?) && (a.Words? <==> b.Words?)
  }

  datatype Change = Change(key: string, was: Value, now: Value)

  datatype Moved = Moved(key: string, first: Value, last: Value, times: nat, alreadyMoving: bool, wentBack: bool)

  const PLATFORM_KEYS := {
    "connected", "name", "enabled", "offline_reason", "offline_detail", "paused", "paused_for", "restarting",
    "asleep", "wake_command", "web_ui_url", "orphaned", "orphan_reason", "reconnect_attempt"}

  const CHILD_PLATFORM_KEYS := {"label", "offline_reason", "offline_detail"}

  /** What follows the last dot; all of it where there is none. */
  function LastPart(key: string): string {
    if '.' !in key then key else LastPart(key[1..])
  }

  lemma {:induction false} LastPartIs(key: string)
    ensures '.' !in LastPart(key)
    ensures if '.' in key then exists head :: key == head + "." + LastPart(key) else LastPart(key) == key
  {
    if '.' in key {
      LastPartIs(key[1..]);
      if '.' in key[1..] {
        var head :| key[1..] == head + "." + LastPart(key[1..]);
        assert key == ([key[0]] + head) + "." + LastPart(key);
      } else {
        assert key == "" + "." + LastPart(key);
      }
    }
  }

  predicate IsPlatformKey(key: string) {
    if '.' !in key then key in PLATFORM_KEYS else LastPart(key) in CHILD_PLATFORM_KEYS
  }

  /** The changes of one key, in order. */
  function Of(changes: seq<Change>, key: string): seq<Change> {
    if changes == [] then []
    else
      var n := |changes| - 1;
      Of(changes[..n], key) + if changes[n].key == key then [changes[n]] else []
  }

  /** The keys that moved, platform keys apart, in the order each first did. */
  function KeysMoved(changes: seq<Change>): seq<string> {
    if changes == [] then []
    else
      var rest := KeysMoved(changes[..|changes| - 1]);
      var key := changes[|changes| - 1].key;
      if IsPlatformKey(key) || key in rest then rest else rest + [key]
  }

  ghost predicate Distinct(keys: seq<string>) {
    forall i, j :: 0 <= i < j < |keys| ==> keys[i] != keys[j]
  }

  lemma {:induction false} KeysMovedExact(changes: seq<Change>)
    ensures Distinct(KeysMoved(changes))
    ensures forall k :: k in KeysMoved(changes) <==> !IsPlatformKey(k) && Of(changes, k) != []
  {
    if changes != [] {
      KeysMovedExact(changes[..|changes| - 1]);
    }
  }

  /** What a key's summary says of its changes. */
  predicate Summarizes(m: Moved, key: string, own: seq<Change>, moving: bool) {
    && own != [] && m.key == key && m.times == |own| && m.alreadyMoving == moving
    && m.first == own[0].was && m.last == own[|own| - 1].now
  }

  /** The records so far: one for each key that moved, under that key. */
  ghost predicate Collected(out: map<string, Moved>, changes: seq<Change>, moving: set<string>) {
    && (forall k :: k in out <==> k in KeysMoved(changes))
    && (forall k <- out :: Summarizes(out[k], k, Of(changes, k), k in moving))
  }

  function Collect(out: map<string, Moved>, change: Change, moving: set<string>): map<string, Moved> {
    var key := change.key;
    if IsPlatformKey(key) then out
    else if key !in out then out[key := Moved(key, change.was, change.now, 1, key in moving, false)]
    else out[key := out[key].(last := change.now, times := out[key].times + 1)]
  }

  lemma CollectedNext(out: map<string, Moved>, changes: seq<Change>, moving: set<string>)
    requires changes != [] && Collected(out, changes[..|changes| - 1], moving)
    ensures Collected(Collect(out, changes[|changes| - 1], moving), changes, moving)
  {
    var n := |changes| - 1;
    var earlier, r := changes[..n], Collect(out, changes[n], moving);
    KeysMovedExact(earlier);
    forall k <- r ensures Summarizes(r[k], k, Of(changes, k), k in moving) {
      if k in out {
        assert Summarizes(out[k], k, Of(earlier, k), k in moving);
      } else {
        assert k !in KeysMoved(earlier) && Of(earlier, k) == [];
      }
    }
  }

  /** The same type and equal for Python is the same value. */
  lemma SameValue(a: Value, b: Value)
    ensures PyEqual(a, b) && SameType(a, b) <==> a == b
  {
  }

  /** A finished record of a key. */
  predicate Record(m: Moved, key: string, changes: seq<Change>, moving: set<string>) {
    Summarizes(m, key, Of(changes, key), key in moving) && (m.wentBack <==> m.first == m.last)
  }

  function Ended(m: Moved): Moved {
    m.(wentBack := PyEqual(m.first, m.last) && SameType(m.first, m.last))
  }

  lemma EndedIsRecord(out: map<string, Moved>, changes: seq<Change>, moving: set<string>, key: string)
    requires Collected(out, changes, moving) && key in KeysMoved(changes)
    ensures key in out && Record(Ended(out[key]), key, changes, moving)
  {
    SameValue(out[key].first, out[key].last);
  }

  /** `moved_values`: one record for each key that moved, in the order they first
      moved, with its first old value, its last new value and how often it changed. */
  method MovedValues(changes: seq<Change>, moving: set<string>) returns (r: seq<Moved>)
    ensures |r| == |KeysMoved(changes)|
    ensures forall i :: 0 <= i < |r| ==> Record(r[i], KeysMoved(changes)[i], changes, moving)
  {
    var order: seq<string> := [];
    var out: map<string, Moved> := map[];
    var n := 0;
    while n < |changes|
      invariant n <= |changes| && order == KeysMoved(changes[..n]) && Collected(out, changes[..n], moving)
    {
      var change := changes[n];
      assert changes[..n + 1][..n] == changes[..n];
      CollectedNext(out, changes[..n + 1], moving);
      if !IsPlatformKey(change.key) && change.key !in out {
        order := order + [change.key];
      }
      out := Collect(out, change, moving);
      n := n + 1;
    }
    assert changes[..n] == changes;
    r := Listed(out, order, changes, moving);
  }

  /** The second loop: each record, in order, and whether its value went back. */
  method Listed(out: map<string, Moved>, order: seq<string>, changes: seq<Change>, moving: set<string>)
    returns (r: seq<Moved>)
    requires order == KeysMoved(changes) && Collected(out, changes, moving)
    ensures |r| == |order|
    ensures forall i :: 0 <= i < |r| ==> Record(r[i], order[i], changes, moving)
  {
    r := [];
    while |r| < |order|
      invariant |r| <= |order|
      invariant forall i :: 0 <= i < |r| ==> order[i] in out && r[i] == Ended(out[order[i]])
    {
      EndedIsRecord(out, changes, moving, order[|r|]);
      r := r + [Ended(out[order[|r|]])];
    }
    forall i | 0 <= i < |r| ensures Record(r[i], order[i], changes, moving) {
      EndedIsRecord(out, changes, moving, order[i]);
    }
  }

  // ---------------------------------------------------------------------
  // On a log that joins up, the summary is the net effect
  // ---------------------------------------------------------------------

  type Values = map<string, Value>

  /** The log a store writes: each change starts from what the key read. */
  ghost predicate Joins(before: Values, changes: seq<Change>) {
    changes == [] ||
      (var n := |changes| - 1;
       Joins(before, changes[..n]) &&
       changes[n].was == Reads(After(before, changes[..n]), changes[n].key))
  }

  function Reads(values: Values, key: string): Value {
    if key in values then values[key] else Null
  }

  function After(before: Values, changes: seq<Change>): Values {
    if changes == [] then before
    else After(before, changes[..|changes| - 1])[changes[|changes| - 1].key := changes[|changes| - 1].now]
  }

  /** A key reads its first old value before the window and its last new value after
      it; a key with no record reads the same. */
  lemma {:induction false} NetEffect(before: Values, changes: seq<Change>, key: string)
    requires Joins(before, changes)
    ensures var own := Of(changes, key);
            if own == [] then Reads(After(before, changes), key) == Reads(before, key)
            else own[0].was == Reads(before, key) && own[|own| - 1].now == Reads(After(before, changes), key)
  {
    if changes != [] {
      NetEffect(before, changes[..|changes| - 1], key);
    }
  }

  /** So the records not marked as having gone back are exactly the values the
      command left different. */
  lemma WentBackIsNoChange(before: Values, changes: seq<Change>, moving: set<string>, r: seq<Moved>, key: string)
    requires Joins(before, changes) && !IsPlatformKey(key)
    requires |r| == |KeysMoved(changes)|
    requires forall i :: 0 <= i < |r| ==> Record(r[i], KeysMoved(changes)[i], changes, moving)
    ensures Reads(After(before, changes), key) != Reads(before, key) <==>
              exists i :: 0 <= i < |r| && r[i].key == key && !r[i].wentBack
  {
    KeysMovedExact(changes);
    NetEffect(before, changes, key);
    var keys := KeysMoved(changes);
    forall j | 0 <= j < |r| ensures r[j].key == keys[j] {
      assert Record(r[j], keys[j], changes, moving);
    }
    if key in keys {
      var i :| 0 <= i < |keys| && keys[i] == key;
      assert Record(r[i], key, changes, moving);
      forall j | 0 <= j < |r| && r[j].key == key ensures j == i {
        assert keys[j] == keys[i];
      }
    }
  }
}
