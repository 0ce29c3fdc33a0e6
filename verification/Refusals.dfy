/** Which signs of a refusal in a command's window answer the command itself, and
    which answer a request the driver sent on its own after it. */
module Refusals {
  import opened Text
  import opened Summaries

  const REPLY_WINDOW := 2.0

  /** An error published or a `last_error` written: how many traffic entries there
      were, when, and what it said. */
  datatype Sign = Sign(position: nat, t: real, text: string)

  /** One group of later refusals: its text, its first sign, how many there are, and
      the request that sign answered. */
  datatype Later = Later(text: string, first: Sign, count: nat, request: Option<nat>)

  datatype Refused = Refused(deviceErrors: nat, lastErrorWrites: nat, lastError: Option<string>, later: seq<Later>)

  /** The driver's next request after the command's exchange began. */
  function NextRequest(placed: seq<nat>, returned: nat): Option<nat> {
    var n := Before(placed, returned);
    var all := placed[n..];
    var rest := if all != [] && |all| == |placed| then all[1..] else all;
    if rest == [] then None else Some(rest[0])
  }

  /** It is the one right after the command's own message, as the traffic view picks
      that message. */
  lemma NextFollowsOwn(placed: seq<nat>, returned: nat)
    requires Rising(placed)
    ensures NextRequest(placed, returned) ==
            match OwnRequest(placed, returned)
            case None => None
            case Some(k) => if k + 1 < |placed| then Some(placed[k + 1]) else None
  {
    BeforeSplits(placed, returned);
  }

  predicate Own(s: Sign, next: Option<nat>, deadline: real) {
    (next.Some? ==> s.position <= next.value) && s.t <= deadline
  }

  function OwnOf(signs: seq<Sign>, next: Option<nat>, deadline: real): seq<Sign> {
    if signs == [] then []
    else (if Own(signs[0], next, deadline) then [signs[0]] else []) + OwnOf(signs[1..], next, deadline)
  }

  function LaterOf(signs: seq<Sign>, next: Option<nat>, deadline: real): seq<Sign> {
    if signs == [] then []
    else (if Own(signs[0], next, deadline) then [] else [signs[0]]) + LaterOf(signs[1..], next, deadline)
  }

  function NonEmpty(signs: seq<Sign>): seq<Sign> {
    if signs == [] then []
    else (if signs[0].text == "" then [] else [signs[0]]) + NonEmpty(signs[1..])
  }

  lemma {:induction false} OwnOrLater(signs: seq<Sign>, next: Option<nat>, deadline: real)
    ensures multiset(OwnOf(signs, next, deadline)) + multiset(LaterOf(signs, next, deadline)) == multiset(signs)
    ensures forall s <- OwnOf(signs, next, deadline) :: Own(s, next, deadline)
    ensures forall s <- LaterOf(signs, next, deadline) :: !Own(s, next, deadline)
  {
    if signs != [] {
      OwnOrLater(signs[1..], next, deadline);
      assert signs == [signs[0]] + signs[1..];
    }
  }

  // ---------------------------------------------------------------------
  // Sorting by place, then time
  // ---------------------------------------------------------------------

  predicate NotAfter(a: Sign, b: Sign) {
    a.position < b.position || (a.position == b.position && a.t <= b.t)
  }

  function Insert(s: Sign, sorted: seq<Sign>): seq<Sign> {
    if sorted == [] || NotAfter(s, sorted[0]) then [s] + sorted
    else [sorted[0]] + Insert(s, sorted[1..])
  }

  /** The stable sort by (position, t). */
  function Sorted(signs: seq<Sign>): seq<Sign> {
    if signs == [] then [] else Insert(signs[0], Sorted(signs[1..]))
  }

  ghost predicate InOrder(signs: seq<Sign>) {
    forall i, j :: 0 <= i < j < |signs| ==> NotAfter(signs[i], signs[j])
  }

  lemma {:induction false} InsertHolds(s: Sign, sorted: seq<Sign>)
    ensures multiset(Insert(s, sorted)) == multiset{s} + multiset(sorted)
  {
    if sorted != [] && !NotAfter(s, sorted[0]) {
      InsertHolds(s, sorted[1..]);
      assert sorted == [sorted[0]] + sorted[1..];
    }
  }

  lemma {:induction false} InsertKeeps(s: Sign, sorted: seq<Sign>)
    requires InOrder(sorted)
    ensures InOrder(Insert(s, sorted))
  {
    if sorted != [] && !NotAfter(s, sorted[0]) {
      InsertKeeps(s, sorted[1..]);
      InsertHolds(s, sorted[1..]);
      var rest := Insert(s, sorted[1..]);
      forall j | 0 <= j < |rest| ensures NotAfter(sorted[0], rest[j]) {
        assert rest[j] in multiset(rest);
        if rest[j] != s {
          assert rest[j] in sorted[1..];
        }
      }
    }
  }

  lemma {:induction false} SortedKeeps(signs: seq<Sign>)
    ensures InOrder(Sorted(signs)) && multiset(Sorted(signs)) == multiset(signs)
  {
    if signs != [] {
      SortedKeeps(signs[1..]);
      InsertKeeps(signs[0], Sorted(signs[1..]));
      InsertHolds(signs[0], Sorted(signs[1..]));
      assert signs == [signs[0]] + signs[1..];
    }
  }

  // ---------------------------------------------------------------------
  // Groups of one text
  // ---------------------------------------------------------------------

  function With(signs: seq<Sign>, text: string): seq<Sign> {
    if signs == [] then []
    else
      var n := |signs| - 1;
      With(signs[..n], text) + if signs[n].text == text then [signs[n]] else []
  }

  /** The texts, each once, in the order first seen. */
  function Texts(signs: seq<Sign>): seq<string> {
    if signs == [] then []
    else
      var rest, text := Texts(signs[..|signs| - 1]), signs[|signs| - 1].text;
      if text in rest then rest else rest + [text]
  }

  lemma {:induction false} TextsExact(signs: seq<Sign>)
    ensures Distinct(Texts(signs))
    ensures forall text :: text in Texts(signs) <==> With(signs, text) != []
  {
    if signs != [] {
      TextsExact(signs[..|signs| - 1]);
    }
  }

  /** How many signs carry one of these texts. */
  function Tally(texts: seq<string>, signs: seq<Sign>): nat {
    if texts == [] then 0 else Tally(texts[..|texts| - 1], signs) + |With(signs, texts[|texts| - 1])|
  }

  lemma {:induction false} TallyNext(texts: seq<string>, signs: seq<Sign>)
    requires signs != [] && Distinct(texts)
    ensures Tally(texts, signs) ==
            Tally(texts, signs[..|signs| - 1]) + if signs[|signs| - 1].text in texts then 1 else 0
  {
    if texts != [] {
      TallyNext(texts[..|texts| - 1], signs);
    }
  }

  /** Every sign is in exactly one group. */
  lemma {:induction false} GroupsCountAll(signs: seq<Sign>)
    ensures Tally(Texts(signs), signs) == |signs|
  {
    if signs != [] {
      var n := |signs| - 1;
      GroupsCountAll(signs[..n]);
      TextsExact(signs[..n]);
      TextsExact(signs);
      var rest, text := Texts(signs[..n]), signs[n].text;
      TallyNext(Texts(signs), signs);
      if text !in rest {
        assert (rest + [text])[..|rest|] == rest;
        assert With(signs[..n], text) == [];
      }
    }
  }

  // ---------------------------------------------------------------------
  // The attribution
  // ---------------------------------------------------------------------

  /** The last request placed before a position. */
  function RequestBefore(placed: seq<nat>, position: nat): Option<nat> {
    var n := Before(placed, position);
    if 0 < n then Some(placed[n - 1]) else None
  }

  /** It is the nearest one: placed before the position, and none between. */
  lemma RequestBeforeIsNearest(placed: seq<nat>, position: nat)
    requires Rising(placed)
    ensures match RequestBefore(placed, position)
            case None => forall at <- placed :: at >= position
            case Some(r) => r in placed && r < position && forall at <- placed :: at <= r || at >= position
  {
    BeforeSplits(placed, position);
  }

  /** A refusal past the driver's next request is put down to that request or a later
      one; one that is only too late for the command is put down to nothing after it. */
  lemma LaterAnswersLater(placed: seq<nat>, returned: nat, s: Sign)
    requires Rising(placed) && NextRequest(placed, returned).Some?
    ensures var next := NextRequest(placed, returned).value;
            var request := RequestBefore(placed, s.position);
            if s.position > next then request.Some? && request.value >= next
            else request.Some? ==> request.value < next
  {
    BeforeSplits(placed, returned);
    BeforeSplits(placed, s.position);
    var next := NextRequest(placed, returned).value;
    var k :| 0 <= k < |placed| && placed[k] == next;
  }

  // Which signs are whose, in words

  /** It came no later than the driver's next request, and while its reply could still
      be on the way. */
  predicate Answers(s: Sign, next: Option<nat>, returnedAt: real) {
    (next.None? || s.position <= next.value) && s.t <= returnedAt + 2.0
  }

  /** `text` is what the last of these that answers the command and says something says;
      nothing where none does. */
  ghost predicate LastSaid(signs: seq<Sign>, next: Option<nat>, returnedAt: real, text: Option<string>) {
    match text
    case None => forall s <- signs :: Answers(s, next, returnedAt) ==> s.text == ""
    case Some(x) =>
      x != "" && exists k :: 0 <= k < |signs| && Answers(signs[k], next, returnedAt) && signs[k].text == x
                             && forall j :: k < j < |signs| && Answers(signs[j], next, returnedAt) ==> signs[j].text == ""
  }

  lemma LastSaidGrows(signs: seq<Sign>, s: Sign, next: Option<nat>, returnedAt: real, before: Option<string>)
    requires LastSaid(signs, next, returnedAt, before)
    ensures LastSaid(signs + [s], next, returnedAt,
                     if Answers(s, next, returnedAt) && s.text != "" then Some(s.text) else before)
  {
    var all := signs + [s];
    assert all[|signs|] == s;
    if !(Answers(s, next, returnedAt) && s.text != "") {
      if before.Some? {
        var k :| 0 <= k < |signs| && Answers(signs[k], next, returnedAt) && signs[k].text == before.value
                 && forall j :: k < j < |signs| && Answers(signs[j], next, returnedAt) ==> signs[j].text == "";
        assert all[k] == signs[k];
      }
    }
  }

  lemma {:induction false} OwnOfAppends(a: seq<Sign>, b: seq<Sign>, next: Option<nat>, deadline: real)
    ensures OwnOf(a + b, next, deadline) == OwnOf(a, next, deadline) + OwnOf(b, next, deadline)
  {
    if a == [] {
      assert a + b == b;
    } else {
      var head := if Own(a[0], next, deadline) then [a[0]] else [];
      var rest, after := OwnOf(a[1..], next, deadline), OwnOf(b, next, deadline);
      assert (a + b)[0] == a[0] && (a + b)[1..] == a[1..] + b;
      OwnOfAppends(a[1..], b, next, deadline);
      assert OwnOf(a + b, next, deadline) == head + (rest + after);
      assert head + (rest + after) == head + rest + after;
    }
  }

  lemma {:induction false} LastTextSaid(signs: seq<Sign>, next: Option<nat>, returnedAt: real)
    ensures LastSaid(signs, next, returnedAt, LastText(OwnOf(signs, next, returnedAt + REPLY_WINDOW)))
  {
    if signs != [] {
      var n, deadline := |signs| - 1, returnedAt + REPLY_WINDOW;
      var front, s := signs[..n], signs[n];
      LastTextSaid(front, next, returnedAt);
      assert signs == front + [s];
      OwnOfOneMore(front, s, next, deadline);
      LastTextAppends(OwnOf(front, next, deadline), s);
      LastSaidGrows(front, s, next, returnedAt, LastText(OwnOf(front, next, deadline)));
    }
  }

  /** How many of these answer the command, and say something where that is asked. */
  function Answering(signs: seq<Sign>, next: Option<nat>, returnedAt: real, saying: bool): nat {
    if signs == [] then 0
    else
      (if Answers(signs[0], next, returnedAt) && (saying ==> signs[0].text != "") then 1 else 0)
      + Answering(signs[1..], next, returnedAt, saying)
  }

  lemma {:induction false} OwnCounts(signs: seq<Sign>, next: Option<nat>, returnedAt: real)
    ensures |OwnOf(signs, next, returnedAt + REPLY_WINDOW)| == Answering(signs, next, returnedAt, false)
    ensures |OwnOf(NonEmpty(signs), next, returnedAt + REPLY_WINDOW)| == Answering(signs, next, returnedAt, true)
  {
    if signs != [] {
      OwnCounts(signs[1..], next, returnedAt);
      if signs[0].text != "" {
        var said := NonEmpty(signs);
        assert said[0] == signs[0] && said[1..] == NonEmpty(signs[1..]);
      } else {
        assert NonEmpty(signs) == NonEmpty(signs[1..]);
      }
    }
  }

  /** Leaving out what says nothing changes nothing of what is said. */
  lemma {:induction false} NonEmptySaid(signs: seq<Sign>, next: Option<nat>, returnedAt: real)
    ensures multiset(NonEmpty(signs)) <= multiset(signs)
    ensures forall s :: s in NonEmpty(signs) <==> s in signs && s.text != ""
    ensures forall s :: s in NonEmpty(signs) ==> multiset(NonEmpty(signs))[s] == multiset(signs)[s]
  {
    if signs != [] {
      NonEmptySaid(signs[1..], next, returnedAt);
      assert signs == [signs[0]] + signs[1..];
    }
  }

  function LastText(signs: seq<Sign>): Option<string> {
    if signs == [] then None
    else if signs[|signs| - 1].text != "" then Some(signs[|signs| - 1].text)
    else LastText(signs[..|signs| - 1])
  }

  lemma OwnOfOneMore(a: seq<Sign>, s: Sign, next: Option<nat>, deadline: real)
    ensures OwnOf(a + [s], next, deadline) ==
            if Own(s, next, deadline) then OwnOf(a, next, deadline) + [s] else OwnOf(a, next, deadline)
  {
    OwnOfAppends(a, [s], next, deadline);
    assert [s][1..] == [] && OwnOf(a, next, deadline) + [] == OwnOf(a, next, deadline);
  }

  lemma {:induction false} LastTextAppends(a: seq<Sign>, s: Sign)
    ensures LastText(a + [s]) == if s.text != "" then Some(s.text) else LastText(a)
  {
    assert (a + [s])[..|a|] == a;
  }

  lemma {:induction false} NonEmptyAppends(a: seq<Sign>, s: Sign)
    ensures NonEmpty(a + [s]) == NonEmpty(a) + if s.text == "" then [] else [s]
  {
    if a == [] {
      assert a + [s] == [s];
    } else {
      var head := if a[0].text == "" then [] else [a[0]];
      var last := if s.text == "" then [] else [s];
      assert (a + [s])[0] == a[0] && (a + [s])[1..] == a[1..] + [s];
      NonEmptyAppends(a[1..], s);
      assert NonEmpty(a + [s]) == head + (NonEmpty(a[1..]) + last);
      assert head + (NonEmpty(a[1..]) + last) == head + NonEmpty(a[1..]) + last;
    }
  }

  lemma {:induction false} NonEmptyLastText(signs: seq<Sign>, next: Option<nat>, deadline: real)
    ensures LastText(OwnOf(NonEmpty(signs), next, deadline)) == LastText(OwnOf(signs, next, deadline))
    ensures OwnOf(NonEmpty(signs), next, deadline) == [] <==> LastText(OwnOf(NonEmpty(signs), next, deadline)) == None
  {
    if signs != [] {
      var n := |signs| - 1;
      var front, s := signs[..n], signs[n];
      NonEmptyLastText(front, next, deadline);
      assert signs == front + [s];
      NonEmptyAppends(front, s);
      OwnOfOneMore(front, s, next, deadline);
      OwnOfOneMore(NonEmpty(front), s, next, deadline);
      LastTextAppends(OwnOf(front, next, deadline), s);
      LastTextAppends(OwnOf(NonEmpty(front), next, deadline), s);
      if s.text == "" {
        assert NonEmpty(signs) == NonEmpty(front);
      } else {
        assert NonEmpty(signs) == NonEmpty(front) + [s];
      }
    }
  }

  /** What is reported: the last own write that says something, or where none does, the
      last own error that does. */
  lemma ReportedText(errors: seq<Sign>, writes: seq<Sign>, next: Option<nat>, returnedAt: real)
    ensures var deadline := returnedAt + REPLY_WINDOW;
            var own, ownSaid := OwnOf(errors, next, deadline), OwnOf(NonEmpty(writes), next, deadline);
            Reports(errors, writes, next, returnedAt, if ownSaid != [] then LastText(ownSaid) else LastText(own))
  {
    var deadline := returnedAt + REPLY_WINDOW;
    NonEmptyLastText(writes, next, deadline);
    LastTextSaid(writes, next, returnedAt);
    LastTextSaid(errors, next, returnedAt);
  }

  ghost predicate Reports(errors: seq<Sign>, writes: seq<Sign>, next: Option<nat>, returnedAt: real, text: Option<string>) {
    if exists w <- writes :: Answers(w, next, returnedAt) && w.text != "" then LastSaid(writes, next, returnedAt, text)
    else LastSaid(errors, next, returnedAt, text)
  }

  function Counted(later: seq<Later>): nat {
    if later == [] then 0 else Counted(later[..|later| - 1]) + later[|later| - 1].count
  }

  lemma {:induction false} CountedIsTally(later: seq<Later>, texts: seq<string>, signs: seq<Sign>)
    requires |later| == |texts| && forall i :: 0 <= i < |later| ==> later[i].count == |With(signs, texts[i])|
    ensures Counted(later) == Tally(texts, signs)
  {
    if later != [] {
      CountedIsTally(later[..|later| - 1], texts[..|texts| - 1], signs);
    }
  }

  /** What a group says of the signs it stands for. */
  predicate Groups(g: Later, text: string, own: seq<Sign>, placed: seq<nat>) {
    own != [] && g == Later(text, own[0], |own|, RequestBefore(placed, own[0].position))
  }

  /** The groups so far, each under its text. */
  ghost predicate Gathered(groups: map<string, Later>, signs: seq<Sign>, placed: seq<nat>) {
    && (forall text :: text in groups <==> text in Texts(signs))
    && (forall text <- groups :: Groups(groups[text], text, With(signs, text), placed))
  }

  function Gather(groups: map<string, Later>, s: Sign, placed: seq<nat>): map<string, Later> {
    if s.text in groups then groups[s.text := groups[s.text].(count := groups[s.text].count + 1)]
    else groups[s.text := Later(s.text, s, 1, RequestBefore(placed, s.position))]
  }

  lemma GatheredNext(groups: map<string, Later>, signs: seq<Sign>, placed: seq<nat>)
    requires signs != [] && Gathered(groups, signs[..|signs| - 1], placed)
    ensures Gathered(Gather(groups, signs[|signs| - 1], placed), signs, placed)
  {
    var n := |signs| - 1;
    var earlier, r := signs[..n], Gather(groups, signs[n], placed);
    TextsExact(earlier);
    forall text <- r ensures Groups(r[text], text, With(signs, text), placed) {
      if text in groups {
        assert Groups(groups[text], text, With(earlier, text), placed);
      } else {
        assert text !in Texts(earlier) && With(earlier, text) == [];
      }
    }
  }

  /** The loop that groups what is not the command's own. */
  method GroupLater(signs: seq<Sign>, placed: seq<nat>) returns (later: seq<Later>)
    ensures |later| == |Texts(signs)|
    ensures forall i :: 0 <= i < |later| ==> Groups(later[i], Texts(signs)[i], With(signs, Texts(signs)[i]), placed)
    ensures Counted(later) == |signs|
  {
    var order: seq<string> := [];
    var groups: map<string, Later> := map[];
    var n := 0;
    while n < |signs|
      invariant n <= |signs| && order == Texts(signs[..n]) && Gathered(groups, signs[..n], placed)
    {
      assert signs[..n + 1][..n] == signs[..n];
      GatheredNext(groups, signs[..n + 1], placed);
      if signs[n].text !in groups {
        order := order + [signs[n].text];
      }
      groups := Gather(groups, signs[n], placed);
      n := n + 1;
    }
    assert signs[..n] == signs;
    later := ListGroups(groups, order, signs, placed);
    CountedIsTally(later, order, signs);
    GroupsCountAll(signs);
  }

  method ListGroups(groups: map<string, Later>, order: seq<string>, signs: seq<Sign>, placed: seq<nat>)
    returns (later: seq<Later>)
    requires order == Texts(signs) && Gathered(groups, signs, placed)
    ensures |later| == |order|
    ensures forall i :: 0 <= i < |later| ==> Groups(later[i], order[i], With(signs, order[i]), placed)
  {
    later := [];
    while |later| < |order|
      invariant |later| <= |order|
      invariant forall i :: 0 <= i < |later| ==> Groups(later[i], order[i], With(signs, order[i]), placed)
    {
      assert order[|later|] in order;
      later := later + [groups[order[|later|]]];
    }
  }

  lemma {:induction false} WithIn(signs: seq<Sign>, text: string)
    ensures forall s <- With(signs, text) :: s in signs && s.text == text
  {
    if signs != [] {
      WithIn(signs[..|signs| - 1], text);
    }
  }

  /** The first sign of each text, in the order the texts were first seen. */
  function Firsts(signs: seq<Sign>): seq<Sign> {
    if signs == [] then []
    else
      var n := |signs| - 1;
      Firsts(signs[..n]) + if signs[n].text in Texts(signs[..n]) then [] else [signs[n]]
  }

  lemma {:induction false} FirstsAre(signs: seq<Sign>)
    ensures |Firsts(signs)| == |Texts(signs)|
    ensures forall i :: 0 <= i < |Texts(signs)| ==>
              With(signs, Texts(signs)[i]) != [] && With(signs, Texts(signs)[i])[0] == Firsts(signs)[i]
  {
    if signs != [] {
      var n := |signs| - 1;
      var earlier := signs[..n];
      FirstsAre(earlier);
      TextsExact(earlier);
      forall i | 0 <= i < |Texts(signs)|
        ensures With(signs, Texts(signs)[i]) != [] && With(signs, Texts(signs)[i])[0] == Firsts(signs)[i]
      {
        if i < |Texts(earlier)| {
          assert Texts(signs)[i] == Texts(earlier)[i] && Firsts(signs)[i] == Firsts(earlier)[i];
        } else {
          assert With(earlier, signs[n].text) == [];
        }
      }
    }
  }

  lemma {:induction false} FirstsInOrder(signs: seq<Sign>)
    requires InOrder(signs)
    ensures InOrder(Firsts(signs)) && forall f <- Firsts(signs) :: f in signs
  {
    if signs != [] {
      var n := |signs| - 1;
      var earlier := signs[..n];
      FirstsInOrder(earlier);
      forall f <- Firsts(earlier) ensures NotAfter(f, signs[n]) {
        var k :| 0 <= k < n && earlier[k] == f;
        assert signs[k] == f;
      }
    }
  }

  function Others(errors: seq<Sign>, said: seq<Sign>, next: Option<nat>, deadline: real): seq<Sign> {
    Sorted(LaterOf(errors, next, deadline) + LaterOf(said, next, deadline))
  }

  /** The command's own signs and the later ones are all of them, each once. */
  lemma OthersAreTheRest(errors: seq<Sign>, said: seq<Sign>, next: Option<nat>, deadline: real)
    ensures multiset(OwnOf(errors, next, deadline)) + multiset(OwnOf(said, next, deadline))
              + multiset(Others(errors, said, next, deadline)) == multiset(errors) + multiset(said)
    ensures forall s <- Others(errors, said, next, deadline) :: !Own(s, next, deadline)
    ensures InOrder(Others(errors, said, next, deadline))
  {
    var a, b := LaterOf(errors, next, deadline), LaterOf(said, next, deadline);
    OwnOrLater(errors, next, deadline);
    OwnOrLater(said, next, deadline);
    SortedKeeps(a + b);
    forall s <- Sorted(a + b) ensures !Own(s, next, deadline) {
      assert s in multiset(a + b);
    }
  }

  /** The same, counted. */
  lemma AllCounted(errors: seq<Sign>, said: seq<Sign>, next: Option<nat>, deadline: real)
    ensures |OwnOf(errors, next, deadline)| + |OwnOf(said, next, deadline)| + |Others(errors, said, next, deadline)| ==
            |errors| + |said|
  {
    OthersAreTheRest(errors, said, next, deadline);
    var own, ownSaid, rest := OwnOf(errors, next, deadline), OwnOf(said, next, deadline), Others(errors, said, next, deadline);
    assert |multiset(own) + multiset(ownSaid) + multiset(rest)| == |multiset(errors) + multiset(said)|;
  }

  lemma GroupsFirst(later: seq<Later>, signs: seq<Sign>, placed: seq<nat>)
    requires |later| == |Texts(signs)|
    requires forall i :: 0 <= i < |later| ==> Groups(later[i], Texts(signs)[i], With(signs, Texts(signs)[i]), placed)
    ensures |Firsts(signs)| == |later|
    ensures forall i :: 0 <= i < |later| ==> later[i].first == Firsts(signs)[i] && later[i].text == Texts(signs)[i]
  {
    FirstsAre(signs);
  }

  /** `_refusals`: every error and every `last_error` that said something is counted
      once, as the command's own or in one later group. The groups are exactly those
      of the signs that are not the command's own: one for each text, with its first
      sign, how many there are, and the request that first sign answered, in the order
      they started. */
  method Attribute(errors: seq<Sign>, writes: seq<Sign>, window: seq<Entry>, start: nat,
                   returnedMark: nat, returnedAt: real) returns (r: Refused)
    ensures var next, deadline := NextRequest(Placed(window, start), returnedMark), returnedAt + REPLY_WINDOW;
            var own, ownSaid := OwnOf(errors, next, deadline), OwnOf(NonEmpty(writes), next, deadline);
            var later := Others(errors, NonEmpty(writes), next, deadline);
            && multiset(own) + multiset(ownSaid) + multiset(later) == multiset(errors) + multiset(NonEmpty(writes))
            && (forall s <- later :: !Answers(s, next, returnedAt)) && InOrder(later)
            && (forall s <- own + ownSaid :: Answers(s, next, returnedAt))
            && r.deviceErrors == |own| == Answering(errors, next, returnedAt, false)
            && r.lastErrorWrites == |ownSaid| == Answering(writes, next, returnedAt, true)
            && Reports(errors, writes, next, returnedAt, r.lastError)
            && |r.later| == |Texts(later)|
            && forall i :: 0 <= i < |r.later| ==>
                 Groups(r.later[i], Texts(later)[i], With(later, Texts(later)[i]), Placed(window, start))
    ensures r.deviceErrors + r.lastErrorWrites + Counted(r.later) == |errors| + |NonEmpty(writes)|
    ensures forall i, j :: 0 <= i < j < |r.later| ==>
              r.later[i].text != r.later[j].text && NotAfter(r.later[i].first, r.later[j].first)
  {
    var placed := Placed(window, start);
    var next := NextRequest(placed, returnedMark);
    var deadline := returnedAt + REPLY_WINDOW;
    var said := NonEmpty(writes);
    var ownErrors, ownWrites := OwnOf(errors, next, deadline), OwnOf(said, next, deadline);
    var signs := Others(errors, said, next, deadline);
    var later := GroupLater(signs, placed);
    OthersAreTheRest(errors, said, next, deadline);
    AllCounted(errors, said, next, deadline);
    OwnOrLater(errors, next, deadline);
    OwnOrLater(said, next, deadline);
    OwnCounts(errors, next, returnedAt);
    OwnCounts(writes, next, returnedAt);
    ReportedText(errors, writes, next, returnedAt);
    FirstsInOrder(signs);
    TextsExact(signs);
    GroupsFirst(later, signs, placed);
    r := Refused(|ownErrors|, |ownWrites|, if ownWrites != [] then LastText(ownWrites) else LastText(ownErrors), later);
  }
}
