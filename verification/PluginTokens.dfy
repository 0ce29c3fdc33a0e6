/** The three families of signed plugin tokens: the text each is minted as, and
    what reading it back accepts. Signing and UTF-8 are taken as given functions. */
module PluginTokens {
  import opened Text
  import opened Base64Url

  type Bytes = seq<Byte>

  /** `hmac` with SHA-256, and text as UTF-8 bytes and back. */
  datatype Crypto = Crypto(
    sign: (Bytes, Bytes) -> Bytes,
    utf8: string -> Bytes,
    text: Bytes -> Option<string>)
  {
    ghost predicate Valid() {
      forall s :: text(utf8(s)) == Some(s)
    }
  }

  // ---------------------------------------------------------------------
  // The text of a token
  // ---------------------------------------------------------------------

  function Signed(c: Crypto, key: Bytes, message: string): string {
    var raw := c.utf8(message);
    Encode(raw) + "." + Encode(c.sign(key, raw))
  }

  /** `s.split(sep, 1)`, where `sep` occurs. */
  function SplitFirst(s: string, sep: char): Option<(string, string)> {
    if s == "" then None
    else if s[0] == sep then Some(("", s[1..]))
    else
      match SplitFirst(s[1..], sep)
      case None => None
      case Some(p) => Some(([s[0]] + p.0, p.1))
  }

  /** `s.rsplit(sep, 1)`, where `sep` occurs. */
  function SplitLast(s: string, sep: char): Option<(string, string)> {
    if s == "" then None
    else
      var n := |s| - 1;
      if s[n] == sep then Some((s[..n], ""))
      else
        match SplitLast(s[..n], sep)
        case None => None
        case Some(p) => Some((p.0, p.1 + [s[n]]))
  }

  /** The message of a token whose signature is good under `key`. */
  function Opened(c: Crypto, key: Bytes, token: string): Option<string> {
    match SplitFirst(token, '.')
    case None => None
    case Some((m, g)) =>
      match (Decode(m), Decode(g))
      case (Some(raw), Some(sig)) => if sig == c.sign(key, raw) then c.text(raw) else None
      case _ => None
  }

  /** A message's binding and expiry. */
  function Parsed(message: string): Option<(string, int)> {
    match SplitLast(message, ':')
    case None => None
    case Some((head, exp)) =>
      match ParseInt(exp)
      case None => None
      case Some(n) => Some((head, n))
  }

  function Message(head: string, expiresAt: int): string {
    head + ":" + PrintInt(expiresAt)
  }

  // ---------------------------------------------------------------------
  // Minting and verifying
  // ---------------------------------------------------------------------

  /** Whether a token carries this binding under this key, unexpired. */
  predicate Carries(c: Crypto, key: Bytes, token: string, head: string, now: int) {
    match Opened(c, key, token)
    case None => false
    case Some(message) =>
      match Parsed(message)
      case None => false
      case Some((h, expiresAt)) => h == head && expiresAt >= now
  }

  function MintPlugin(c: Crypto, signingKey: Bytes, plugin: string, now: int, ttl: int): (string, int) {
    (Signed(c, signingKey, Message(plugin, now + ttl)), now + ttl)
  }

  predicate VerifyPlugin(c: Crypto, signingKey: Bytes, token: string, plugin: string, now: int) {
    Carries(c, signingKey, token, plugin, now)
  }

  function GuestHead(plugin: string, scope: string): string {
    "guest:" + plugin + ":" + scope
  }

  /** An empty scope is refused. */
  function MintGuest(c: Crypto, secret: Bytes, plugin: string, scope: string, now: int, ttl: int): Option<(string, int)> {
    if scope == "" then None
    else Some((Signed(c, secret, Message(GuestHead(plugin, scope), now + ttl)), now + ttl))
  }

  predicate VerifyGuest(c: Crypto, secret: Bytes, token: string, plugin: string, scope: string, now: int) {
    Carries(c, secret, token, GuestHead(plugin, scope), now)
  }

  function PanelHead(plugin: string): string {
    "panel:" + plugin
  }

  function MintPanel(c: Crypto, secret: Bytes, plugin: string, now: int, ttl: int): (string, int) {
    (Signed(c, secret, Message(PanelHead(plugin), now + ttl)), now + ttl)
  }

  predicate VerifyPanel(c: Crypto, secret: Bytes, token: string, plugin: string, now: int) {
    Carries(c, secret, token, PanelHead(plugin), now)
  }

  // ---------------------------------------------------------------------
  // Reading back what was written
  // ---------------------------------------------------------------------

  lemma {:induction false} SplitFirstAt(a: string, b: string, sep: char)
    requires sep !in a
    ensures SplitFirst(a + [sep] + b, sep) == Some((a, b))
  {
    var s := a + [sep] + b;
    if a == "" {
      assert s[1..] == b;
    } else {
      assert s[1..] == a[1..] + [sep] + b;
      SplitFirstAt(a[1..], b, sep);
      assert [a[0]] + a[1..] == a;
    }
  }

  lemma {:induction false} SplitLastAt(a: string, b: string, sep: char)
    requires sep !in b
    ensures SplitLast(a + [sep] + b, sep) == Some((a, b))
  {
    var s := a + [sep] + b;
    var n := |s| - 1;
    if b == "" {
      assert s[..n] == a;
    } else {
      assert s[..n] == a + [sep] + b[..|b| - 1];
      SplitLastAt(a, b[..|b| - 1], sep);
      assert b[..|b| - 1] + [s[n]] == b;
    }
  }

  lemma SignedOpens(c: Crypto, key: Bytes, message: string)
    requires c.Valid()
    ensures Opened(c, key, Signed(c, key, message)) == Some(message)
  {
    var raw := c.utf8(message);
    RoundTrip(raw);
    RoundTrip(c.sign(key, raw));
    SplitFirstAt(Encode(raw), Encode(c.sign(key, raw)), '.');
  }

  lemma MessageParses(head: string, expiresAt: int)
    ensures Parsed(Message(head, expiresAt)) == Some((head, expiresAt))
  {
    PrintIntParses(expiresAt);
    SplitLastAt(head, PrintInt(expiresAt), ':');
    assert Message(head, expiresAt) == head + [':'] + PrintInt(expiresAt);
  }

  /** A signed message is accepted for its own binding, until it expires, and for
      no other. */
  lemma CarriesOwnBinding(c: Crypto, key: Bytes, head: string, expiresAt: int, asked: string, now: int)
    requires c.Valid()
    ensures Carries(c, key, Signed(c, key, Message(head, expiresAt)), asked, now) <==> asked == head && expiresAt >= now
  {
    SignedOpens(c, key, Message(head, expiresAt));
    MessageParses(head, expiresAt);
  }

  lemma PluginTokenRoundTrip(
    c: Crypto, key: Bytes, plugin: string, minted: int, ttl: int, asked: string, now: int)
    requires c.Valid()
    ensures var (token, expiresAt) := MintPlugin(c, key, plugin, minted, ttl);
            expiresAt == minted + ttl && (VerifyPlugin(c, key, token, asked, now) <==> asked == plugin && now <= minted + ttl)
  {
    CarriesOwnBinding(c, key, plugin, minted + ttl, asked, now);
  }

  lemma PanelTokenRoundTrip(
    c: Crypto, secret: Bytes, plugin: string, minted: int, ttl: int, asked: string, now: int)
    requires c.Valid()
    ensures var (token, expiresAt) := MintPanel(c, secret, plugin, minted, ttl);
            expiresAt == minted + ttl && (VerifyPanel(c, secret, token, asked, now) <==> asked == plugin && now <= minted + ttl)
  {
    CarriesOwnBinding(c, secret, PanelHead(plugin), minted + ttl, PanelHead(asked), now);
    assert PanelHead(plugin)[6..] == plugin && PanelHead(asked)[6..] == asked;
  }

  // ---------------------------------------------------------------------
  // Guests
  // ---------------------------------------------------------------------

  lemma GuestHeadTail(plugin: string, scope: string)
    ensures GuestHead(plugin, scope)[6..] == plugin + [':'] + scope
  {
    assert GuestHead(plugin, scope) == "guest:" + (plugin + [':'] + scope);
  }

  /** Two bindings of plugin ids without a colon share a message only when they
      are the same binding, whatever their scopes hold. */
  lemma GuestHeadsDistinct(p: string, s: string, q: string, t: string)
    requires ':' !in p && ':' !in q
    ensures GuestHead(p, s) == GuestHead(q, t) <==> p == q && s == t
  {
    GuestHeadTail(p, s);
    GuestHeadTail(q, t);
    SplitFirstAt(p, s, ':');
    SplitFirstAt(q, t, ':');
  }

  /** A minted guest token is accepted for its own plugin and scope until it
      expires, and for no other pair of a plugin id without a colon. */
  lemma GuestTokenRoundTrip(
    c: Crypto, secret: Bytes, p: string, s: string, minted: int, ttl: int, q: string, t: string, now: int)
    requires c.Valid() && ':' !in p && ':' !in q
    ensures var m := MintGuest(c, secret, p, s, minted, ttl);
            (m.None? <==> s == "") &&
            (m.Some? ==>
               && m.value.1 == minted + ttl
               && (VerifyGuest(c, secret, m.value.0, q, t, now) <==> q == p && t == s && now <= minted + ttl))
  {
    CarriesOwnBinding(c, secret, GuestHead(p, s), minted + ttl, GuestHead(q, t), now);
    GuestHeadsDistinct(p, s, q, t);
  }

  /** Another binding shares this one's message. */
  ghost predicate Shared(p: string, q: string) {
    exists s, t {:trigger GuestHead(p, s), GuestHead(q, t)} ::
      s != "" && t != "" && (p, s) != (q, t) && GuestHead(p, s) == GuestHead(q, t)
  }

  lemma NoShorterId(p: string, s: string, q: string, t: string)
    requires ':' !in p && |q| <= |p| && p + [':'] + s == q + [':'] + t
    ensures p == q && s == t
  {
    var whole := p + [':'] + s;
    forall i | 0 <= i < |p| ensures whole[i] != ':' {
      assert whole[i] == p[i] && p[i] in p;
    }
    assert (q + [':'] + t)[|q|] == ':';
    assert |q| == |p|;
    assert whole[..|p|] == p && (q + [':'] + t)[..|q|] == q;
    assert whole[|p| + 1..] == s && (q + [':'] + t)[|q| + 1..] == t;
  }

  /** What the colon is for: a plugin id can be confused with a shorter one, for
      some scopes, exactly when it holds a colon. */
  lemma ColonFreeIdsAreNeverShared(p: string)
    ensures (exists q :: |q| <= |p| && Shared(p, q)) <==> ':' in p
  {
    if ':' in p {
      var i :| 0 <= i < |p| && p[i] == ':';
      var q, t := p[..i], p[i + 1..] + ":x";
      assert p == q + [':'] + p[i + 1..];
      assert GuestHead(p, "x") == GuestHead(q, t);
      assert "x" != "" && t != "" && (p, "x") != (q, t);
      assert Shared(p, q);
    } else {
      forall q | |q| <= |p| ensures !Shared(p, q) {
        forall s, t | GuestHead(p, s) == GuestHead(q, t) ensures (p, s) == (q, t) {
          GuestHeadTail(p, s);
          GuestHeadTail(q, t);
          NoShorterId(p, s, q, t);
        }
      }
    }
  }

  /** Guest and panel tokens share a key, and never pass as each other. */
  lemma FamiliesNeverCoincide(
    c: Crypto, secret: Bytes, p: string, s: string, q: string, minted: int, ttl: int, now: int)
    requires c.Valid()
    ensures s != "" ==> !VerifyPanel(c, secret, MintGuest(c, secret, p, s, minted, ttl).value.0, q, now)
    ensures !VerifyGuest(c, secret, MintPanel(c, secret, q, minted, ttl).0, p, s, now)
    ensures forall a, b :: Message(GuestHead(p, s), a) != Message(PanelHead(q), b)
  {
    CarriesOwnBinding(c, secret, GuestHead(p, s), minted + ttl, PanelHead(q), now);
    CarriesOwnBinding(c, secret, PanelHead(q), minted + ttl, GuestHead(p, s), now);
    assert GuestHead(p, s)[0] == 'g' && PanelHead(q)[0] == 'p';
    forall a, b ensures Message(GuestHead(p, s), a) != Message(PanelHead(q), b) {
      assert Message(GuestHead(p, s), a)[0] == 'g' && Message(PanelHead(q), b)[0] == 'p';
    }
  }

  /** Whatever token is accepted, its signature is good for a message that ends in
      an expiry not yet past and otherwise is exactly the binding asked for. */
  lemma AcceptedMeansSigned(c: Crypto, key: Bytes, token: string, head: string, now: int)
    requires Carries(c, key, token, head, now)
    ensures exists raw: Bytes, message, expiry ::
              c.text(raw) == Some(message) && message == head + ":" + expiry
              && ParseInt(expiry).Some? && ParseInt(expiry).value >= now
              && SplitFirst(token, '.').Some? && Decode(SplitFirst(token, '.').value.0) == Some(raw)
              && Decode(SplitFirst(token, '.').value.1) == Some(c.sign(key, raw))
  {
    var parts := SplitFirst(token, '.').value;
    var raw := Decode(parts.0).value;
    var message := c.text(raw).value;
    SplitLastJoins(message, ':');
    var (h, expiry) := SplitLast(message, ':').value;
    assert message == head + ":" + expiry;
    assert c.text(raw) == Some(message) && ParseInt(expiry).Some?;
  }

  lemma {:induction false} SplitLastJoins(s: string, sep: char)
    ensures SplitLast(s, sep).Some? ==> s == SplitLast(s, sep).value.0 + [sep] + SplitLast(s, sep).value.1
  {
    if s != "" && s[|s| - 1] != sep {
      SplitLastJoins(s[..|s| - 1], sep);
    }
  }
}
