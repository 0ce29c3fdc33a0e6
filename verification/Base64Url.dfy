/** Unpadded base64url text (sections 3.2 and 5 of RFC 4648), as written by
    `_b64` and read back by `_unb64`, whose decoder is the lenient one of Python's
    binascii: it skips what is not in the alphabet and stops at padding. */
module Base64Url {
  import opened Text

  type Byte = b: int | 0 <= b < 256

  type Sextet = v: int | 0 <= v < 64

  function CharOf(v: Sextet): char {
    if v < 26 then ('A' as int + v) as char
    else if v < 52 then ('a' as int + (v - 26)) as char
    else if v < 62 then ('0' as int + (v - 52)) as char
    else if v == 62 then '-'
    else '_'
  }

  /** The decoder takes either spelling of the last two. */
  function ValueOf(c: char): Option<Sextet> {
    if 'A' <= c <= 'Z' then Some(c as int - 'A' as int)
    else if 'a' <= c <= 'z' then Some(c as int - 'a' as int + 26)
    else if '0' <= c <= '9' then Some(c as int - '0' as int + 52)
    else if c == '-' || c == '+' then Some(62)
    else if c == '_' || c == '/' then Some(63)
    else None
  }

  lemma CharOfValue(v: Sextet)
    ensures ValueOf(CharOf(v)) == Some(v) && CharOf(v) != '=' && CharOf(v) != '.' && (CharOf(v) as int) < 128
  {
  }

  /** `urlsafe_b64encode`. */
  function Padded(bs: seq<Byte>): string {
    if |bs| == 0 then ""
    else if |bs| == 1 then [CharOf(bs[0] / 4), CharOf(bs[0] % 4 * 16), '=', '=']
    else if |bs| == 2 then
      [CharOf(bs[0] / 4), CharOf(bs[0] % 4 * 16 + bs[1] / 16), CharOf(bs[1] % 16 * 4), '=']
    else
      [CharOf(bs[0] / 4), CharOf(bs[0] % 4 * 16 + bs[1] / 16),
       CharOf(bs[1] % 16 * 4 + bs[2] / 64), CharOf(bs[2] % 64)] + Padded(bs[3..])
  }

  /** `_b64`: the padding stripped. */
  function Encode(bs: seq<Byte>): string {
    TrimRight(Padded(bs), c => c == '=')
  }

  // ---------------------------------------------------------------------
  // The decoder
  // ---------------------------------------------------------------------

  datatype Decoder = Decoder(quad: nat, left: Sextet, pads: nat, out: seq<Byte>)

  const START := Decoder(0, 0, 0, [])

  function Accept(d: Decoder, v: Sextet): Decoder {
    if d.quad == 0 then Decoder(1, v, 0, d.out)
    else if d.quad == 1 then Decoder(2, v % 16, 0, d.out + [d.left % 64 * 4 + v / 16])
    else if d.quad == 2 then Decoder(3, v % 4, 0, d.out + [d.left % 16 * 16 + v / 4])
    else Decoder(0, 0, 0, d.out + [d.left % 4 * 64 + v])
  }

  function Run(d: Decoder, text: string): Option<seq<Byte>>
    decreases |text|
  {
    if text == "" then if d.quad == 0 then Some(d.out) else None
    else if text[0] == '=' then
      if d.quad >= 2 then
        if d.quad + d.pads + 1 >= 4 then Some(d.out) else Run(d.(pads := d.pads + 1), text[1..])
      else Run(d, text[1..])
    else
      match ValueOf(text[0])
      case None => Run(d, text[1..])
      case Some(v) => Run(Accept(d, v), text[1..])
  }

  function Pad(text: string): string {
    var n := |text| % 4;
    text + if n == 0 then "" else if n == 1 then "===" else if n == 2 then "==" else "="
  }

  /** `_unb64`: text outside ASCII is refused before decoding. */
  function Decode(text: string): Option<seq<Byte>> {
    if exists c <- text :: c as int >= 128 then None else Run(START, Pad(text))
  }

  // ---------------------------------------------------------------------
  // The round trip
  // ---------------------------------------------------------------------

  function Quad(a: Byte, b: Byte, c: Byte): seq<Sextet> {
    [a / 4, a % 4 * 16 + b / 16, b % 16 * 4 + c / 64, c % 64]
  }

  function Chars(vs: seq<Sextet>): string {
    seq(|vs|, i requires 0 <= i < |vs| => CharOf(vs[i]))
  }

  /** The sextets of a byte string, its last group short. */
  function Sextets(bs: seq<Byte>): seq<Sextet> {
    if |bs| == 0 then []
    else if |bs| == 1 then Quad(bs[0], 0, 0)[..2]
    else if |bs| == 2 then Quad(bs[0], bs[1], 0)[..3]
    else Quad(bs[0], bs[1], bs[2]) + Sextets(bs[3..])
  }

  predicate Plain(text: string) {
    forall c <- text :: c != '=' && c != '.' && (c as int) < 128
  }

  lemma CharsArePlain(vs: seq<Sextet>)
    ensures Plain(Chars(vs))
  {
    forall c <- Chars(vs) ensures c != '=' && c != '.' && (c as int) < 128 {
      var i :| 0 <= i < |vs| && Chars(vs)[i] == c;
      CharOfValue(vs[i]);
    }
  }

  lemma PadAfterQuad(s: string, t: string)
    requires |s| == 4
    ensures Pad(s + t) == s + Pad(t)
  {
    assert |s + t| % 4 == |t| % 4;
  }

  lemma ShortPaddedIsPad(bs: seq<Byte>)
    requires |bs| < 3
    ensures Padded(bs) == Pad(Chars(Sextets(bs)))
    ensures |Sextets(bs)| == if |bs| == 0 then 0 else |bs| + 1
  {
    var vs := Sextets(bs);
    if |bs| == 1 {
      assert Chars(vs) == [CharOf(vs[0]), CharOf(vs[1])];
    } else if |bs| == 2 {
      assert Chars(vs) == [CharOf(vs[0]), CharOf(vs[1]), CharOf(vs[2])];
    }
  }

  lemma LongPadded(a: Byte, b: Byte, c: Byte, rest: seq<Byte>)
    ensures Padded([a, b, c] + rest) == Chars(Quad(a, b, c)) + Padded(rest)
    ensures Sextets([a, b, c] + rest) == Quad(a, b, c) + Sextets(rest)
  {
    var bs, q := [a, b, c] + rest, Quad(a, b, c);
    assert bs[3..] == rest;
    assert Chars(q) == [CharOf(q[0]), CharOf(q[1]), CharOf(q[2]), CharOf(q[3])];
  }

  lemma CharsAppend(vs: seq<Sextet>, ws: seq<Sextet>)
    ensures Chars(vs + ws) == Chars(vs) + Chars(ws)
  {
  }

  lemma FourMore(n: nat, k: nat)
    ensures (n + 4) % 4 == n % 4 && (k + 3) % 3 == k % 3
  {
  }

  lemma SextetsOfQuad(bs: seq<Byte>)
    requires |bs| >= 3
    ensures |Sextets(bs)| == |Sextets(bs[3..])| + 4
  {
  }

  lemma {:induction false} SextetCount(bs: seq<Byte>)
    ensures |Sextets(bs)| % 4 == if |bs| % 3 == 0 then 0 else |bs| % 3 + 1
    decreases |bs|
  {
    if |bs| >= 3 {
      SextetCount(bs[3..]);
      SextetsOfQuad(bs);
      FourMore(|Sextets(bs[3..])|, |bs| - 3);
    }
  }

  lemma {:induction false} PaddedIsPad(bs: seq<Byte>)
    ensures Padded(bs) == Pad(Chars(Sextets(bs)))
    decreases |bs|
  {
    if |bs| >= 3 {
      var rest := bs[3..];
      PaddedIsPad(rest);
      assert bs == [bs[0], bs[1], bs[2]] + rest;
      LongPadded(bs[0], bs[1], bs[2], rest);
      CharsAppend(Quad(bs[0], bs[1], bs[2]), Sextets(rest));
      PadAfterQuad(Chars(Quad(bs[0], bs[1], bs[2])), Chars(Sextets(rest)));
    } else {
      ShortPaddedIsPad(bs);
    }
  }

  lemma {:induction false} StripsPadding(s: string, n: nat)
    requires Plain(s)
    ensures TrimRight(s + seq(n, i => '='), c => c == '=') == s
  {
    var t := s + seq(n, i => '=');
    if n > 0 {
      assert t[..|t| - 1] == s + seq(n - 1, i => '=');
      StripsPadding(s, n - 1);
    } else {
      assert t == s;
      if s != "" {
        assert s[|s| - 1] in s;
      }
    }
  }

  lemma EncodeIsChars(bs: seq<Byte>)
    ensures Encode(bs) == Chars(Sextets(bs))
  {
    PaddedIsPad(bs);
    CharsArePlain(Sextets(bs));
    var body := Chars(Sextets(bs));
    var n := |Padded(bs)| - |body|;
    assert Padded(bs) == body + seq(n, i => '=');
    StripsPadding(body, n);
  }

  function Feed(d: Decoder, vs: seq<Sextet>): Decoder
    decreases |vs|
  {
    if vs == [] then d else Feed(Accept(d, vs[0]), vs[1..])
  }

  /** Reading characters of the alphabet feeds their values in. */
  lemma {:induction false} RunFeeds(d: Decoder, vs: seq<Sextet>, rest: string)
    ensures Run(d, Chars(vs) + rest) == Run(Feed(d, vs), rest)
    decreases |vs|
  {
    if vs == [] {
      assert Chars(vs) + rest == rest;
    } else {
      var s := Chars(vs) + rest;
      CharOfValue(vs[0]);
      assert s[1..] == Chars(vs[1..]) + rest;
      RunFeeds(Accept(d, vs[0]), vs[1..], rest);
    }
  }

  lemma AcceptParts(a: Byte, b: Byte, c: Byte)
    ensures var q := Quad(a, b, c);
            && q[0] as int * 4 + q[1] as int / 16 == a as int && q[1] as int % 16 == b as int / 16
            && b as int / 16 * 16 + q[2] as int / 4 == b as int && q[2] as int % 4 == c as int / 64
            && c as int / 64 * 64 + q[3] as int == c as int
  {
  }

  lemma AcceptQuad(out: seq<Byte>, a: Byte, b: Byte, c: Byte)
    ensures var q := Quad(a, b, c);
            var d1 := Accept(Decoder(0, 0, 0, out), q[0]);
            && Accept(d1, q[1]) == Decoder(2, b / 16, 0, out + [a])
            && Accept(Decoder(2, b / 16, 0, out + [a]), q[2]) == Decoder(3, c / 64, 0, out + [a] + [b])
            && Accept(Decoder(3, c / 64, 0, out + [a] + [b]), q[3]) == Decoder(0, 0, 0, out + [a] + [b] + [c])
  {
    AcceptParts(a, b, c);
  }

  lemma FeedFour(d: Decoder, vs: seq<Sextet>)
    requires |vs| >= 4
    ensures Feed(d, vs) == Feed(Accept(Accept(Accept(Accept(d, vs[0]), vs[1]), vs[2]), vs[3]), vs[4..])
  {
    assert vs[1..][1..] == vs[2..] && vs[2..][1..] == vs[3..] && vs[3..][1..] == vs[4..];
    var d1 := Accept(d, vs[0]);
    var d2 := Accept(d1, vs[1]);
    var d3 := Accept(d2, vs[2]);
    assert Feed(d1, vs[1..]) == Feed(d2, vs[2..]);
    assert Feed(d2, vs[2..]) == Feed(d3, vs[3..]);
  }

  lemma FeedOne(out: seq<Byte>, a: Byte)
    ensures Feed(Decoder(0, 0, 0, out), Quad(a, 0, 0)[..2]) == Decoder(2, 0, 0, out + [a])
  {
    var vs, d := Quad(a, 0, 0)[..2], Decoder(0, 0, 0, out);
    AcceptQuad(out, a, 0, 0);
    assert vs[1..][1..] == [];
    assert Feed(Accept(d, vs[0]), vs[1..]) == Feed(Accept(Accept(d, vs[0]), vs[1]), []);
  }

  lemma FeedTwo(out: seq<Byte>, a: Byte, b: Byte)
    ensures Feed(Decoder(0, 0, 0, out), Quad(a, b, 0)[..3]) == Decoder(3, 0, 0, out + [a] + [b])
  {
    var vs, d := Quad(a, b, 0)[..3], Decoder(0, 0, 0, out);
    var d1 := Accept(d, vs[0]);
    var d2 := Accept(d1, vs[1]);
    var d3 := Accept(d2, vs[2]);
    assert vs[1..][1..] == vs[2..] && vs[2..][1..] == [];
    assert Feed(d2, vs[2..]) == Feed(d3, []);
    assert Feed(d1, vs[1..]) == d3;
    AcceptQuad(out, a, b, 0);
  }

  lemma FeedQuad(out: seq<Byte>, a: Byte, b: Byte, c: Byte, rest: seq<Sextet>)
    ensures Feed(Decoder(0, 0, 0, out), Quad(a, b, c) + rest) == Feed(Decoder(0, 0, 0, out + [a] + [b] + [c]), rest)
  {
    var vs := Quad(a, b, c) + rest;
    AcceptQuad(out, a, b, c);
    FeedFour(Decoder(0, 0, 0, out), vs);
    assert vs[4..] == rest;
  }

  /** Where the decoder stands after a whole byte string's sextets. */
  function After(out: seq<Byte>, n: nat): Decoder {
    Decoder(if n % 3 == 0 then 0 else n % 3 + 1, 0, 0, out)
  }

  lemma {:induction false} FeedSextets(out: seq<Byte>, bs: seq<Byte>)
    ensures Feed(Decoder(0, 0, 0, out), Sextets(bs)) == After(out + bs, |bs|)
    decreases |bs|
  {
    if |bs| >= 3 {
      var longer := out + [bs[0]] + [bs[1]] + [bs[2]];
      FeedQuad(out, bs[0], bs[1], bs[2], Sextets(bs[3..]));
      FeedSextets(longer, bs[3..]);
      assert longer + bs[3..] == out + bs;
    } else if |bs| == 1 {
      FeedOne(out, bs[0]);
      assert bs == [bs[0]];
    } else if |bs| == 2 {
      FeedTwo(out, bs[0], bs[1]);
      assert out + [bs[0]] + [bs[1]] == out + bs;
    } else {
      assert out + bs == out;
    }
  }

  lemma RunEnds(d: Decoder)
    requires d.pads == 0
    ensures d.quad == 0 ==> Run(d, "") == Some(d.out)
    ensures d.quad == 2 ==> Run(d, "==") == Some(d.out)
    ensures d.quad == 3 ==> Run(d, "=") == Some(d.out)
  {
    if d.quad == 2 {
      assert "=="[1..] == "=";
    }
  }

  /** Decoding undoes encoding for all byte strings. */
  lemma RoundTrip(bs: seq<Byte>)
    ensures Decode(Encode(bs)) == Some(bs)
    ensures '.' !in Encode(bs)
  {
    EncodeIsChars(bs);
    PaddedIsPad(bs);
    SextetCount(bs);
    var vs := Sextets(bs);
    CharsArePlain(vs);
    FeedSextets([], bs);
    assert [] + bs == bs;
    var d := Feed(START, vs);
    var pad := Pad(Chars(vs))[|vs|..];
    assert Pad(Chars(vs)) == Chars(vs) + pad;
    RunFeeds(START, vs, pad);
    RunEnds(d);
  }

  /** The four sextets of three bytes are the same number, six bits at a time. */
  lemma QuadIsTheNumber(a: Byte, b: Byte, c: Byte)
    ensures var q := Quad(a, b, c);
            262144 * q[0] as int + 4096 * q[1] as int + 64 * q[2] as int + q[3] as int ==
            65536 * a as int + 256 * b as int + c as int
  {
  }

  /** The alphabet of section 5 of RFC 4648, shown on the test vectors of its section 10
      and on bytes that need the two characters it changes. */
  lemma Rfc4648Vectors()
    ensures Encode([]) == "" && Encode([102]) == "Zg" && Encode([102, 111]) == "Zm8"
    ensures Encode([102, 111, 111]) == "Zm9v" && Encode([0xFB, 0xEF, 0xFF]) == "--__"
  {
    EncodeIsChars([]);
    EncodeIsChars([102]);
    EncodeIsChars([102, 111]);
    EncodeIsChars([102, 111, 111]);
    EncodeIsChars([0xFB, 0xEF, 0xFF]);
    assert Sextets([102, 111, 111]) == [25, 38, 61, 47];
    assert Sextets([0xFB, 0xEF, 0xFF]) == [62, 62, 63, 63];
  }
}
