/** The issuer in front of an OAuth token: unpadded base64 between two tildes. */
module IssuerFrame {
  import opened Results
  import opened Text

  type byte = n: int | 0 <= n < 256

  type sextet = n: int | 0 <= n < 64

  /** The standard alphabet of section 4 of RFC 4648. */
  function Letter(n: sextet): char {
    if n < 26 then 'A' + n as char
    else if n < 52 then 'a' + (n - 26) as char
    else if n < 62 then '0' + (n - 52) as char
    else if n == 62 then '+' else '/'
  }

  function Index(c: char): Option<sextet> {
    if 'A' <= c <= 'Z' then Some((c - 'A') as int)
    else if 'a' <= c <= 'z' then Some(26 + (c - 'a') as int)
    else if '0' <= c <= '9' then Some(52 + (c - '0') as int)
    else if c == '+' then Some(62)
    else if c == '/' then Some(63)
    else None
  }

  lemma LetterIndex(n: sextet)
    ensures Index(Letter(n)) == Some(n)
    ensures Letter(n) != '=' && Letter(n) != '~'
  {
  }

  /** `base64.RawStdEncoding`: three bytes to four letters; one or two bytes left over to two or three letters. */
  function Encode(bs: seq<byte>): string {
    if |bs| == 0 then ""
    else if |bs| == 1 then [Letter(bs[0] / 4), Letter(bs[0] % 4 * 16)]
    else if |bs| == 2 then [Letter(bs[0] / 4), Letter(bs[0] % 4 * 16 + bs[1] / 16), Letter(bs[1] % 16 * 4)]
    else
      [Letter(bs[0] / 4), Letter(bs[0] % 4 * 16 + bs[1] / 16), Letter(bs[1] % 16 * 4 + bs[2] / 64), Letter(bs[2] % 64)]
      + Encode(bs[3..])
  }

  function Indices(s: string): Option<seq<sextet>> {
    if s == "" then Some([])
    else match (Index(s[0]), Indices(s[1..]))
      case (Some(n), Some(ns)) => Some([n] + ns)
      case _ => None
  }

  function FirstByte(m: sextet, n: sextet): byte {
    var a: int, b: int := m, n;
    a * 4 + b / 16
  }

  function SecondByte(m: sextet, n: sextet): byte {
    var a: int, b: int := m, n;
    a % 16 * 16 + b / 4
  }

  function ThirdByte(m: sextet, n: sextet): byte {
    var a: int, b: int := m, n;
    a % 4 * 64 + b
  }

  /** The bytes of a run of sextets; a single one left over is an error. */
  function Bytes(ns: seq<sextet>): Option<seq<byte>> {
    if |ns| == 0 then Some([])
    else if |ns| == 1 then None
    else if |ns| == 2 then Some([FirstByte(ns[0], ns[1])])
    else if |ns| == 3 then Some([FirstByte(ns[0], ns[1]), SecondByte(ns[1], ns[2])])
    else match Bytes(ns[4..])
      case None => None
      case Some(rest) => Some([FirstByte(ns[0], ns[1]), SecondByte(ns[1], ns[2]), ThirdByte(ns[2], ns[3])] + rest)
  }

  /** The receiver's side. */
  function Decode(s: string): Option<seq<byte>> {
    match Indices(s)
    case None => None
    case Some(ns) => Bytes(ns)
  }

  /** The sextets of a byte string. */
  function Sextets(bs: seq<byte>): seq<sextet> {
    if |bs| == 0 then []
    else if |bs| == 1 then [bs[0] / 4, bs[0] % 4 * 16]
    else if |bs| == 2 then [bs[0] / 4, bs[0] % 4 * 16 + bs[1] / 16, bs[1] % 16 * 4]
    else [bs[0] / 4, bs[0] % 4 * 16 + bs[1] / 16, bs[1] % 16 * 4 + bs[2] / 64, bs[2] % 64] + Sextets(bs[3..])
  }

  function Letters(ns: seq<sextet>): string {
    if ns == [] then "" else [Letter(ns[0])] + Letters(ns[1..])
  }

  lemma {:induction false} LettersRoundTrip(ns: seq<sextet>)
    ensures Indices(Letters(ns)) == Some(ns)
    ensures Free(Letters(ns), '=') && Free(Letters(ns), '~')
  {
    if ns != [] {
      LetterIndex(ns[0]);
      LettersRoundTrip(ns[1..]);
      assert Letters(ns)[0] == Letter(ns[0]) && Letters(ns)[1..] == Letters(ns[1..]);
      assert [ns[0]] + ns[1..] == ns;
    }
  }

  lemma {:induction false} LettersConcat(ms: seq<sextet>, ns: seq<sextet>)
    ensures Letters(ms + ns) == Letters(ms) + Letters(ns)
  {
    if ms == [] {
      assert ms + ns == ns;
    } else {
      assert (ms + ns)[1..] == ms[1..] + ns;
      LettersConcat(ms[1..], ns);
    }
  }

  lemma ShortLetters(a: sextet, b: sextet, c: sextet, d: sextet)
    ensures Letters([a]) == [Letter(a)] && Letters([a, b]) == [Letter(a), Letter(b)]
    ensures Letters([a, b, c]) == [Letter(a), Letter(b), Letter(c)]
    ensures Letters([a, b, c, d]) == [Letter(a), Letter(b), Letter(c), Letter(d)]
  {
    LettersConcat([a], [b]);
    LettersConcat([a, b], [c]);
    LettersConcat([a, b, c], [d]);
    assert [a] + [b] == [a, b] && [a, b] + [c] == [a, b, c] && [a, b, c] + [d] == [a, b, c, d];
    assert Letters([a]) == [Letter(a)] && Letters([b]) == [Letter(b)];
    assert Letters([c]) == [Letter(c)] && Letters([d]) == [Letter(d)];
  }

  lemma {:induction false} EncodeIsLetters(bs: seq<byte>)
    ensures Encode(bs) == Letters(Sextets(bs))
  {
    var ns := Sextets(bs);
    if |bs| >= 3 {
      EncodeIsLetters(bs[3..]);
      ShortLetters(ns[0], ns[1], ns[2], ns[3]);
      LettersConcat([ns[0], ns[1], ns[2], ns[3]], Sextets(bs[3..]));
    } else if |bs| == 2 {
      ShortLetters(ns[0], ns[1], ns[2], ns[2]);
    } else if |bs| == 1 {
      ShortLetters(ns[0], ns[1], ns[1], ns[1]);
    }
  }

  lemma SplitByte(b: byte)
    ensures b / 4 * 4 + b % 4 == b && b / 16 * 16 + b % 16 == b && b / 64 * 64 + b % 64 == b
  {
  }

  lemma BytesBack(a: byte, b: byte, c: byte)
    ensures FirstByte(a / 4, a % 4 * 16) == a
    ensures FirstByte(a / 4, a % 4 * 16 + b / 16) == a
    ensures SecondByte(a % 4 * 16 + b / 16, b % 16 * 4) == b
    ensures SecondByte(a % 4 * 16 + b / 16, b % 16 * 4 + c / 64) == b
    ensures ThirdByte(b % 16 * 4 + c / 64, c % 64) == c
  {
    SplitByte(a);
    SplitByte(b);
    SplitByte(c);
  }

  lemma {:induction false} BytesOfSextets(bs: seq<byte>)
    ensures Bytes(Sextets(bs)) == Some(bs)
  {
    if |bs| >= 3 {
      BytesBack(bs[0], bs[1], bs[2]);
      BytesOfSextets(bs[3..]);
      assert Sextets(bs)[4..] == Sextets(bs[3..]);
      assert bs == [bs[0], bs[1], bs[2]] + bs[3..];
    } else if |bs| == 2 {
      BytesBack(bs[0], bs[1], 0);
      assert bs == [bs[0], bs[1]];
    } else if |bs| == 1 {
      BytesBack(bs[0], 0, 0);
      assert bs == [bs[0]];
    }
  }

  /** Unpadded base64 loses nothing, for inputs of every length, and its letters include neither padding nor tilde. */
  lemma DecodeEncode(bs: seq<byte>)
    ensures Decode(Encode(bs)) == Some(bs)
    ensures Free(Encode(bs), '=') && Free(Encode(bs), '~')
  {
    EncodeIsLetters(bs);
    LettersRoundTrip(Sextets(bs));
    BytesOfSextets(bs);
  }

  /** Known answers: test vectors of section 10 of RFC 4648, without their padding. */
  lemma KnownAnswers()
    ensures Encode([0x66]) == "Zg"
    ensures Encode([0x66, 0x6f]) == "Zm8"
    ensures Encode([0x66, 0x6f, 0x6f, 0x62, 0x61, 0x72]) == "Zm9vYmFy"
  {
    assert [0x66, 0x6f, 0x6f, 0x62, 0x61, 0x72][3..] == [0x62, 0x61, 0x72] && [0x62, 0x61, 0x72][3..] == [];
    assert Encode([0x62, 0x61, 0x72]) == "YmFy";
  }

  /** And the two letters that are neither letters nor digits. */
  lemma LastLetters()
    ensures Encode([0xfb, 0xff]) == "+/8"
  {
  }

  /** `issuerPrefixedToken`. */
  function Frame(issuer: seq<byte>, token: string): string {
    if issuer == [] then token else "~" + Encode(issuer) + "~" + token
  }

  /** The receiver's side: the text after a leading tilde up to the next one is the issuer. */
  function Unframe(s: string): Option<(seq<byte>, string)> {
    if s == "" || s[0] != '~' then None
    else match Cut(s[1..], '~')
      case None => None
      case Some((encoded, token)) =>
        match Decode(encoded)
        case None => None
        case Some(issuer) => Some((issuer, token))
  }

  /** For every issuer and every token the receiver gets both back. */
  lemma UnframeFrame(issuer: seq<byte>, token: string)
    requires issuer != []
    ensures Unframe(Frame(issuer, token)) == Some((issuer, token))
  {
    DecodeEncode(issuer);
    var s := Frame(issuer, token);
    assert s[1..] == Encode(issuer) + "~" + token;
    CutSpec(s[1..], '~', Encode(issuer), token);
  }

  /** Framed tokens collide only when issuer and token agree; a bare token is mistaken for a framed one exactly when
      it already has the shape of one. */
  lemma FramesAgreeIff(issuer: seq<byte>, token: string, issuer': seq<byte>, token': string)
    requires issuer != []
    ensures Frame(issuer, token) == Frame(issuer', token') <==>
      (if issuer' != [] then issuer == issuer' && token == token' else token' == Frame(issuer, token))
  {
    UnframeFrame(issuer, token);
    if issuer' != [] {
      UnframeFrame(issuer', token');
    }
  }
}
