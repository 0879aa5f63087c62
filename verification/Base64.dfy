/** Standard base64 with padding, and the decoder of section 4 of RFC 4648.

    The 24 bits of a group are kept as a number: shifting a byte into its place is
    multiplying it, and as no two places overlap, or-ing it in is adding it. */
module Base64 {
  import opened Wrappers

  type Byte = b: int | 0 <= b < 256

  const UPPER := "ABCDEFGHIJKLMNOPQRSTUVWXYZ"
  const LOWER := "abcdefghijklmnopqrstuvwxyz"
  const DIGITS := "0123456789"
  const TABLE := UPPER + LOWER + DIGITS + "+/"

  const PAD := '='

  // ---- Encoding ----

  /** A chunk's bits, from the left of the 24. */
  function Word(chunk: seq<Byte>): (n: nat)
    requires |chunk| <= 3
    ensures n < 0x100_0000
  {
    (if |chunk| > 0 then (chunk[0] as int) * 0x1_0000 else 0)
    + (if |chunk| > 1 then (chunk[1] as int) * 0x100 else 0)
    + (if |chunk| > 2 then chunk[2] as int else 0)
  }

  /** Six of the 24 bits, the first of them being the highest. */
  function Sextet(n: nat, i: nat): (s: nat)
    requires n < 0x100_0000 && i < 4
    ensures s < 64
  {
    (if i == 0 then n / 0x4_0000 else if i == 1 then n / 0x1000 else if i == 2 then n / 0x40 else n) % 64
  }

  lemma TableSize()
    ensures |TABLE| == 64
  {
  }

  function CharOf(s: nat): char
    requires s < 64
  {
    TableSize();
    TABLE[s]
  }

  /** The four characters of a chunk of one to three bytes. */
  function Group(chunk: seq<Byte>): string
    requires |chunk| <= 3
  {
    var n := Word(chunk);
    seq(4, i requires 0 <= i < 4 => if i <= |chunk| then CharOf(Sextet(n, i)) else PAD)
  }

  function Encode(bytes: seq<Byte>): string {
    if bytes == [] then ""
    else if |bytes| <= 3 then Group(bytes)
    else Group(bytes[..3]) + Encode(bytes[3..])
  }

  function Power(i: nat): nat
    requires i < 3
  {
    if i == 0 then 0x1_0000 else if i == 1 then 0x100 else 1
  }

  method Base64(bytes: seq<Byte>) returns (out: string)
    ensures out == Encode(bytes)
  {
    out := "";
    var at := 0;
    while at < |bytes|
      invariant at <= |bytes| && out + Encode(bytes[at..]) == Encode(bytes)
    {
      var chunk := bytes[at..if at + 3 < |bytes| then at + 3 else |bytes|];
      var n: int := 0;
      for i := 0 to |chunk|
        invariant n == Word(chunk[..i])
      {
        assert chunk[..i + 1][..i] == chunk[..i] && chunk[..i + 1][i] == chunk[i];
        n := n + (chunk[i] as int) * Power(i);
      }
      assert chunk[..|chunk|] == chunk;
      var group := "";
      for i := 0 to 4
        invariant group == Group(chunk)[..i]
      {
        group := group + [if i <= |chunk| then CharOf(Sextet(n, i)) else PAD];
      }
      EncodeStep(bytes[at..], |chunk|);
      assert bytes[at..][|chunk|..] == bytes[at + |chunk|..] && bytes[at..][..|chunk|] == chunk;
      out := out + group;
      at := at + |chunk|;
    }
  }

  lemma EncodeStep(bytes: seq<Byte>, n: nat)
    requires bytes != [] && n == if |bytes| > 3 then 3 else |bytes|
    ensures Encode(bytes) == Group(bytes[..n]) + Encode(bytes[n..])
  {
    hide Group;
    if |bytes| <= 3 { assert bytes[..n] == bytes && bytes[n..] == []; }
  }

  // ---- Decoding ----

  /** The value of a character of the alphabet. */
  function ValueOf(c: char): Option<nat> {
    if 'A' <= c <= 'Z' then Some((c - 'A') as nat)
    else if 'a' <= c <= 'z' then Some((c - 'a') as nat + 26)
    else if '0' <= c <= '9' then Some((c - '0') as nat + 52)
    else if c == '+' then Some(62)
    else if c == '/' then Some(63)
    else None
  }

  /** Four characters read back, of which the last one or two may be padding if no
      group follows. Bits that padding leaves over have to be zero. */
  function UnGroup(g: string, final: bool): Option<seq<Byte>>
    requires |g| == 4
  {
    var a, b, c, d := ValueOf(g[0]), ValueOf(g[1]), ValueOf(g[2]), ValueOf(g[3]);
    if a.None? || b.None? then None
    else if c.Some? && d.Some? then
      var n := Bits(a.value, b.value, c.value, d.value);
      Some([n / 0x1_0000, n / 0x100 % 256, n % 256])
    else if final && c.Some? && g[3] == PAD then
      var n := Bits(a.value, b.value, c.value, 0);
      if n % 256 == 0 then Some([n / 0x1_0000, n / 0x100 % 256]) else None
    else if final && g[2] == PAD && g[3] == PAD then
      var n := Bits(a.value, b.value, 0, 0);
      if n % 0x1_0000 == 0 then Some([n / 0x1_0000]) else None
    else None
  }

  function Bits(a: nat, b: nat, c: nat, d: nat): (n: nat)
    ensures a < 64 && b < 64 && c < 64 && d < 64 ==> n < 0x100_0000
  {
    a * 0x4_0000 + b * 0x1000 + c * 0x40 + d
  }

  function Decode(s: string): Option<seq<Byte>> {
    if s == "" then Some([])
    else if |s| < 4 then None
    else
      match UnGroup(s[..4], |s| == 4)
      case None => None
      case Some(first) =>
        match Decode(s[4..])
        case None => None
        case Some(rest) => Some(first + rest)
  }

  // ---- Each undoes the other ----

  lemma UpperIs(i: nat)
    requires i < 26
    ensures UPPER[i] == 'A' + i as char && LOWER[i] == 'a' + i as char
  {
  }

  lemma DigitIs(i: nat)
    requires i < 10
    ensures DIGITS[i] == '0' + i as char
  {
  }

  /** The table in the order section 4 of RFC 4648 gives it. */
  lemma CharIs(s: nat)
    requires s < 64
    ensures CharOf(s) ==
            if s < 26 then 'A' + s as char
            else if s < 52 then 'a' + (s - 26) as char
            else if s < 62 then '0' + (s - 52) as char
            else if s == 62 then '+' else '/'
  {
    assert |UPPER| == 26 && |LOWER| == 26 && |DIGITS| == 10;
    if s < 26 { UpperIs(s); } else if s < 52 { UpperIs(s - 26); } else if s < 62 { DigitIs(s - 52); }
    var t := UPPER + LOWER + DIGITS + "+/";
    assert t[s] == if s < 26 then UPPER[s] else if s < 52 then LOWER[s - 26] else if s < 62 then DIGITS[s - 52] else "+/"[s - 62];
  }

  lemma AlphabetAgrees(s: nat)
    requires s < 64
    ensures ValueOf(CharOf(s)) == Some(s) && CharOf(s) != PAD
  {
    CharIs(s);
    hide CharOf;
  }

  lemma OneCharacter(c: char)
    ensures ValueOf(c).Some? ==> ValueOf(c).value < 64 && CharOf(ValueOf(c).value) == c
    ensures ValueOf(PAD).None?
  {
    hide CharOf;
    if ValueOf(c).Some? { CharIs(ValueOf(c).value); }
  }

  lemma Quotients(a: nat, b: nat, c: nat, d: nat)
    requires a < 64 && b < 64 && c < 64 && d < 64
    ensures var n := Bits(a, b, c, d);
            n / 0x4_0000 == a && n / 0x1000 == a * 64 + b && n / 0x40 == a * 0x1000 + b * 64 + c
  {
  }

  /** A number below 2^24 is its four sextets. */
  lemma SextetsOf(n: nat)
    requires n < 0x100_0000
    ensures n == Bits(Sextet(n, 0), Sextet(n, 1), Sextet(n, 2), Sextet(n, 3))
  {
    var c, d := n / 0x40 % 64, n % 64;
    var b, a := n / 0x40 / 64 % 64, n / 0x40 / 64 / 64;
    assert n == Bits(a, b, c, d);
    Quotients(a, b, c, d);
    BitsBack(a, b, c, d);
  }

  lemma Remainder(n: nat, q: nat, r: nat)
    requires n == 64 * q + r && r < 64
    ensures n % 64 == r
  {
  }

  lemma BitsBack(a: nat, b: nat, c: nat, d: nat)
    requires a < 64 && b < 64 && c < 64 && d < 64
    ensures var n := Bits(a, b, c, d);
            n < 0x100_0000 && Sextet(n, 0) == a && Sextet(n, 1) == b && Sextet(n, 2) == c && Sextet(n, 3) == d
  {
    var n := Bits(a, b, c, d);
    Quotients(a, b, c, d);
    Remainder(n / 0x4_0000, 0, a);
    Remainder(n / 0x1000, a, b);
    Remainder(n / 0x40, a * 64 + b, c);
    Remainder(n, a * 0x1000 + b * 64 + c, d);
  }

  lemma BytesOf(chunk: seq<Byte>)
    requires 1 <= |chunk| <= 3
    ensures var n := Word(chunk);
            && n / 0x1_0000 == chunk[0]
            && n / 0x100 % 256 == (if |chunk| > 1 then chunk[1] else 0)
            && n % 256 == (if |chunk| > 2 then chunk[2] else 0)
  {
  }

  /** What padding hides is zero. */
  lemma HiddenZero(chunk: seq<Byte>)
    requires 1 <= |chunk| <= 3
    ensures var n := Word(chunk);
            && (|chunk| <= 2 ==> Sextet(n, 3) == 0 && n % 256 == 0)
            && (|chunk| == 1 ==> Sextet(n, 2) == 0 && n % 0x1_0000 == 0)
  {
  }

  lemma GroupAt(chunk: seq<Byte>)
    requires |chunk| <= 3
    ensures var g, n := Group(chunk), Word(chunk);
            && |g| == 4 && g[0] == CharOf(Sextet(n, 0))
            && (|chunk| >= 1 ==> g[1] == CharOf(Sextet(n, 1)))
            && g[2] == (if |chunk| >= 2 then CharOf(Sextet(n, 2)) else PAD)
            && g[3] == (if |chunk| == 3 then CharOf(Sextet(n, 3)) else PAD)
  {
    hide CharOf, Sextet, Word;
  }

  /** What the four characters of a group say. */
  lemma GroupSays(chunk: seq<Byte>)
    requires 1 <= |chunk| <= 3
    ensures var g, n := Group(chunk), Word(chunk);
            && ValueOf(g[0]) == Some(Sextet(n, 0)) && ValueOf(g[1]) == Some(Sextet(n, 1))
            && (if |chunk| >= 2 then ValueOf(g[2]) == Some(Sextet(n, 2)) else g[2] == PAD && ValueOf(g[2]) == None)
            && (if |chunk| == 3 then ValueOf(g[3]) == Some(Sextet(n, 3)) else g[3] == PAD && ValueOf(g[3]) == None)
            && n == Bits(Sextet(n, 0), Sextet(n, 1), if |chunk| >= 2 then Sextet(n, 2) else 0,
                         if |chunk| == 3 then Sextet(n, 3) else 0)
  {
    var n := Word(chunk);
    hide ValueOf, CharOf, Word, Sextet, Bits, Group;
    GroupAt(chunk);
    SextetsOf(n);
    HiddenZero(chunk);
    AlphabetAgrees(Sextet(n, 0));
    AlphabetAgrees(Sextet(n, 1));
    AlphabetAgrees(Sextet(n, 2));
    AlphabetAgrees(Sextet(n, 3));
    OneCharacter(PAD);
  }

  lemma GroupReads(chunk: seq<Byte>, final: bool)
    requires 1 <= |chunk| <= 3 && (|chunk| < 3 ==> final)
    ensures UnGroup(Group(chunk), final) == Some(chunk)
  {
    hide ValueOf, Word, Sextet, Bits, Group;
    GroupSays(chunk);
    BytesOf(chunk);
    HiddenZero(chunk);
    if |chunk| == 3 {
      assert chunk == [chunk[0], chunk[1], chunk[2]];
    } else if |chunk| == 2 {
      assert chunk == [chunk[0], chunk[1]];
    } else {
      assert chunk == [chunk[0]];
    }
  }

  /** Decoding undoes encoding, for every sequence of bytes. */
  lemma {:induction false} DecodeUndoes(bytes: seq<Byte>)
    ensures Decode(Encode(bytes)) == Some(bytes)
  {
    if bytes != [] {
      var k := if |bytes| > 3 then 3 else |bytes|;
      EncodeStep(bytes, k);
      var g, rest := Group(bytes[..k]), Encode(bytes[k..]);
      DecodeUndoes(bytes[k..]);
      GroupReads(bytes[..k], rest == "");
      EncodeLength(bytes[k..]);
      assert (g + rest)[..4] == g && (g + rest)[4..] == rest;
      assert bytes[..k] + bytes[k..] == bytes;
      hide Group, UnGroup, Encode;
    }
  }

  /** Four characters for every three bytes or part of three. */
  lemma {:induction false} EncodeLength(bytes: seq<Byte>)
    ensures |Encode(bytes)| == (|bytes| + 2) / 3 * 4
  {
    if |bytes| > 3 { EncodeLength(bytes[3..]); }
  }

  lemma WordOfBytes(n: nat)
    requires n < 0x100_0000
    ensures Word([n / 0x1_0000, n / 0x100 % 256, n % 256]) == n
    ensures n % 256 == 0 ==> Word([n / 0x1_0000, n / 0x100 % 256]) == n
    ensures n % 0x1_0000 == 0 ==> Word([n / 0x1_0000]) == n
  {
    var q := n / 0x100;
    assert n / 0x1_0000 == q / 0x100;
  }

  lemma GroupIs(chunk: seq<Byte>, g: string, a: nat, b: nat, c: nat, d: nat)
    requires 1 <= |chunk| <= 3 && |g| == 4 && a < 64 && b < 64 && c < 64 && d < 64
    requires Word(chunk) == Bits(a, b, c, d)
    requires g[0] == CharOf(a) && g[1] == CharOf(b)
    requires g[2] == (if |chunk| >= 2 then CharOf(c) else PAD) && g[3] == (if |chunk| == 3 then CharOf(d) else PAD)
    ensures Group(chunk) == g
  {
    hide Word, Sextet, Bits, CharOf, Group;
    BitsBack(a, b, c, d);
    GroupAt(chunk);
    var e := Group(chunk);
    assert e[0] == g[0] && e[1] == g[1] && e[2] == g[2] && e[3] == g[3];
  }

  lemma UnGroupIs(g: string, final: bool)
    requires |g| == 4 && UnGroup(g, final).Some?
    ensures var chunk := UnGroup(g, final).value;
            1 <= |chunk| <= 3 && Group(chunk) == g && (|chunk| < 3 ==> final)
  {
    hide ValueOf, CharOf, Word, Bits, Group;
    OneCharacter(g[0]);
    OneCharacter(g[1]);
    OneCharacter(g[2]);
    OneCharacter(g[3]);
    var chunk := UnGroup(g, final).value;
    var a, b := ValueOf(g[0]).value, ValueOf(g[1]).value;
    var c := if ValueOf(g[2]).Some? then ValueOf(g[2]).value else 0;
    var d := if ValueOf(g[3]).Some? then ValueOf(g[3]).value else 0;
    WordOfBytes(Bits(a, b, c, d));
    GroupIs(chunk, g, a, b, c, d);
  }

  /** Only what the encoder writes is decoded: the text of some bytes is one. */
  lemma {:induction false} EncodeUndoes(s: string)
    requires Decode(s).Some?
    ensures Encode(Decode(s).value) == s
  {
    if s != "" {
      UnGroupIs(s[..4], |s| == 4);
      EncodeUndoes(s[4..]);
      var chunk, rest := UnGroup(s[..4], |s| == 4).value, Decode(s[4..]).value;
      assert s == s[..4] + s[4..];
      hide UnGroup, Group, Decode;
      if |chunk| < 3 {
        assert s[4..] == "" && rest == [] by { EmptyOnly(rest); }
        assert chunk + rest == chunk;
      } else {
        EncodeStep(chunk + rest, 3);
        assert (chunk + rest)[..3] == chunk && (chunk + rest)[3..] == rest;
      }
    }
  }

  lemma EmptyOnly(bytes: seq<Byte>)
    ensures Encode(bytes) == "" ==> bytes == []
  {
    EncodeLength(bytes);
  }
}
