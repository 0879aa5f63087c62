/** The report pages' text helpers: HTML escaping by five replacements in turn,
    and the decoding of %XX escapes in links. */
module SupportText {
  import opened Wrappers

  // ---- Escaping HTML ----

  /** `c` replaced throughout, in one pass. */
  function Replaced(s: string, c: char, with: string): string {
    if s == "" then "" else (if s[0] == c then with else [s[0]]) + Replaced(s[1..], c, with)
  }

  function EscapeHtml(s: string): string {
    Replaced(Replaced(Replaced(Replaced(Replaced(s, '&', "&amp;"), '<', "&lt;"), '>', "&gt;"), '"', "&quot;"), '\'', "&#39;")
  }

  /** What a character of the text becomes. */
  function Entity(c: char): string {
    if c == '&' then "&amp;"
    else if c == '<' then "&lt;"
    else if c == '>' then "&gt;"
    else if c == '"' then "&quot;"
    else if c == '\'' then "&#39;"
    else [c]
  }

  function Mapped(s: string): string {
    if s == "" then "" else Entity(s[0]) + Mapped(s[1..])
  }

  lemma {:induction false} ReplacedJoin(a: string, b: string, c: char, with: string)
    ensures Replaced(a + b, c, with) == Replaced(a, c, with) + Replaced(b, c, with)
  {
    if a == "" {
      assert a + b == b;
    } else {
      assert (a + b)[1..] == a[1..] + b;
      ReplacedJoin(a[1..], b, c, with);
    }
  }

  lemma {:induction false} ReplacedNone(s: string, c: char, with: string)
    requires forall i :: 0 <= i < |s| ==> s[i] != c
    ensures Replaced(s, c, with) == s
  {
    if s != "" {
      ReplacedNone(s[1..], c, with);
      assert s == [s[0]] + s[1..];
    }
  }

  lemma EscapeJoin(a: string, b: string)
    ensures EscapeHtml(a + b) == EscapeHtml(a) + EscapeHtml(b)
  {
    hide Replaced;
    ReplacedJoin(a, b, '&', "&amp;");
    var a1, b1 := Replaced(a, '&', "&amp;"), Replaced(b, '&', "&amp;");
    ReplacedJoin(a1, b1, '<', "&lt;");
    var a2, b2 := Replaced(a1, '<', "&lt;"), Replaced(b1, '<', "&lt;");
    ReplacedJoin(a2, b2, '>', "&gt;");
    var a3, b3 := Replaced(a2, '>', "&gt;"), Replaced(b2, '>', "&gt;");
    ReplacedJoin(a3, b3, '"', "&quot;");
    var a4, b4 := Replaced(a3, '"', "&quot;"), Replaced(b3, '"', "&quot;");
    ReplacedJoin(a4, b4, '\'', "&#39;");
  }

  lemma ReplacedOne(c: char, with: string)
    ensures Replaced([c], c, with) == with
  {
    assert [c][1..] == "";
    assert with + "" == with;
  }

  /** One character through the five passes: a later pass never finds its own
      character in what an earlier one wrote. */
  lemma EscapeOne(c: char)
    ensures EscapeHtml([c]) == Entity(c)
  {
    hide Replaced;
    var e := Entity(c);
    if c == '&' { ReplacedOne(c, e); } else { ReplacedNone([c], '&', "&amp;"); }
    var s1 := if c == '&' then e else [c];
    if c == '<' { ReplacedOne(c, e); } else { ReplacedNone(s1, '<', "&lt;"); }
    var s2 := if c == '<' then e else s1;
    if c == '>' { ReplacedOne(c, e); } else { ReplacedNone(s2, '>', "&gt;"); }
    var s3 := if c == '>' then e else s2;
    if c == '"' { ReplacedOne(c, e); } else { ReplacedNone(s3, '"', "&quot;"); }
    var s4 := if c == '"' then e else s3;
    if c == '\'' { ReplacedOne(c, e); } else { ReplacedNone(s4, '\'', "&#39;"); }
  }

  /** The five passes are one map, character by character. */
  lemma {:induction false} EscapeIsMap(s: string)
    ensures EscapeHtml(s) == Mapped(s)
  {
    if s != "" {
      assert s == [s[0]] + s[1..];
      EscapeJoin([s[0]], s[1..]);
      EscapeOne(s[0]);
      EscapeIsMap(s[1..]);
      hide EscapeHtml;
    }
  }

  /** Reads the five entities back; anything else stands for itself. */
  function Unescape(s: string): string {
    if s == "" then ""
    else if "&amp;" <= s then "&" + Unescape(s[5..])
    else if "&lt;" <= s then "<" + Unescape(s[4..])
    else if "&gt;" <= s then ">" + Unescape(s[4..])
    else if "&quot;" <= s then "\"" + Unescape(s[6..])
    else if "&#39;" <= s then "'" + Unescape(s[5..])
    else [s[0]] + Unescape(s[1..])
  }

  lemma UnescapeOne(c: char, rest: string)
    ensures Unescape(Entity(c) + rest) == [c] + Unescape(rest)
  {
    var e := Entity(c);
    var s := e + rest;
    assert s[|e|..] == rest;
    assert e <= s;
    assert s[0] == e[0];
    if c == '&' || c == '<' || c == '>' || c == '"' || c == '\'' {
      assert s[1] == e[1] && s[2] == e[2];
    }
  }

  /** Nothing is lost in escaping: the text comes back whole. */
  lemma {:induction false} EscapeUndone(s: string)
    ensures Unescape(EscapeHtml(s)) == s
  {
    EscapeIsMap(s);
    if s != "" {
      EscapeUndone(s[1..]);
      EscapeIsMap(s[1..]);
      UnescapeOne(s[0], Mapped(s[1..]));
      assert s == [s[0]] + s[1..];
      hide Unescape, EscapeHtml, Entity;
    }
  }

  /** No markup is left in escaped text: no angle bracket or quote, and every
      ampersand begins an entity. */
  ghost predicate Inert(s: string) {
    forall i :: 0 <= i < |s| ==>
      && s[i] != '<' && s[i] != '>' && s[i] != '"' && s[i] != '\''
      && (s[i] == '&' ==>
            "&amp;" <= s[i..] || "&lt;" <= s[i..] || "&gt;" <= s[i..] || "&quot;" <= s[i..] || "&#39;" <= s[i..])
  }

  predicate Plain(c: char) {
    c != '<' && c != '>' && c != '"' && c != '\'' && c != '&'
  }

  /** An entity has nothing special after its ampersand. */
  lemma EntityIs(c: char)
    ensures var e := Entity(c);
            && (forall i :: 0 < i < |e| ==> Plain(e[i]))
            && |e| > 0
            && (Plain(e[0]) || e == "&amp;" || e == "&lt;" || e == "&gt;" || e == "&quot;" || e == "&#39;")
  {
  }

  lemma InertOne(c: char, rest: string)
    requires Inert(rest)
    ensures Inert(Entity(c) + rest)
  {
    EntityIs(c);
    var e := Entity(c);
    hide Entity;
    var s := e + rest;
    assert s[0..] == s && e <= s;
    forall i | 0 < i < |e| ensures Plain(s[i]) { assert s[i] == e[i]; }
    forall i | |e| <= i < |s| ensures s[i] == rest[i - |e|] && s[i..] == rest[i - |e|..] {}
  }

  lemma {:induction false} EscapedIsInert(s: string)
    ensures Inert(EscapeHtml(s))
  {
    EscapeIsMap(s);
    if s != "" {
      EscapedIsInert(s[1..]);
      EscapeIsMap(s[1..]);
      InertOne(s[0], Mapped(s[1..]));
      hide Inert, EscapeHtml, Entity;
    }
  }

  // ---- Decoding %XX ----

  type Byte = b: int | 0 <= b < 256

  const PERCENT: Byte := 37
  const PLUS: Byte := 43

  function HexDigit(b: Byte): Option<nat> {
    if 48 <= b <= 57 then Some(b - 48)
    else if 65 <= b <= 70 then Some(b - 55)
    else if 97 <= b <= 102 then Some(b - 87)
    else None
  }

  /** Two characters as the standard library's radix parser reads them: a plus
      sign may stand before the digits. */
  function ParseHex(a: Byte, b: Byte): Option<Byte> {
    if HexDigit(b).None? then None
    else if a == PLUS then Some(HexDigit(b).value)
    else if HexDigit(a).Some? then Some(HexDigit(a).value * 16 + HexDigit(b).value)
    else None
  }

  function Unquoted(text: seq<Byte>): seq<Byte> {
    if text == [] then []
    else if text[0] == PERCENT && |text| > 2 && ParseHex(text[1], text[2]).Some? then
      [ParseHex(text[1], text[2]).value] + Unquoted(text[3..])
    else [text[0]] + Unquoted(text[1..])
  }

  method Unquote(bytes: seq<Byte>) returns (out: seq<Byte>)
    ensures out == Unquoted(bytes)
  {
    out := [];
    var i := 0;
    while i < |bytes|
      invariant i <= |bytes| && out + Unquoted(bytes[i..]) == Unquoted(bytes)
    {
      ghost var rest := bytes[i..];
      if bytes[i] == PERCENT && i + 2 < |bytes| {
        var b := ParseHex(bytes[i + 1], bytes[i + 2]);
        if b.Some? {
          assert rest[3..] == bytes[i + 3..];
          assert out + [b.value] + Unquoted(rest[3..]) == out + ([b.value] + Unquoted(rest[3..]));
          out := out + [b.value];
          i := i + 3;
          continue;
        }
      }
      assert rest[1..] == bytes[i + 1..];
      assert out + [bytes[i]] + Unquoted(rest[1..]) == out + ([bytes[i]] + Unquoted(rest[1..]));
      out := out + [bytes[i]];
      i := i + 1;
    }
  }

  /** The decoding its documentation gives: %XX with two hexadecimal digits is a
      byte (section 2.1 of RFC 3986), anything else is left as it is. */
  function Strict(text: seq<Byte>): seq<Byte> {
    if text == [] then []
    else if text[0] == PERCENT && |text| > 2 && HexDigit(text[1]).Some? && HexDigit(text[2]).Some? then
      [HexDigit(text[1]).value * 16 + HexDigit(text[2]).value] + Strict(text[3..])
    else [text[0]] + Strict(text[1..])
  }

  /** A percent sign, a plus and a digit. */
  ghost predicate PlusAt(text: seq<Byte>, i: nat) {
    i + 2 < |text| && text[i] == PERCENT && text[i + 1] == PLUS && HexDigit(text[i + 2]).Some?
  }

  /** The decoder does as documented if and only if nowhere in the text a percent
      sign is followed by a plus and a digit: `%+4` is read as the byte 4. */
  lemma {:induction false} UnquotedExactly(text: seq<Byte>)
    ensures Unquoted(text) == Strict(text) <==> forall i: nat :: !PlusAt(text, i)
  {
    if text != [] {
      var strict := text[0] == PERCENT && |text| > 2 && HexDigit(text[1]).Some? && HexDigit(text[2]).Some?;
      if PlusAt(text, 0) {
        assert Unquoted(text)[0] != Strict(text)[0];
      } else {
        var n := if strict then 3 else 1;
        UnquotedExactly(text[n..]);
        assert Unquoted(text)[0] == Strict(text)[0];
        assert Unquoted(text)[1..] == Unquoted(text[n..]) && Strict(text)[1..] == Strict(text[n..]);
        PlusLater(text, n);
      }
    }
  }

  lemma PlusLater(text: seq<Byte>, n: nat)
    requires n <= |text| && (n == 1 || n == 3) && !PlusAt(text, 0)
    requires n == 3 ==> HexDigit(text[1]).Some? && HexDigit(text[2]).Some?
    ensures (forall i: nat :: !PlusAt(text, i)) <==> forall i: nat :: !PlusAt(text[n..], i)
  {
    forall i: nat | PlusAt(text[n..], i) ensures PlusAt(text, i + n) {}
    forall i: nat | PlusAt(text, i) ensures i >= n && PlusAt(text[n..], i - n) {}
  }

  /** The hexadecimal digits of section 2.1 of RFC 3986, in either case. */
  const LOWER_DIGITS: seq<Byte> := [48, 49, 50, 51, 52, 53, 54, 55, 56, 57, 97, 98, 99, 100, 101, 102]
  const UPPER_DIGITS: seq<Byte> := [48, 49, 50, 51, 52, 53, 54, 55, 56, 57, 65, 66, 67, 68, 69, 70]

  /** A byte is a hexadecimal digit exactly if it is in one of the two rows, and counts
      as its place there. */
  lemma HexDigitSays(b: Byte, d: nat)
    requires d < 16
    ensures HexDigit(b) == Some(d) <==> b == LOWER_DIGITS[d] || b == UPPER_DIGITS[d]
    ensures HexDigit(b).Some? ==> HexDigit(b).value < 16
  {
  }

  /** The text quotes the bytes: each of them as it is, if it is in `keep`, or as a
      percent sign and two digits, each in either case. */
  ghost predicate Quotes(text: seq<Byte>, bytes: seq<Byte>, keep: set<Byte>)
    decreases |bytes|
  {
    if bytes == [] then text == []
    else
      || (text != [] && text[0] == bytes[0] && bytes[0] in keep && Quotes(text[1..], bytes[1..], keep))
      || (|text| >= 3 && text[0] == PERCENT && Spells(text[1], bytes[0] / 16) && Spells(text[2], bytes[0] % 16)
          && Quotes(text[3..], bytes[1..], keep))
  }

  ghost predicate Spells(b: Byte, d: nat)
    requires d < 16
  {
    b == LOWER_DIGITS[d] || b == UPPER_DIGITS[d]
  }

  /** Decoding undoes quoting, whatever else is quoted and in whatever case, as long as
      the percent sign always is. */
  lemma {:induction false} UnquoteUndoes(text: seq<Byte>, bytes: seq<Byte>, keep: set<Byte>)
    requires PERCENT !in keep && Quotes(text, bytes, keep)
    ensures Unquoted(text) == bytes
    decreases |bytes|
  {
    if bytes != [] {
      var b := bytes[0];
      if text[0] == b && b in keep && Quotes(text[1..], bytes[1..], keep) {
        UnquoteUndoes(text[1..], bytes[1..], keep);
      } else {
        HexDigitSays(text[1], b / 16);
        HexDigitSays(text[2], b % 16);
        assert b == b / 16 * 16 + b % 16;
        UnquoteUndoes(text[3..], bytes[1..], keep);
        assert ParseHex(text[1], text[2]) == Some(b);
      }
      assert bytes == [b] + bytes[1..];
    }
  }

  /** The text `%+4` is decoded to a byte, though it isn't %XX. */
  lemma PlusDecoded()
    ensures Unquoted([PERCENT, PLUS, 52]) == [4] && Strict([PERCENT, PLUS, 52]) == [PERCENT, PLUS, 52]
  {
    var text: seq<Byte> := [PERCENT, PLUS, 52];
    assert text[3..] == [] && text[1..] == [PLUS, 52] && text[1..][1..] == [52] && text[1..][1..][1..] == [];
    assert Strict(text) == [PERCENT] + Strict(text[1..]);
    assert Strict(text[1..]) == [PLUS] + Strict(text[1..][1..]);
    assert Strict(text[1..][1..]) == [52] + Strict([]);
  }
}
