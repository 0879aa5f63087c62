/** What the recording proxy's reader makes of heads it did not write itself: headers
    in any order, spelt in any case, with any others among them; messages with neither
    a length nor a coding; and what is refused. */
module HttpHeads {
  import opened Wrappers
  import opened HttpMessages
  import opened HttpRoundTrip
  import Decimal
  import Hex

  // ---- Messages with neither length nor coding ----

  ghost function Bare(m: Message): string {
    m.first + CRLF + TypeLine(m.contentType) + CRLF
  }

  /** A head that says nothing of a body: on a connection that goes on there is none,
      and what follows is left; on one that ends, the body is all that follows. */
  lemma BareReads(first: string, contentType: Option<string>, rest: string)
    requires Plain(Message(first, contentType, ""))
    ensures Read(Bare(Message(first, contentType, "")) + rest, false) == Ok((Some(Message(first, contentType, "")), rest))
    ensures Read(Bare(Message(first, contentType, "")) + rest, true) == Ok((Some(Message(first, contentType, rest)), ""))
  {
    BareHead(first, contentType, rest, false);
    BareHead(first, contentType, rest, true);
    hide Read, Bare, ReadHead;
  }

  lemma BareHead(first: string, contentType: Option<string>, rest: string, toEnd: bool)
    requires Plain(Message(first, contentType, ""))
    ensures Read(Bare(Message(first, contentType, "")) + rest, toEnd) ==
            WithBody(first, Head(None, false, contentType), ReadBody(rest, Head(None, false, contentType), toEnd))
  {
    var r := TypeLine(contentType) + (CRLF + rest);
    assert Bare(Message(first, contentType, "")) + rest == first + CRLF + r by { hide TypeLine; }
    hide Bare, TypeLine, ReadHead, ReadBody, Read;
    FirstLine(first, r, toEnd);
    TypeStep(contentType, CRLF + rest, NO_HEAD);
    HeadEnds(rest, Head(None, false, contentType));
  }

  /** What a client may send: a request without a body, one with its length, or one in
      chunks. */
  datatype Sent = NoBody(m: Message) | Lengthed(host: string, port: nat, m: Message) | InChunks(m: Message, chunks: seq<string>)

  ghost predicate Sendable(s: Sent) {
    match s
    case NoBody(m) => Plain(m) && m.body == ""
    case Lengthed(host, _, m) => Plain(m) && NoBreak(host)
    case InChunks(m, chunks) =>
      && Plain(m.(body := "")) && m.body == Joined(chunks) && forall i :: 0 <= i < |chunks| ==> 0 < |chunks[i]| < WORD
  }

  ghost function Written(s: Sent): string {
    match s
    case NoBody(m) => Bare(m)
    case Lengthed(host, port, m) => Forwarded(host, port, m)
    case InChunks(m, chunks) => Chunked(m.first, m.contentType, chunks)
  }

  ghost function AllWritten(all: seq<Sent>): string {
    if all == [] then "" else Written(all[0]) + AllWritten(all[1..])
  }

  lemma OneReads(s: Sent, rest: string)
    requires Sendable(s)
    ensures Read(Written(s) + rest, false) == Ok((Some(s.m), rest))
  {
    hide Read, Forwarded, Chunked, Bare, Plain, NoBreak;
    match s
    case NoBody(m) =>
      BareReads(m.first, m.contentType, rest);
      assert m == Message(m.first, m.contentType, "");
    case Lengthed(host, port, m) => ForwardedReads(host, port, m, rest, false);
    case InChunks(m, chunks) =>
      assert m.(body := "") == Message(m.first, m.contentType, "");
      ChunkedReads(m.first, m.contentType, chunks, rest, false);
      assert m == Message(m.first, m.contentType, Joined(chunks));
  }

  /** All the requests a client sends on one connection are read, in order and no
      more, however each is sent. */
  lemma {:induction false} AllSentRead(all: seq<Sent>)
    requires forall i :: 0 <= i < |all| ==> Sendable(all[i])
    ensures ReadAll(AllWritten(all)) == Ok(seq(|all|, i requires 0 <= i < |all| => all[i].m))
  {
    hide Read, Written, Sendable;
    if all == [] {
      EndsQuietly();
    } else {
      OneReads(all[0], AllWritten(all[1..]));
      AllSentRead(all[1..]);
      assert seq(|all|, i requires 0 <= i < |all| => all[i].m)
          == [all[0].m] + seq(|all[1..]|, i requires 0 <= i < |all[1..]| => all[1..][i].m);
    }
  }

  // ---- Any headers ----

  /** A header with spaces around its value, or a line that isn't a header. */
  datatype Line = Header(name: string, before: string, value: string, after: string) | Other(text: string)

  ghost predicate Blank(s: string) {
    forall i :: 0 <= i < |s| ==> s[i] == ' ' || s[i] == '\t'
  }

  ghost predicate Proper(line: Line) {
    match line
    case Header(name, before, value, after) =>
      && NoBreak(name) && NoBreak(value) && (forall i :: 0 <= i < |name| ==> name[i] != ':')
      && Blank(before) && Blank(after) && EndsTight(value) && StartsTight(value)
    case Other(text) =>
      NoBreak(text) && EndsTight(text) && text != "" && forall i :: 0 <= i < |text| ==> text[i] != ':'
  }

  ghost function TextOf(line: Line): string {
    match line
    case Header(name, before, value, after) => name + ":" + before + value + after
    case Other(text) => text
  }

  ghost function TextsOf(lines: seq<Line>): string {
    if lines == [] then "" else TextOf(lines[0]) + CRLF + TextsOf(lines[1..])
  }

  /** The same letters, in whatever case. */
  ghost predicate Spells(name: string, small: string) {
    |name| == |small| && forall i :: 0 <= i < |name| ==>
      name[i] == small[i] || ('a' <= small[i] <= 'z' && name[i] as int == small[i] as int - 32)
  }

  /** What a header line says, the earlier ones having said `head`. */
  ghost function Says(head: Head, line: Line): Result<Head, ReadError> {
    if !line.Header? then Ok(head)
    else if Spells(line.name, "content-length") then
      match ParseWord(line.value)
      case Some(n) => Ok(head.(length := Some(n)))
      case None => Err(BadLength)
    else if Spells(line.name, "transfer-encoding") then Ok(head.(chunked := Spells(line.value, "chunked")))
    else if Spells(line.name, "content-type") then Ok(head.(contentType := Some(line.value)))
    else Ok(head)
  }

  ghost function AllSay(head: Head, lines: seq<Line>): Result<Head, ReadError>
    decreases |lines|
  {
    if lines == [] then Ok(head)
    else
      match Says(head, lines[0])
      case Err(e) => Err(e)
      case Ok(more) => AllSay(more, lines[1..])
  }

  lemma LoweredIs(s: string, small: string)
    requires forall i :: 0 <= i < |small| ==> !('A' <= small[i] <= 'Z')
    ensures Lowered(s) == small <==> Spells(s, small)
  {
    assert |Lowered(s)| == |s|;
    if Lowered(s) == small {
      forall i | 0 <= i < |s| ensures s[i] == small[i] || ('a' <= small[i] <= 'z' && s[i] as int == small[i] as int - 32) {
        assert Lowered(s)[i] == Lower(s[i]);
      }
    }
    if Spells(s, small) {
      forall i | 0 <= i < |s| ensures Lowered(s)[i] == small[i] {}
    }
  }

  lemma {:induction false} TrimsBlank(s: string, after: string)
    requires Blank(after)
    ensures TrimEnd(s + after) == TrimEnd(s)
  {
    if after == "" {
      assert s + after == s;
    } else {
      var n := |after| - 1;
      assert (s + after)[..|s + after| - 1] == s + after[..n];
      assert (s + after)[|s + after| - 1] == after[n];
      TrimsBlank(s, after[..n]);
    }
  }

  lemma {:induction false} StartsBlank(before: string, value: string)
    requires Blank(before) && StartsTight(value)
    ensures TrimStart(before + value) == value
  {
    if before == "" {
      assert before + value == value;
    } else {
      assert (before + value)[1..] == before[1..] + value;
      StartsBlank(before[1..], value);
    }
  }

  /** The value without the spaces around it, whatever is left of those after. */
  lemma TrimsAround(before: string, value: string)
    requires Blank(before) && StartsTight(value) && EndsTight(value)
    ensures Trim(before + value) == value
  {
    if value == "" {
      TrimsBlank("", before);
      assert "" + before == before == before + value;
      assert TrimEnd("") == "";
    } else {
      TrimsEnd(before, value);
      StartsBlank(before, value);
    }
  }

  /** A line cut at its first colon, its value trimmed, says what it should. */
  lemma CutSays(head: Head, line: string, name: string, before: string, value: string, after: string)
    requires IndexOf(line, ':') == |name| < |line| && line[..|name|] == name && Trim(line[|name| + 1..]) == value
    ensures Headed(head, line) == Says(head, Header(name, before, value, after))
  {
    hide Trim, IndexOf, ParseWord, Spells, Lowered;
    LoweredIs(name, "content-length");
    LoweredIs(name, "transfer-encoding");
    LoweredIs(name, "content-type");
    LoweredIs(value, "chunked");
  }

  /** A header line read off says what it should. */
  lemma HeaderSays(head: Head, name: string, before: string, value: string, after: string)
    requires Proper(Header(name, before, value, after))
    ensures Headed(head, TrimEnd(name + ":" + before + value + after)) == Says(head, Header(name, before, value, after))
  {
    hide TrimEnd, Trim, IndexOf, Headed, Says, NoBreak;
    var kept := if value == "" then "" else before;
    var line := name + ":" + kept + value;
    TrimsLine(name, before, value, after);
    assert line[|name|] == ':' && forall i :: 0 <= i < |name| ==> line[i] == name[i];
    IndexIs(line, ':', |name|);
    assert line[..|name|] == name && line[|name| + 1..] == kept + value;
    assert Blank(kept);
    TrimsAround(kept, value);
    CutSays(head, line, name, before, value, after);
  }

  lemma TrimsLine(name: string, before: string, value: string, after: string)
    requires Blank(before) && Blank(after) && EndsTight(value)
    ensures TrimEnd(name + ":" + before + value + after) == name + ":" + (if value == "" then "" else before) + value
  {
    var s := name + ":" + before + value;
    TrimsBlank(s, after);
    if value == "" {
      assert s == (name + ":") + before;
      TrimsBlank(name + ":", before);
      TrimsNothing(name + ":");
      assert (name + ":")[|name|] == ':';
    } else {
      TrimsEnd(name + ":" + before, value);
    }
  }

  lemma LineSays(head: Head, line: Line)
    requires Proper(line)
    ensures NoBreak(TextOf(line)) && TrimEnd(TextOf(line)) != "" && Headed(head, TrimEnd(TextOf(line))) == Says(head, line)
  {
    match line
    case Header(name, before, value, after) =>
      HeaderSays(head, name, before, value, after);
      TrimsLine(name, before, value, after);
      assert NoBreak(TextOf(line));
    case Other(text) =>
      TrimsNothing(text);
      IndexNone(text, ':');
  }

  /** Any headers at all, one after another and then an empty line, are read as what
      each says in turn, with the reader left after them; the first that is wrong
      stops it. */
  lemma {:induction false} HeadersRead(lines: seq<Line>, rest: string, head: Head)
    requires forall i :: 0 <= i < |lines| ==> Proper(lines[i])
    ensures var result, said := ReadHead(TextsOf(lines) + CRLF + rest, head), AllSay(head, lines);
            if said.Err? then result == Err(said.error) else result == Ok((said.value, rest))
  {
    hide ReadHead, Headed, Says, TextOf, Proper, NoBreak, TrimEnd;
    if lines == [] {
      assert TextsOf(lines) + CRLF + rest == CRLF + rest;
      HeadEnds(rest, head);
    } else {
      var later := TextsOf(lines[1..]) + CRLF + rest;
      assert TextsOf(lines) + CRLF + rest == TextOf(lines[0]) + CRLF + later;
      LineSays(head, lines[0]);
      HeaderStep(TextOf(lines[0]), later, head);
      if Says(head, lines[0]).Ok? {
        HeadersRead(lines[1..], rest, Says(head, lines[0]).value);
      }
    }
  }

  /** The body is by its chunks if the last word on its coding is that, or else by its
      length if one was given, or else by the connection. */
  ghost predicate ReadsAs(result: Result<(Option<Message>, string), ReadError>, first: string, h: Head, rest: string, toEnd: bool) {
    if h.chunked then result == WithBody(first, h, ReadChunks(rest, ""))
    else if h.length.Some? then
      if h.length.value <= |rest| then
        result == Ok((Some(Message(first, h.contentType, rest[..h.length.value])), rest[h.length.value..]))
      else result == Err(Short)
    else if toEnd then result == Ok((Some(Message(first, h.contentType, rest)), ""))
    else result == Ok((Some(Message(first, h.contentType, "")), rest))
  }

  /** A whole message with any headers. */
  lemma AnyHeadReads(first: string, lines: seq<Line>, rest: string, toEnd: bool)
    requires NoBreak(first) && EndsTight(first) && forall i :: 0 <= i < |lines| ==> Proper(lines[i])
    ensures var result, said := Read(first + CRLF + (TextsOf(lines) + CRLF + rest), toEnd), AllSay(NO_HEAD, lines);
            && (said.Err? ==> result == Err(said.error))
            && (said.Ok? ==> ReadsAs(result, first, said.value, rest, toEnd))
  {
    hide Read, ReadHead, ReadBody, TextsOf, AllSay, ReadsAs, WithBody, Proper, NoBreak, EndsTight;
    FirstLine(first, TextsOf(lines) + CRLF + rest, toEnd);
    HeadersRead(lines, rest, NO_HEAD);
    var said := AllSay(NO_HEAD, lines);
    if said.Ok? { BodyAs(first, said.value, rest, toEnd); }
  }

  lemma BodyAs(first: string, h: Head, rest: string, toEnd: bool)
    ensures ReadsAs(WithBody(first, h, ReadBody(rest, h, toEnd)), first, h, rest, toEnd)
  {
    hide ReadChunks;
  }

  // ---- Lengths and sizes ----

  /** A length is a whole number in decimal, a plus sign before it or not, that fits a
      machine word. */
  lemma LengthsRead(n: nat)
    ensures ParseWord(Decimal.Digits(n)) == (if n < 0x1_0000_0000_0000_0000 then Some(n) else None)
    ensures ParseWord("+" + Decimal.Digits(n)) == ParseWord(Decimal.Digits(n))
  {
    var d := Decimal.Digits(n);
    DigitsTight(n);
    Decimal.ValueOfDigits(n);
    assert ("+" + d)[1..] == d;
    hide Decimal.Digits;
  }

  /** Anything else is refused: nothing, a sign alone, or any other character. */
  lemma LengthsRefused(s: string, i: nat)
    ensures i < |s| && !('0' <= s[i] <= '9') && (i > 0 || s[i] != '+') ==> ParseWord(s) == None
    ensures ParseWord("") == None && ParseWord("+") == None
  {
    if i < |s| && !('0' <= s[i] <= '9') && (i > 0 || s[i] != '+') {
      var digits := Unsigned(s);
      assert digits[if s[0] == '+' then i - 1 else i] == s[i];
    }
  }

  /** A chunk's size is hexadecimal, in either case, spaces before it and an extension
      after it passed over. */
  lemma SizesRead(before: string, digits: string, extension: string)
    requires Blank(before) && digits != "" && Hex.AllHex(digits) && Hex.HexValue(digits) < WORD
    requires NoBreak(extension) && EndsTight(extension) && (extension != "" ==> extension[0] == ';')
    ensures ChunkSize(before + digits + extension + CRLF) == Some(Hex.HexValue(digits))
  {
    var text := digits + extension;
    assert Hex.IsHex(digits[0]) && Hex.IsHex(digits[|digits| - 1]);
    assert StartsTight(text) && EndsTight(text) by {
      assert text[0] == digits[0];
      assert extension == "" ==> text == digits;
      assert extension != "" ==> text[|text| - 1] == extension[|extension| - 1];
    }
    assert before + digits + extension == before + text;
    TrimsBreak(before + text);
    TrimsAroundText(before, text);
    assert forall i :: 0 <= i < |digits| ==> text[i] == digits[i] && Hex.IsHex(digits[i]);
    if extension == "" {
      assert text == digits;
      IndexNone(digits, ';');
    } else {
      assert text[|digits|] == ';';
      IndexIs(text, ';', |digits|);
    }
    assert text[..|digits|] == digits;
    hide TrimEnd, TrimStart, IndexOf, Blank, StartsTight, EndsTight;
  }

  lemma TrimsAroundText(before: string, text: string)
    requires Blank(before) && StartsTight(text) && EndsTight(text) && text != ""
    ensures TrimEnd(before + text) == before + text && TrimStart(before + text) == text
  {
    TrimsEnd(before, text);
    StartsBlank(before, text);
  }

  /** A hexadecimal digit counts as its place in the alphabet, in either case. */
  lemma HexDigitSays(d: nat)
    requires d < 16
    ensures Hex.IsHex("0123456789abcdef"[d]) && Hex.ValueOf("0123456789abcdef"[d]) == d
    ensures Hex.IsHex("0123456789ABCDEF"[d]) && Hex.ValueOf("0123456789ABCDEF"[d]) == d
  {
  }

  /** A stream that ends within a chunk, or before the line break after it, is short. */
  lemma ChunkCutShort(size: nat, rest: string, body: string)
    requires size < WORD && |rest| < size + 2
    ensures ReadChunks(Hex.HexDigits(size) + CRLF + rest, body) == Err(Short)
  {
    var line := Hex.HexDigits(size);
    HexTight(size);
    LineIs(line, rest);
    SizeReads(size);
    hide LineLength, ChunkSize, Hex.HexDigits, NoBreak, EndsTight, StartsTight;
  }

  /** A size that begins with no hexadecimal digit, no sign and no space is refused as
      such, and so is a line with nothing on it. */
  lemma SizesRefused(line: string, rest: string, body: string)
    requires NoBreak(line) && EndsTight(line)
    requires line != "" ==> !Hex.IsHex(line[0]) && line[0] != '+' && !IsSpace(line[0])
    ensures ReadChunks(line + CRLF + rest, body) == Err(BadChunkSize)
  {
    LineIs(line, rest);
    TrimsBreak(line);
    TrimsNothing(line);
    var text := line[..IndexOf(line, ';')];
    assert ParseHexWord(text) == None by {
      if text != "" {
        assert text[0] == line[0];
        assert !Hex.AllHex(text);
      }
    }
    hide LineLength, TrimEnd, TrimStart, IndexOf, ParseHexWord;
  }

  // ---- The status served ----

  /** The status is what follows the first space of the node's first line, or 200 OK
      when there is none. */
  lemma StatusSays(version: string, status: string)
    requires forall i :: 0 <= i < |version| ==> version[i] != ' '
    ensures StatusOf(version + " " + status) == status
    ensures StatusOf(version) == "200 OK"
  {
    var first := version + " " + status;
    assert first[|version|] == ' ' && forall i :: 0 <= i < |version| ==> first[i] == version[i];
    IndexIs(first, ' ', |version|);
    IndexNone(version, ' ');
    assert first[|version| + 1..] == status;
  }
}
