/** Reading undoes writing: whatever the recording proxy forwards or serves reads
    back as the same message, with the reader left exactly at the next one. */
module HttpRoundTrip {
  import opened Wrappers
  import opened HttpMessages
  import Decimal
  import Hex

  // ---- Lines ----

  ghost predicate NoBreak(s: string) {
    forall i :: 0 <= i < |s| ==> s[i] != '\n'
  }

  ghost predicate EndsTight(s: string) {
    s != "" ==> !IsSpace(s[|s| - 1])
  }

  ghost predicate StartsTight(s: string) {
    s != "" ==> !IsSpace(s[0])
  }

  /** A message whose first line and content type are as a reader leaves them:
      within a line, with no space around them (before the first line there may
      be), and a body whose length is a machine word. */
  ghost predicate Plain(m: Message) {
    && NoBreak(m.first) && EndsTight(m.first)
    && (m.contentType.Some? ==>
          NoBreak(m.contentType.value) && EndsTight(m.contentType.value) && StartsTight(m.contentType.value))
    && |m.body| < WORD
  }

  lemma {:induction false} IndexIs(s: string, c: char, i: nat)
    requires i < |s| && s[i] == c && forall j :: 0 <= j < i ==> s[j] != c
    ensures IndexOf(s, c) == i
  {
    if i > 0 {
      assert forall j :: 0 <= j < i - 1 ==> s[1..][j] == s[j + 1];
      IndexIs(s[1..], c, i - 1);
    }
  }

  lemma {:induction false} IndexFinds(s: string, c: char)
    ensures var i := IndexOf(s, c);
            (i < |s| ==> s[i] == c) && forall j :: 0 <= j < i ==> s[j] != c
  {
    if s != "" && s[0] != c {
      IndexFinds(s[1..], c);
      var i := IndexOf(s, c);
      forall j | 0 <= j < i ensures s[j] != c {
        if j > 0 { assert s[1..][j - 1] == s[j]; }
      }
    }
  }

  lemma LineIs(line: string, rest: string)
    requires NoBreak(line)
    ensures var s := line + CRLF + rest;
            && LineLength(s) == |line| + 2 && s[..|line| + 2] == line + CRLF && s[|line| + 2..] == rest && s != ""
  {
    var s := line + CRLF + rest;
    assert s[|line| + 1] == '\n' && s[|line|] == '\r';
    assert forall j :: 0 <= j < |line| ==> s[j] == line[j];
    IndexIs(s, '\n', |line| + 1);
  }

  lemma TrimsBreak(line: string)
    ensures TrimEnd(line + CRLF) == TrimEnd(line)
  {
    assert (line + CRLF)[..|line| + 1] == line + "\r";
    assert (line + "\r")[..|line|] == line;
    assert (line + CRLF)[|line| + 1] == '\n' && (line + "\r")[|line|] == '\r';
  }

  lemma TrimsNothing(s: string)
    ensures EndsTight(s) ==> TrimEnd(s) == s
    ensures StartsTight(s) ==> TrimStart(s) == s
  {
  }

  /** Reading on after a header line. */
  ghost function Onward(headed: Result<Head, ReadError>, rest: string): Result<(Head, string), ReadError> {
    match headed
    case Err(e) => Err(e)
    case Ok(head) => ReadHead(rest, head)
  }

  /** One header line read off. */
  lemma HeaderStep(line: string, rest: string, head: Head)
    requires NoBreak(line) && TrimEnd(line) != ""
    ensures ReadHead(line + CRLF + rest, head) == Onward(Headed(head, TrimEnd(line)), rest)
  {
    hide LineLength, TrimEnd, Headed;
    LineIs(line, rest);
    TrimsBreak(line);
  }

  lemma HeadEnds(rest: string, head: Head)
    ensures ReadHead(CRLF + rest, head) == Ok((head, rest))
  {
    hide LineLength;
    LineIs("", rest);
    assert "" + CRLF + rest == CRLF + rest;
    TrimsBreak("");
    TrimNone();
  }

  // ---- The lines the proxy writes ----

  lemma NameAt(name: string, value: string)
    requires forall i :: 0 <= i < |name| ==> name[i] != ':'
    ensures var line := name + ": " + value;
            IndexOf(line, ':') == |name| && line[..|name|] == name && line[|name| + 1..] == " " + value && |name| < |line|
  {
    var line := name + ": " + value;
    assert line[|name|] == ':';
    assert forall i :: 0 <= i < |name| ==> line[i] == name[i];
    IndexIs(line, ':', |name|);
  }

  lemma {:induction false} TrimsEnd(c: string, s: string)
    requires s != "" && EndsTight(s)
    ensures TrimEnd(c + s) == c + s
  {
    assert (c + s)[|c + s| - 1] == s[|s| - 1];
  }

  /** The space after the colon goes, and nothing of a tight value. */
  lemma TrimsValue(value: string)
    requires EndsTight(value) && StartsTight(value)
    ensures Trim(" " + value) == value
  {
    if value == "" {
      assert " " + value == " " && " "[..0] == "";
    } else {
      TrimsEnd(" ", value);
      assert (" " + value)[1..] == value;
      TrimsNothing(value);
    }
  }

  lemma OtherLine(name: string, value: string, head: Head)
    requires forall i :: 0 <= i < |name| ==> name[i] != ':'
    requires |name| != 14 && |name| != 17 && |name| != 12
    ensures Headed(head, name + ": " + value) == Ok(head)
  {
    NameAt(name, value);
    assert |Lowered(name)| == |name|;
    hide Trim, ParseWord;
  }

  lemma LoweredNames()
    ensures Lowered("Content-Length") == "content-length"
    ensures Lowered("Content-Type") == "content-type"
    ensures Lowered("Transfer-Encoding") == "transfer-encoding"
    ensures Lowered("chunked") == "chunked"
  {
  }

  lemma DigitsTight(n: nat)
    ensures var d := Decimal.Digits(n); EndsTight(d) && StartsTight(d) && NoBreak(d) && d[0] != '+'
  {
    var d := Decimal.Digits(n);
    assert Decimal.IsDigit(d[0]) && Decimal.IsDigit(d[|d| - 1]);
  }

  lemma LengthLine(n: nat, head: Head)
    requires n < WORD
    ensures Headed(head, "Content-Length: " + Decimal.Digits(n)) == Ok(head.(length := Some(n)))
  {
    var d := Decimal.Digits(n);
    DigitsTight(n);
    Decimal.ValueOfDigits(n);
    assert "Content-Length" + ": " + d == "Content-Length: " + d;
    NameAt("Content-Length", d);
    LoweredNames();
    TrimsValue(d);
    hide Lowered, Trim, IndexOf, Decimal.Digits, EndsTight, StartsTight, NoBreak;
    assert ParseWord(d) == Some(n);
  }

  lemma TypeHeader(value: string, head: Head)
    requires EndsTight(value) && StartsTight(value)
    ensures Headed(head, TrimEnd("Content-Type: " + value)) == Ok(head.(contentType := Some(value)))
  {
    LoweredNames();
    if value == "" {
      assert "Content-Type: " + value == "Content-Type" + ": ";
      assert ("Content-Type" + ": ")[..13] == "Content-Type" + ":";
      assert TrimEnd("Content-Type" + ": ") == "Content-Type" + ":";
      var line := "Content-Type" + ":";
      IndexIs(line, ':', 12);
      assert line[..12] == "Content-Type" && line[13..] == "";
      assert Trim("") == "";
    } else {
      TrimsEnd("Content-Type: ", value);
      assert "Content-Type" + ": " + value == "Content-Type: " + value;
      NameAt("Content-Type", value);
      TrimsValue(value);
    }
    hide Lowered, IndexOf, TrimEnd, ParseWord, Trim;
  }

  lemma CodingLine(value: string, head: Head)
    requires EndsTight(value) && StartsTight(value)
    ensures Headed(head, "Transfer-Encoding" + ": " + value) == Ok(head.(chunked := Lowered(value) == "chunked"))
  {
    NameAt("Transfer-Encoding", value);
    LoweredNames();
    TrimsValue(value);
    hide Lowered, IndexOf, TrimEnd, ParseWord, Trim;
  }

  // ---- Whole messages ----

  /** Reading a message whose first line is plain. */
  lemma FirstLine(first: string, rest: string, toEnd: bool)
    requires NoBreak(first) && EndsTight(first)
    ensures Read(first + CRLF + rest, toEnd) ==
            match ReadHead(rest, NO_HEAD)
            case Err(e) => Err(e)
            case Ok(h) => WithBody(first, h.0, ReadBody(h.1, h.0, toEnd))
  {
    hide ReadHead, ReadBody, LineLength, TrimEnd;
    LineIs(first, rest);
    TrimsBreak(first);
    TrimsNothing(first);
  }

  ghost function WithBody(first: string, head: Head, body: Result<(string, string), ReadError>):
      Result<(Option<Message>, string), ReadError>
  {
    match body
    case Err(e) => Err(e)
    case Ok(b) => Ok((Some(Message(first, head.contentType, b.0)), b.1))
  }

  lemma LengthStep(n: nat, rest: string, head: Head)
    requires n < WORD
    ensures ReadHead(("Content-Length: " + Decimal.Digits(n) + CRLF) + rest, head) ==
            ReadHead(rest, head.(length := Some(n)))
  {
    var line := "Content-Length: " + Decimal.Digits(n);
    DigitsTight(n);
    TrimsEnd("Content-Length: ", Decimal.Digits(n));
    assert NoBreak(line);
    assert line + CRLF + rest == (line + CRLF) + rest;
    hide ReadHead, Headed, Decimal.Digits, TrimEnd;
    HeaderStep(line, rest, head);
    LengthLine(n, head);
  }

  lemma TypeStep(contentType: Option<string>, rest: string, head: Head)
    requires contentType.Some? ==>
               NoBreak(contentType.value) && EndsTight(contentType.value) && StartsTight(contentType.value)
    ensures ReadHead(TypeLine(contentType) + rest, head) ==
            ReadHead(rest, if contentType.Some? then head.(contentType := contentType) else head)
  {
    hide ReadHead, Headed;
    if contentType.Some? {
      var line := "Content-Type: " + contentType.value;
      assert TypeLine(contentType) + rest == line + CRLF + rest;
      assert NoBreak(line);
      TrimKeepsFirst(line);
      hide TrimEnd;
      HeaderStep(line, rest, head);
      TypeHeader(contentType.value, head);
    } else {
      assert TypeLine(contentType) + rest == rest;
    }
  }

  lemma {:induction false} TrimKeepsFirst(s: string)
    requires s != "" && !IsSpace(s[0])
    ensures TrimEnd(s) != ""
  {
    if IsSpace(s[|s| - 1]) { TrimKeepsFirst(s[..|s| - 1]); }
  }

  lemma OtherStep(name: string, value: string, rest: string, head: Head)
    requires NoBreak(name) && NoBreak(value) && EndsTight(value) && value != ""
    requires forall i :: 0 <= i < |name| ==> name[i] != ':'
    requires |name| != 14 && |name| != 17 && |name| != 12
    ensures ReadHead((name + ": " + value + CRLF) + rest, head) == ReadHead(rest, head)
  {
    var line := name + ": " + value;
    TrimsEnd(name + ": ", value);
    assert NoBreak(line);
    assert line + CRLF + rest == (line + CRLF) + rest;
    hide ReadHead, Headed, TrimEnd;
    HeaderStep(line, rest, head);
    OtherLine(name, value, head);
  }

  lemma BodyIs(body: string, rest: string, contentType: Option<string>, toEnd: bool)
    ensures ReadBody(body + rest, Head(Some(|body|), false, contentType), toEnd) == Ok((body, rest))
  {
  }

  /** A request the proxy forwards reads back as the very request, with the
      reader left at whatever follows it. */
  lemma ForwardedReads(host: string, port: nat, request: Message, rest: string, toEnd: bool)
    requires Plain(request) && NoBreak(host)
    ensures Read(Forwarded(host, port, request) + rest, toEnd) == Ok((Some(request), rest))
  {
    var m := request;
    var n := |m.body|;
    var r3 := TypeLine(m.contentType) + (CRLF + (m.body + rest));
    var r0 := HostAndMore(host, port, n, r3);
    ForwardedIs(host, port, m, rest);
    hide Forwarded, TypeLine, ReadHead, ReadBody, Read, HostAndMore, NoBreak, EndsTight, StartsTight;
    FirstLine(m.first, r0, toEnd);
    HostAndMoreReads(host, port, n, r3);
    TypeStep(m.contentType, CRLF + (m.body + rest), Head(Some(n), false, None));
    HeadEnds(m.body + rest, Head(Some(n), false, m.contentType));
    BodyIs(m.body, rest, m.contentType, toEnd);
  }

  ghost function HostAndMore(host: string, port: nat, n: nat, rest: string): string {
    "Host" + ": " + (host + ":" + Decimal.Digits(port)) + CRLF
    + (("Content-Length: " + Decimal.Digits(n) + CRLF) + ("Connection" + ": " + "close" + CRLF + rest))
  }

  lemma HostAndMoreReads(host: string, port: nat, n: nat, rest: string)
    requires NoBreak(host) && n < WORD
    ensures ReadHead(HostAndMore(host, port, n, rest), NO_HEAD) == ReadHead(rest, Head(Some(n), false, None))
  {
    hide ReadHead, Decimal.Digits;
    var r2 := "Connection" + ": " + "close" + CRLF + rest;
    var r1 := ("Content-Length: " + Decimal.Digits(n) + CRLF) + r2;
    HostTight(host, port);
    OtherStep("Host", host + ":" + Decimal.Digits(port), r1, NO_HEAD);
    LengthStep(n, r2, NO_HEAD);
    OtherStep("Connection", "close", rest, Head(Some(n), false, None));
  }

  lemma HostTight(host: string, port: nat)
    requires NoBreak(host)
    ensures var v := host + ":" + Decimal.Digits(port); NoBreak(v) && EndsTight(v) && v != ""
  {
    var d := Decimal.Digits(port);
    DigitsTight(port);
    var v := host + ":" + d;
    assert v[|v| - 1] == d[|d| - 1];
  }

  lemma ForwardedIs(host: string, port: nat, m: Message, rest: string)
    ensures Forwarded(host, port, m) + rest ==
            m.first + CRLF + HostAndMore(host, port, |m.body|, TypeLine(m.contentType) + (CRLF + (m.body + rest)))
  {
    hide TypeLine, Decimal.Digits;
  }

  lemma StatusTight(first: string)
    requires NoBreak(first) && EndsTight(first)
    ensures var line := "HTTP/1.1 " + StatusOf(first); NoBreak(line) && EndsTight(line)
  {
    var at := IndexOf(first, ' ');
    IndexFinds(first, ' ');
    var status := StatusOf(first);
    if at < |first| {
      assert at != |first| - 1;
      assert status[|status| - 1] == first[|first| - 1];
    }
    assert NoBreak("HTTP/1.1 ");
  }

  /** An answer the proxy serves reads back with the node's status, content type
      and body, under the client's HTTP version. */
  lemma ServedReads(answer: Message, rest: string, toEnd: bool)
    requires Plain(answer)
    ensures Read(Served(answer) + rest, toEnd) ==
            Ok((Some(answer.(first := "HTTP/1.1 " + StatusOf(answer.first))), rest))
  {
    var m := answer;
    var n := |m.body|;
    var first := "HTTP/1.1 " + StatusOf(m.first);
    var r2 := CRLF + (m.body + rest);
    var r1 := TypeLine(m.contentType) + r2;
    var r0 := ("Content-Length: " + Decimal.Digits(n) + CRLF) + r1;
    StatusTight(m.first);
    ServedIs(m, rest);
    hide Served, TypeLine, ReadHead, ReadBody, Read, StatusOf;
    FirstLine(first, r0, toEnd);
    LengthStep(n, r1, NO_HEAD);
    TypeStep(m.contentType, r2, Head(Some(n), false, None));
    HeadEnds(m.body + rest, Head(Some(n), false, m.contentType));
    BodyIs(m.body, rest, m.contentType, toEnd);
  }

  lemma ServedIs(m: Message, rest: string)
    ensures var r2 := CRLF + (m.body + rest);
            var r1 := TypeLine(m.contentType) + r2;
            var r0 := ("Content-Length: " + Decimal.Digits(|m.body|) + CRLF) + r1;
            Served(m) + rest == ("HTTP/1.1 " + StatusOf(m.first)) + CRLF + r0
  {
    hide TypeLine, Decimal.Digits, StatusOf;
  }

  // ---- A connection of many messages ----

  /** Every message of a stream, until it ends. */
  ghost function ReadAll(stream: string): Result<seq<Message>, ReadError>
    decreases |stream|
  {
    match Read(stream, false)
    case Err(e) => Err(e)
    case Ok(r) =>
      if r.0.None? then Ok([])
      else match ReadAll(r.1) case Err(e) => Err(e) case Ok(later) => Ok([r.0.value] + later)
  }

  ghost function ServedAll(answers: seq<Message>): string {
    if answers == [] then "" else Served(answers[0]) + ServedAll(answers[1..])
  }

  ghost function UnderHttp11(answers: seq<Message>): seq<Message> {
    seq(|answers|, i requires 0 <= i < |answers| =>
      answers[i].(first := "HTTP/1.1 " + StatusOf(answers[i].first)))
  }

  /** All the answers served on one connection read back, in order and no more. */
  lemma {:induction false} ServedAllReads(answers: seq<Message>)
    requires forall i :: 0 <= i < |answers| ==> Plain(answers[i])
    ensures ReadAll(ServedAll(answers)) == Ok(UnderHttp11(answers))
  {
    hide Read, Served, StatusOf, Plain;
    if answers == [] {
      EndsQuietly();
    } else {
      ServedReads(answers[0], ServedAll(answers[1..]), false);
      ServedAllReads(answers[1..]);
      assert UnderHttp11(answers) == [UnderHttp11(answers)[0]] + UnderHttp11(answers[1..]);
    }
  }

  lemma EndsQuietly()
    ensures Read("", false) == Ok((None, ""))
  {
  }

  // ---- Chunked bodies ----

  ghost function Encoded(chunks: seq<string>): string {
    if chunks == [] then "0" + CRLF + CRLF
    else Hex.HexDigits(|chunks[0]|) + CRLF + (chunks[0] + CRLF) + Encoded(chunks[1..])
  }

  ghost function Joined(chunks: seq<string>): string {
    if chunks == [] then "" else chunks[0] + Joined(chunks[1..])
  }

  /** A message in the chunked coding of section 7.1 of RFC 9112, without
      extensions or trailers. */
  ghost function Chunked(first: string, contentType: Option<string>, chunks: seq<string>): string {
    first + CRLF + TypeLine(contentType) + ("Transfer-Encoding" + ": " + "chunked" + CRLF) + CRLF + Encoded(chunks)
  }

  lemma HexTight(n: nat)
    ensures var d := Hex.HexDigits(n); EndsTight(d) && StartsTight(d) && NoBreak(d) && d[0] != '+'
    ensures var d := Hex.HexDigits(n); forall i :: 0 <= i < |d| ==> d[i] != ';'
  {
    var d := Hex.HexDigits(n);
    assert Hex.IsHex(d[0]) && Hex.IsHex(d[|d| - 1]);
  }

  lemma {:induction false} IndexNone(s: string, c: char)
    requires forall i :: 0 <= i < |s| ==> s[i] != c
    ensures IndexOf(s, c) == |s|
  {
    if s != "" {
      assert forall i :: 0 <= i < |s[1..]| ==> s[1..][i] == s[i + 1];
      IndexNone(s[1..], c);
    }
  }

  lemma SizeReads(n: nat)
    requires n < WORD
    ensures ChunkSize(Hex.HexDigits(n) + CRLF) == Some(n)
  {
    var d := Hex.HexDigits(n);
    HexTight(n);
    Hex.ValueOfDigits(n);
    TrimsBreak(d);
    TrimsNothing(d);
    IndexNone(d, ';');
    assert d[..|d|] == d;
    hide TrimEnd, TrimStart, IndexOf, EndsTight, StartsTight, NoBreak, Hex.HexDigits;
  }

  lemma ZeroIs()
    ensures Hex.HexDigits(0) == "0"
  {
  }

  lemma ChunkStep(size: nat, chunk: string, rest: string, body: string)
    requires size == |chunk| && size < WORD
    ensures ReadChunks(Hex.HexDigits(size) + CRLF + (chunk + CRLF + rest), body) ==
            if size == 0 then Ok((body, rest)) else ReadChunks(rest, body + chunk)
  {
    hide LineLength, ChunkSize, Hex.HexDigits, NoBreak, EndsTight, StartsTight;
    var line := Hex.HexDigits(size);
    HexTight(size);
    LineIs(line, chunk + CRLF + rest);
    SizeReads(size);
    ChunkSlices(line, chunk, rest);
    hide ReadChunks;
    ChunkOpens(line, size, chunk, rest, body);
  }

  lemma ChunkSlices(line: string, chunk: string, rest: string)
    ensures var s := line + CRLF + (chunk + CRLF + rest);
            var n := |line| + 2;
            && |s| == n + |chunk| + 2 + |rest|
            && s[n..n + |chunk|] == chunk && s[n + |chunk| + 2..] == rest
  {
    var s := line + CRLF + (chunk + CRLF + rest);
    var n := |line| + 2;
    assert s[n..] == chunk + CRLF + rest;
    assert s[n..n + |chunk|] == s[n..][..|chunk|];
    assert s[n + |chunk| + 2..] == s[n..][|chunk| + 2..];
  }

  lemma ChunkOpens(line: string, size: nat, chunk: string, rest: string, body: string)
    requires size == |chunk|
    requires var s := line + CRLF + (chunk + CRLF + rest);
             var n := |line| + 2;
             && LineLength(s) == n && s[..n] == line + CRLF && ChunkSize(line + CRLF) == Some(size)
             && |s| == n + size + 2 + |rest| && s[n..n + size] == chunk && s[n + size + 2..] == rest
    ensures ReadChunks(line + CRLF + (chunk + CRLF + rest), body) ==
            if size == 0 then Ok((body, rest)) else ReadChunks(rest, body + chunk)
  {
    hide LineLength, ChunkSize;
  }

  lemma {:induction false} ChunksRead(chunks: seq<string>, rest: string, body: string)
    requires forall i :: 0 <= i < |chunks| ==> 0 < |chunks[i]| < WORD
    ensures ReadChunks(Encoded(chunks) + rest, body) == Ok((body + Joined(chunks), rest))
    decreases |chunks|
  {
    hide ReadChunks, Hex.HexDigits;
    if chunks == [] {
      ZeroIs();
      assert Encoded(chunks) + rest == Hex.HexDigits(0) + CRLF + ("" + CRLF + rest);
      ChunkStep(0, "", rest, body);
      assert body + "" == body;
    } else {
      var c := chunks[0];
      var later := Encoded(chunks[1..]) + rest;
      EncodedIs(chunks, rest);
      hide Encoded;
      ChunkStep(|c|, c, later, body);
      ChunksRead(chunks[1..], rest, body + c);
      assert body + c + Joined(chunks[1..]) == body + (c + Joined(chunks[1..]));
    }
  }

  lemma EncodedIs(chunks: seq<string>, rest: string)
    requires chunks != []
    ensures Encoded(chunks) + rest ==
            Hex.HexDigits(|chunks[0]|) + CRLF + (chunks[0] + CRLF + (Encoded(chunks[1..]) + rest))
  {
    hide Hex.HexDigits;
  }

  /** A chunked message reads back as its chunks joined, however it was cut, and
      the reader is left exactly at what follows. */
  lemma ChunkedReads(first: string, contentType: Option<string>, chunks: seq<string>, rest: string, toEnd: bool)
    requires Plain(Message(first, contentType, "")) && forall i :: 0 <= i < |chunks| ==> 0 < |chunks[i]| < WORD
    ensures Read(Chunked(first, contentType, chunks) + rest, toEnd) ==
            Ok((Some(Message(first, contentType, Joined(chunks))), rest))
  {
    var r2 := CRLF + (Encoded(chunks) + rest);
    var r1 := "Transfer-Encoding" + ": " + "chunked" + CRLF + r2;
    var r0 := TypeLine(contentType) + r1;
    ChunkedIs(first, contentType, chunks, rest);
    hide Chunked, TypeLine, ReadHead, Read, ReadChunks, Encoded;
    FirstLine(first, r0, toEnd);
    TypeStep(contentType, r1, NO_HEAD);
    CodingStep(r2, Head(None, false, contentType));
    HeadEnds(Encoded(chunks) + rest, Head(None, true, contentType));
    ChunksRead(chunks, rest, "");
    assert "" + Joined(chunks) == Joined(chunks);
  }

  lemma CodingStep(rest: string, head: Head)
    ensures ReadHead("Transfer-Encoding" + ": " + "chunked" + CRLF + rest, head) == ReadHead(rest, head.(chunked := true))
  {
    var line := "Transfer-Encoding" + ": " + "chunked";
    TrimsEnd("Transfer-Encoding" + ": ", "chunked");
    CodingLine("chunked", head);
    LoweredNames();
    hide ReadHead, Headed, TrimEnd, Lowered;
    HeaderStep(line, rest, head);
  }

  lemma ChunkedIs(first: string, contentType: Option<string>, chunks: seq<string>, rest: string)
    ensures var r2 := CRLF + (Encoded(chunks) + rest);
            var r1 := "Transfer-Encoding" + ": " + "chunked" + CRLF + r2;
            Chunked(first, contentType, chunks) + rest == first + CRLF + (TypeLine(contentType) + r1)
  {
    hide TypeLine, Encoded;
  }

  // ---- What was read may be forwarded ----

  lemma {:induction false} TrimEndIs(s: string)
    ensures var t := TrimEnd(s); EndsTight(t) && t <= s
    ensures s != "" && IsSpace(s[|s| - 1]) ==> |TrimEnd(s)| < |s|
  {
    if s != "" && IsSpace(s[|s| - 1]) { TrimEndIs(s[..|s| - 1]); }
  }

  lemma {:induction false} TrimStartIs(s: string)
    ensures var t := TrimStart(s);
            StartsTight(t) && (EndsTight(s) ==> EndsTight(t)) && (NoBreak(s) ==> NoBreak(t))
  {
    if s != "" && IsSpace(s[0]) {
      assert s[1..] != "" ==> s[1..][|s| - 2] == s[|s| - 1];
      TrimStartIs(s[1..]);
    }
  }

  /** A line, trimmed, has no line feed in it. */
  lemma LineClean(rest: string)
    ensures var line := TrimEnd(rest[..LineLength(rest)]); NoBreak(line) && EndsTight(line)
  {
    IndexFinds(rest, '\n');
    TrimEndIs(rest[..LineLength(rest)]);
  }

  ghost predicate CleanType(contentType: Option<string>) {
    contentType.Some? ==>
      NoBreak(contentType.value) && EndsTight(contentType.value) && StartsTight(contentType.value)
  }

  lemma HeadedClean(head: Head, line: string)
    requires NoBreak(line) && CleanType(head.contentType)
    ensures Headed(head, line).Ok? ==> CleanType(Headed(head, line).value.contentType)
  {
    var at := IndexOf(line, ':');
    if at < |line| {
      var value := line[at + 1..];
      TrimEndIs(value);
      TrimStartIs(TrimEnd(value));
      assert NoBreak(TrimEnd(value));
    }
    hide ParseWord, Lowered, TrimEnd, TrimStart;
  }

  lemma {:induction false} ReadHeadClean(rest: string, head: Head)
    requires CleanType(head.contentType)
    ensures ReadHead(rest, head).Ok? ==> CleanType(ReadHead(rest, head).value.0.contentType)
    decreases |rest|
  {
    hide Headed, CleanType;
    LineClean(rest);
    TrimNone();
    var n := LineLength(rest);
    var line := TrimEnd(rest[..n]);
    if line != "" {
      HeadedClean(head, line);
      if Headed(head, line).Ok? { ReadHeadClean(rest[n..], Headed(head, line).value); }
    }
  }

  lemma {:induction false} ReadChunksWithin(rest: string, body: string)
    ensures ReadChunks(rest, body).Ok? ==> |ReadChunks(rest, body).value.0| <= |body| + |rest|
    decreases |rest|
  {
    hide LineLength, ChunkSize;
    var n := LineLength(rest);
    var size := ChunkSize(rest[..n]);
    if size.Some? && |rest| - n >= size.value + 2 && size.value != 0 {
      ReadChunksWithin(rest[n + size.value + 2..], body + rest[n..n + size.value]);
    }
  }

  /** Whatever is read is plain: fit to be forwarded or served. */
  lemma ReadIsPlain(stream: string, toEnd: bool)
    requires |stream| < WORD
    ensures var r := Read(stream, toEnd); r.Ok? && r.value.0.Some? ==> Plain(r.value.0.value)
  {
    if stream != "" {
      LineClean(stream);
      var n := LineLength(stream);
      ReadHeadClean(stream[n..], NO_HEAD);
      var head := ReadHead(stream[n..], NO_HEAD);
      if head.Ok? { ReadChunksWithin(head.value.1, ""); }
      hide ReadHead, ReadChunks, LineLength, TrimEnd, NoBreak, EndsTight, StartsTight;
    }
  }

  /** The proxy in one: a request read off a client, however it was written, is
      read by the node as the same request. */
  lemma RelayKeepsRequest(stream: string, host: string, port: nat)
    requires |stream| < WORD && NoBreak(host)
    ensures var r := Read(stream, false);
            r.Ok? && r.value.0.Some? ==>
              Read(Forwarded(host, port, r.value.0.value), false) == Ok((r.value.0, ""))
  {
    var r := Read(stream, false);
    if r.Ok? && r.value.0.Some? {
      ReadIsPlain(stream, false);
      hide Read, Forwarded, Plain;
      var sent := Forwarded(host, port, r.value.0.value);
      ForwardedReads(host, port, r.value.0.value, "", false);
      assert sent + "" == sent;
    }
  }

  /** And the other way: an answer read off the node, chunked or not, reaches the
      client with the same content type and body. */
  lemma RelayKeepsAnswer(stream: string)
    requires |stream| < WORD
    ensures var r := Read(stream, true);
            r.Ok? && r.value.0.Some? ==>
              var answer := r.value.0.value;
              Read(Served(answer), false) == Ok((Some(answer.(first := "HTTP/1.1 " + StatusOf(answer.first))), ""))
  {
    var r := Read(stream, true);
    if r.Ok? && r.value.0.Some? {
      ReadIsPlain(stream, true);
      hide Read, Served, Plain, StatusOf;
      ServedReads(r.value.0.value, "", false);
      assert Served(r.value.0.value) + "" == Served(r.value.0.value);
    }
  }
}
