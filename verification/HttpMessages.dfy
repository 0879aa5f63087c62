/** The recording proxy's HTTP/1.1 messages: a reader of one message at a time,
    and the heads the proxy writes when it forwards a request or serves an answer.

    A stream is a string whose characters stand for its bytes. */
module HttpMessages {
  import opened Wrappers
  import Decimal
  import Hex

  const WORD: nat := 0x1_0000_0000_0000_0000

  datatype Message = Message(first: string, contentType: Option<string>, body: string)

  datatype ReadError = BadLength | BadChunkSize | Short

  // ---- Text ----

  predicate IsSpace(c: char) {
    c == ' ' || '\t' <= c <= '\r'
  }

  function TrimEnd(s: string): string {
    if s != "" && IsSpace(s[|s| - 1]) then TrimEnd(s[..|s| - 1]) else s
  }

  function TrimStart(s: string): string {
    if s != "" && IsSpace(s[0]) then TrimStart(s[1..]) else s
  }

  function Trim(s: string): string {
    TrimStart(TrimEnd(s))
  }

  /** Where `c` first is, or the length. */
  function IndexOf(s: string, c: char): (i: nat)
    ensures i <= |s|
  {
    if s == "" || s[0] == c then 0 else 1 + IndexOf(s[1..], c)
  }

  function Lower(c: char): char {
    if 'A' <= c <= 'Z' then c + 32 as char else c
  }

  function Lowered(s: string): string {
    seq(|s|, i requires 0 <= i < |s| => Lower(s[i]))
  }

  function Unsigned(s: string): string {
    if s != "" && s[0] == '+' then s[1..] else s
  }

  /** A machine word written in decimal. */
  function ParseWord(s: string): Option<nat> {
    var digits := Unsigned(s);
    if digits != "" && Decimal.AllDigits(digits) && Decimal.Value(digits) < WORD
    then Some(Decimal.Value(digits)) else None
  }

  function ParseHexWord(s: string): Option<nat> {
    var digits := Unsigned(s);
    if digits != "" && Hex.AllHex(digits) && Hex.HexValue(digits) < WORD
    then Some(Hex.HexValue(digits)) else None
  }

  // ---- Reading ----

  /** What the headers read so far say of the body. */
  datatype Head = Head(length: Option<nat>, chunked: bool, contentType: Option<string>)

  /** Up to and with the next line feed, or all that is left. */
  function LineLength(rest: string): (n: nat)
    ensures n <= |rest| && (n == 0 <==> rest == "")
  {
    if IndexOf(rest, '\n') < |rest| then IndexOf(rest, '\n') + 1 else |rest|
  }

  /** One header line, trimmed, taken in. */
  function Headed(head: Head, line: string): Result<Head, ReadError> {
    var at := IndexOf(line, ':');
    if at == |line| then Ok(head)
    else
      var name, value := Lowered(line[..at]), Trim(line[at + 1..]);
      if name == "content-length" then
        (match ParseWord(value) case Some(n) => Ok(head.(length := Some(n))) case None => Err(BadLength))
      else if name == "transfer-encoding" then Ok(head.(chunked := Lowered(value) == "chunked"))
      else if name == "content-type" then Ok(head.(contentType := Some(value)))
      else Ok(head)
  }

  /** The headers up to the empty line, and what is left. */
  function ReadHead(rest: string, head: Head): (result: Result<(Head, string), ReadError>)
    ensures result.Ok? ==> |result.value.1| <= |rest|
    decreases |rest|
  {
    var n := LineLength(rest);
    var line := TrimEnd(rest[..n]);
    if line == "" then Ok((head, rest[n..]))
    else
      TrimNone();
      match Headed(head, line)
      case Err(e) => Err(e)
      case Ok(more) => ReadHead(rest[n..], more)
  }

  lemma TrimNone()
    ensures TrimEnd("") == ""
  {
  }

  function ChunkSize(line: string): Option<nat> {
    var text := Trim(line);
    ParseHexWord(text[..IndexOf(text, ';')])
  }

  function ReadChunks(rest: string, body: string): (result: Result<(string, string), ReadError>)
    ensures result.Ok? ==> |result.value.1| <= |rest|
    decreases |rest|
  {
    var n := LineLength(rest);
    match ChunkSize(rest[..n])
    case None => Err(BadChunkSize)
    case Some(size) =>
      if |rest| - n < size + 2 then Err(Short)
      else if size == 0 then Ok((body, rest[n + 2..]))
      else ReadChunks(rest[n + size + 2..], body + rest[n..n + size])
  }

  function ReadBody(rest: string, head: Head, toEnd: bool): (result: Result<(string, string), ReadError>)
    ensures result.Ok? ==> |result.value.1| <= |rest|
  {
    if head.chunked then ReadChunks(rest, "")
    else if head.length.Some? then
      if |rest| < head.length.value then Err(Short)
      else Ok((rest[..head.length.value], rest[head.length.value..]))
    else if toEnd then Ok((rest, ""))
    else Ok(("", rest))
  }

  const NO_HEAD := Head(None, false, None)

  /** One message and what is left; none when the stream ended before it. */
  function Read(rest: string, toEnd: bool): (result: Result<(Option<Message>, string), ReadError>)
    ensures result.Ok? && result.value.0.Some? ==> |result.value.1| < |rest|
  {
    if rest == "" then Ok((None, ""))
    else
      var n := LineLength(rest);
      match ReadHead(rest[n..], NO_HEAD)
      case Err(e) => Err(e)
      case Ok((head, after)) =>
        match ReadBody(after, head, toEnd)
        case Err(e) => Err(e)
        case Ok((body, left)) => Ok((Some(Message(TrimEnd(rest[..n]), head.contentType, body)), left))
  }

  // ---- The proxy's own code ----

  /** A buffered reader: the stream, and how much of it has been read. */
  class Reader {
    const input: string
    var pos: nat

    ghost predicate Valid()
      reads this
    {
      pos <= |input|
    }

    ghost function Rest(): string
      reads this
      requires Valid()
    {
      input[pos..]
    }

    constructor (input: string)
      ensures Valid() && Rest() == input
    {
      this.input := input;
      pos := 0;
    }

    method ReadLine() returns (line: string)
      requires Valid()
      modifies this
      ensures Valid()
      ensures var rest := old(Rest()); line == rest[..LineLength(rest)] && Rest() == rest[LineLength(rest)..]
    {
      var i := pos;
      while i < |input| && input[i] != '\n'
        invariant pos <= i <= |input|
        invariant IndexOf(input[pos..], '\n') == i - pos + IndexOf(input[i..], '\n')
      {
        assert input[i..][1..] == input[i + 1..];
        i := i + 1;
      }
      if i < |input| { i := i + 1; }
      line := input[pos..i];
      pos := i;
    }

    /** Exactly `n` bytes, or nothing when there are fewer. */
    method ReadExact(n: nat) returns (bytes: Option<string>)
      requires Valid()
      modifies this
      ensures Valid()
      ensures var rest := old(Rest());
              if |rest| < n then bytes == None else bytes == Some(rest[..n]) && Rest() == rest[n..]
    {
      if |input| - pos < n { return None; }
      assert input[pos..pos + n] == input[pos..][..n];
      bytes := Some(input[pos..pos + n]);
      pos := pos + n;
    }

    method ReadMessage(toEnd: bool) returns (result: Result<Option<Message>, ReadError>)
      requires Valid()
      modifies this
      ensures Valid()
      ensures match Read(old(Rest()), toEnd)
              case Err(e) => result == Err(e)
              case Ok((message, left)) => result == Ok(message) && Rest() == left
    {
      var first := ReadLine();
      if |first| == 0 { return Ok(None); }
      var head := ReadHeaders();
      match head {
        case Err(e) => return Err(e);
        case Ok(h) =>
          var body := ReadBodyOf(h, toEnd);
          match body {
            case Err(e) => return Err(e);
            case Ok(b) => return Ok(Some(Message(TrimEnd(first), h.contentType, b)));
          }
      }
    }

    method ReadHeaders() returns (result: Result<Head, ReadError>)
      requires Valid()
      modifies this
      ensures Valid()
      ensures match ReadHead(old(Rest()), NO_HEAD)
              case Err(e) => result == Err(e)
              case Ok((head, left)) => result == Ok(head) && Rest() == left
    {
      var head := NO_HEAD;
      while true
        invariant Valid()
        invariant ReadHead(Rest(), head) == ReadHead(old(Rest()), NO_HEAD)
        decreases |Rest()|
      {
        ghost var rest := Rest();
        var line := ReadLine();
        line := TrimEnd(line);
        if |line| == 0 { return Ok(head); }
        TrimNone();
        var more := Headed(head, line);
        if more.Err? { return Err(more.error); }
        head := more.value;
      }
    }

    method ReadBodyOf(head: Head, toEnd: bool) returns (result: Result<string, ReadError>)
      requires Valid()
      modifies this
      ensures Valid()
      ensures match ReadBody(old(Rest()), head, toEnd)
              case Err(e) => result == Err(e)
              case Ok((body, left)) => result == Ok(body) && Rest() == left
    {
      if head.chunked {
        result := ReadAllChunks();
      } else if head.length.Some? {
        var bytes := ReadExact(head.length.value);
        result := if bytes.Some? then Ok(bytes.value) else Err(Short);
      } else if toEnd {
        result := Ok(input[pos..]);
        pos := |input|;
      } else {
        result := Ok("");
      }
    }

    method ReadAllChunks() returns (result: Result<string, ReadError>)
      requires Valid()
      modifies this
      ensures Valid()
      ensures match ReadChunks(old(Rest()), "")
              case Err(e) => result == Err(e)
              case Ok((body, left)) => result == Ok(body) && Rest() == left
    {
      hide ChunkSize, LineLength;
      var body := "";
      while true
        invariant Valid()
        invariant ReadChunks(Rest(), body) == ReadChunks(old(Rest()), "")
        decreases |Rest()|
      {
        var chunk := ReadChunk();
        if chunk.Err? { return Err(chunk.error); }
        if chunk.value == "" { return Ok(body); }
        body := body + chunk.value;
      }
    }

    /** One chunk, empty for the last. */
    method ReadChunk() returns (result: Result<string, ReadError>)
      requires Valid()
      modifies this
      ensures Valid()
      ensures var rest := old(Rest());
              var n := LineLength(rest);
              match ChunkSize(rest[..n])
              case None => result == Err(BadChunkSize)
              case Some(size) =>
                if |rest| - n < size + 2 then result == Err(Short)
                else result == Ok(rest[n..n + size]) && Rest() == rest[n + size + 2..]
    {
      ghost var rest := Rest();
      var line := ReadLine();
      var size := ChunkSize(line);
      if size.None? { return Err(BadChunkSize); }
      var chunk := ReadExact(size.value + 2);
      if chunk.None? { return Err(Short); }
      SliceOf(rest, |line|, size.value + 2, size.value);
      result := Ok(chunk.value[..size.value]);
    }
  }

  lemma SliceOf(s: string, n: nat, m: nat, k: nat)
    requires n + m <= |s| && k <= m
    ensures s[n..][..m][..k] == s[n..n + k] && s[n..][m..] == s[n + m..]
  {
  }

  // ---- Writing ----

  const CRLF := "\r\n"

  function TypeLine(contentType: Option<string>): string {
    match contentType
    case Some(t) => "Content-Type: " + t + CRLF
    case None => ""
  }

  /** A request as the proxy forwards it to the node. */
  function Forwarded(host: string, port: nat, request: Message): string {
    request.first + CRLF
    + ("Host: " + host + ":" + Decimal.Digits(port) + CRLF)
    + ("Content-Length: " + Decimal.Digits(|request.body|) + CRLF)
    + ("Connection: close" + CRLF)
    + TypeLine(request.contentType)
    + CRLF + request.body
  }

  /** The status line after its HTTP version, or a default. */
  function StatusOf(first: string): string {
    var at := IndexOf(first, ' ');
    if at == |first| then "200 OK" else first[at + 1..]
  }

  /** An answer as the proxy serves it to its client. */
  function Served(answer: Message): string {
    ("HTTP/1.1 " + StatusOf(answer.first)) + CRLF
    + ("Content-Length: " + Decimal.Digits(|answer.body|) + CRLF)
    + TypeLine(answer.contentType)
    + CRLF + answer.body
  }
}
