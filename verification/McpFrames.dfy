/**
 Content-Length framing of MCP messages, as in the header part of the Language Server Protocol base protocol. Message
 bodies are bytes; what parses them as JSON is a parameter.
 */
module McpFrames {
  import opened Results
  import opened Sequences
  import opened Strings
  import opened Utf8
  import Decimal

  datatype FrameError = UnexpectedEof | InvalidUtf8 | MissingLength | InvalidJson

  const NEWLINE: byte := 10

  // ---------- text helpers of the reader ----------

  function Lower(c: char): char {
    if 'A' <= c <= 'Z' then (c as int + 32) as char else c
  }

  predicate EqIgnoreAsciiCase(a: string, b: string) {
    |a| == |b| && forall i | 0 <= i < |a| :: Lower(a[i]) == Lower(b[i])
  }

  /** The line without the carriage returns and line feeds at its end. */
  function TrimLineEnd(s: string): string {
    if s != [] && (s[|s| - 1] == '\r' || s[|s| - 1] == '\n') then TrimLineEnd(s[..|s| - 1]) else s
  }

  /** The texts before and after the first colon. */
  function SplitOnce(s: string): Option<(string, string)> {
    if s == [] then None
    else if s[0] == ':' then Some(([], s[1..]))
    else
      match SplitOnce(s[1..])
      case None => None
      case Some((key, value)) => Some(([s[0]] + key, value))
  }

  // ---------- writing ----------

  /** The bytes one message is written as. */
  function Frame(body: seq<byte>): seq<byte> {
    Encode("Content-Length: " + Decimal.OfNat(|body|) + "\r\n\r\n") + body
  }

  function Frames(bodies: seq<seq<byte>>): seq<byte> {
    if bodies == [] then [] else Frame(bodies[0]) + Frames(bodies[1..])
  }

  // ---------- reading ----------

  /** The size of the first line with its line feed, or of all there is when no line feed comes. */
  function LineSize(stream: seq<byte>): (n: nat)
    ensures n <= |stream| && (stream != [] ==> n > 0)
  {
    if stream == [] then 0 else if stream[0] == NEWLINE then 1 else 1 + LineSize(stream[1..])
  }

  /** What one header line makes of the content length known so far. */
  function HeaderStep(line: string, length: Option<nat>): Option<nat> {
    match SplitOnce(line)
    case None => length
    case Some((key, value)) =>
      if EqIgnoreAsciiCase(key, "content-length") then Decimal.ParseUsize(Trim(value)) else length
  }

  /** The length announced by the header lines up to the blank one, and what is left to read, also after an error. */
  function ReadHeaders(stream: seq<byte>, length: Option<nat>): (Result<Option<nat>, FrameError>, seq<byte>)
    decreases |stream|
  {
    if stream == [] then (Err(UnexpectedEof), [])
    else
      var size := LineSize(stream);
      match Decode(stream[..size])
      case None => (Err(InvalidUtf8), stream[size..])
      case Some(text) =>
        var line := TrimLineEnd(text);
        if line == [] then (Ok(length), stream[size..])
        else ReadHeaders(stream[size..], HeaderStep(line, length))
  }

  /** The body of the first frame, and what is left to read; a body that is cut short is used up. */
  function ReadFrame(stream: seq<byte>): (Result<seq<byte>, FrameError>, seq<byte>) {
    var (length, rest) := ReadHeaders(stream, None);
    match length
    case Err(e) => (Err(e), rest)
    case Ok(None) => (Err(MissingLength), rest)
    case Ok(Some(n)) => if |rest| < n then (Err(UnexpectedEof), []) else (Ok(rest[..n]), rest[n..])
  }

  function ReadMessage<V>(stream: seq<byte>, parse: seq<byte> -> Option<V>): (Result<V, FrameError>, seq<byte>) {
    var (body, rest) := ReadFrame(stream);
    match body
    case Err(e) => (Err(e), rest)
    case Ok(bytes) => (if parse(bytes).None? then Err(InvalidJson) else Ok(parse(bytes).value), rest)
  }

  /** A pipe: the bytes written to it and not yet read. */
  class Pipe {
    var pending: seq<byte>

    constructor ()
      ensures pending == []
    {
      pending := [];
    }

    method WriteFrame(body: seq<byte>)
      modifies this
      ensures pending == old(pending) + Frame(body)
    {
      pending := pending + Encode("Content-Length: " + Decimal.OfNat(|body|) + "\r\n\r\n");
      pending := pending + body;
    }

    method ReadLine() returns (r: Result<string, FrameError>)
      modifies this
      ensures var size := LineSize(old(pending));
              && pending == old(pending)[size..]
              && r == match Decode(old(pending)[..size]) case None => Err(InvalidUtf8) case Some(text) => Ok(text)
    {
      var size := LineSize(pending);
      var text := Decode(pending[..size]);
      pending := pending[size..];
      match text
      case None => r := Err(InvalidUtf8);
      case Some(line) => r := Ok(line);
    }

    method ReadNext<V>(parse: seq<byte> -> Option<V>) returns (r: Result<V, FrameError>)
      modifies this
      ensures (r, pending) == ReadMessage(old(pending), parse)
    {
      var length: Option<nat> := None;
      while true
        invariant ReadHeaders(pending, length) == ReadHeaders(old(pending), None)
        decreases |pending|
      {
        if pending == [] {
          return Err(UnexpectedEof);
        }
        var text := ReadLine();
        if text.Err? {
          return Err(text.error);
        }
        var trimmed := TrimLineEnd(text.value);
        if trimmed == [] {
          break;
        }
        match SplitOnce(trimmed) {
          case None =>
          case Some((key, value)) =>
            if EqIgnoreAsciiCase(key, "content-length") {
              length := Decimal.ParseUsize(Trim(value));
            }
        }
      }
      if length.None? {
        return Err(MissingLength);
      }
      if |pending| < length.value {
        pending := [];
        return Err(UnexpectedEof);
      }
      var body := pending[..length.value];
      pending := pending[length.value..];
      var value := parse(body);
      return if value.None? then Err(InvalidJson) else Ok(value.value);
    }
  }

  // ---------- header blocks ----------

  /** A header line: not empty, one line, and with no carriage return of its own at the end. */
  predicate IsHeader(line: string) {
    line != [] && '\n' !in line && line[|line| - 1] != '\r'
  }

  function HeaderBlock(lines: seq<string>): seq<byte> {
    if lines == [] then [13, 10] else Encode(lines[0]) + [13, 10] + HeaderBlock(lines[1..])
  }

  function FoldHeaders(lines: seq<string>, length: Option<nat>): Option<nat> {
    if lines == [] then length else FoldHeaders(lines[1..], HeaderStep(lines[0], length))
  }

  lemma {:induction false} EncodeConcat(a: string, b: string)
    ensures Encode(a + b) == Encode(a) + Encode(b)
  {
    if a == [] {
      assert a + b == b;
    } else {
      assert (a + b)[0] == a[0] && (a + b)[1..] == a[1..] + b;
      EncodeConcat(a[1..], b);
    }
  }

  lemma LineEndBytes()
    ensures Encode("\r\n") == [13, 10]
  {
    assert Encode("\n") == EncodeChar('\n') + Encode([]);
    assert Encode("\r\n") == EncodeChar('\r') + Encode("\n");
  }

  lemma {:induction false} NoLineFeedByte(s: string)
    requires '\n' !in s
    ensures NEWLINE !in Encode(s)
  {
    if s != [] {
      NoLineFeedByte(s[1..]);
      assert s[0] in s;
      assert forall i | 0 <= i < |EncodeChar(s[0])| :: EncodeChar(s[0])[i] != NEWLINE;
    }
  }

  lemma {:induction false} LineSizeOf(front: seq<byte>, tail: seq<byte>)
    requires NEWLINE !in front
    ensures LineSize(front + [NEWLINE] + tail) == |front| + 1
  {
    var stream := front + [NEWLINE] + tail;
    if front != [] {
      assert stream[0] == front[0] && front[0] in front;
      assert stream[1..] == front[1..] + [NEWLINE] + tail;
      LineSizeOf(front[1..], tail);
    }
  }

  lemma TrimmedLine(line: string)
    requires line == [] || (line[|line| - 1] != '\r' && line[|line| - 1] != '\n')
    ensures TrimLineEnd(line + "\r\n") == line
  {
    var once, twice := line + "\r", line + "\r\n";
    assert twice[|twice| - 1] == '\n' && twice[..|twice| - 1] == once;
    assert once[|once| - 1] == '\r' && once[..|once| - 1] == line;
    assert TrimLineEnd(twice) == TrimLineEnd(once) == TrimLineEnd(line);
  }

  lemma Sliced(front: seq<byte>, tail: seq<byte>)
    ensures (front + tail)[..|front|] == front && (front + tail)[|front|..] == tail
  {
  }

  lemma LineBytes(line: string)
    ensures Encode(line + "\r\n") == Encode(line) + [13, 10] == Encode(line) + [13] + [NEWLINE]
  {
    EncodeConcat(line, "\r\n");
    LineEndBytes();
  }

  /** Reading one line off a stream that starts with a line gives that line back. */
  lemma LineReads(line: string, tail: seq<byte>)
    requires '\n' !in line && (line == [] || line[|line| - 1] != '\r')
    ensures var stream := Encode(line) + [13, 10] + tail;
            var size := LineSize(stream);
            && stream[size..] == tail
            && Decode(stream[..size]) == Some(line + "\r\n") && TrimLineEnd(line + "\r\n") == line
  {
    var stream, text := Encode(line) + [13, 10] + tail, Encode(line + "\r\n");
    LineBytes(line);
    NoLineFeedByte(line);
    LineSizeOf(Encode(line) + [13], tail);
    Sliced(text, tail);
    DecodeOfEncode(line + "\r\n");
    if line != [] {
      assert line[|line| - 1] in line;
    }
    TrimmedLine(line);
  }

  /**
   Reading any block of header lines, whatever headers it holds and whatever follows it, keeps the last content length
   and leaves exactly what follows.
   */
  lemma {:induction false} HeadersRead(lines: seq<string>, tail: seq<byte>, length: Option<nat>)
    requires forall i | 0 <= i < |lines| :: IsHeader(lines[i])
    ensures ReadHeaders(HeaderBlock(lines) + tail, length) == (Ok(FoldHeaders(lines, length)), tail)
    decreases lines
  {
    var stream := HeaderBlock(lines) + tail;
    if lines == [] {
      LineReads([], tail);
      assert stream == Encode([]) + [13, 10] + tail;
    } else {
      var after := HeaderBlock(lines[1..]) + tail;
      LineReads(lines[0], after);
      Regroup(Encode(lines[0]) + [13, 10], HeaderBlock(lines[1..]), tail);
      HeadersRead(lines[1..], tail, HeaderStep(lines[0], length));
    }
  }

  // ---------- the length header ----------

  lemma {:induction false} SplitOnceOf(key: string, value: string)
    requires ':' !in key
    ensures SplitOnce(key + ":" + value) == Some((key, value))
  {
    var s := key + ":" + value;
    if key == [] {
      assert s[1..] == value;
    } else {
      assert key[0] in key && s[0] == key[0];
      assert s[1..] == key[1..] + ":" + value;
      SplitOnceOf(key[1..], value);
      assert [key[0]] + key[1..] == key;
    }
  }

  lemma TrimmedDigits(digits: string)
    requires digits != [] && Decimal.AllDigits(digits)
    ensures Trim(" " + digits) == digits
  {
    assert (" " + digits)[1..] == digits;
    assert TrimStart(digits) == digits;
    assert Decimal.IsDigit(digits[|digits| - 1]);
  }

  function LengthHeader(n: nat): string {
    "Content-Length: " + Decimal.OfNat(n)
  }

  lemma LengthHeaderIsHeader(n: nat)
    ensures IsHeader(LengthHeader(n))
  {
    var line, digits := LengthHeader(n), Decimal.OfNat(n);
    assert line[|line| - 1] == digits[|digits| - 1] && Decimal.IsDigit(digits[|digits| - 1]);
    assert forall i | 0 <= i < |digits| :: Decimal.IsDigit(digits[i]);
  }

  lemma LengthHeaderReads(n: nat, length: Option<nat>)
    requires n <= Decimal.USIZE_MAX
    ensures IsHeader(LengthHeader(n)) && HeaderStep(LengthHeader(n), length) == Some(n)
  {
    var digits := Decimal.OfNat(n);
    LengthHeaderIsHeader(n);
    assert LengthHeader(n) == "Content-Length" + ":" + (" " + digits);
    SplitOnceOf("Content-Length", " " + digits);
    TrimmedDigits(digits);
    Decimal.ParseUsizeOfNat(n);
  }

  lemma FrameIsBlock(body: seq<byte>)
    ensures Frame(body) == HeaderBlock([LengthHeader(|body|)]) + body
  {
    var line := LengthHeader(|body|);
    EncodeConcat(line, "\r\n\r\n");
    EncodeConcat("\r\n", "\r\n");
    LineEndBytes();
    assert line + "\r\n\r\n" == line + ("\r\n" + "\r\n");
    assert HeaderBlock([line]) == Encode(line) + [13, 10] + [13, 10];
  }

  /** Reading a written frame gives back its body, whatever bytes the body holds, and leaves exactly what follows. */
  lemma ReadUndoesWrite(body: seq<byte>, rest: seq<byte>)
    requires |body| <= Decimal.USIZE_MAX
    ensures ReadFrame(Frame(body) + rest) == (Ok(body), rest)
  {
    var lines := [LengthHeader(|body|)];
    LengthHeaderReads(|body|, None);
    FrameIsBlock(body);
    Regroup(HeaderBlock(lines), body, rest);
    HeadersRead(lines, body + rest, None);
    assert lines[1..] == [] && FoldHeaders(lines, None) == Some(|body|);
    assert (body + rest)[..|body|] == body && (body + rest)[|body|..] == rest;
  }

  /** Reading `n` frames in a row. */
  function ReadFrames(stream: seq<byte>, n: nat): (Result<seq<seq<byte>>, FrameError>, seq<byte>)
    decreases n
  {
    if n == 0 then (Ok([]), stream)
    else
      var (body, after) := ReadFrame(stream);
      if body.Err? then (Err(body.error), after)
      else
        var (bodies, rest) := ReadFrames(after, n - 1);
        (if bodies.Err? then bodies else Ok([body.value] + bodies.value), rest)
  }

  /** A stream of written frames reads back as the bodies in order, and what follows them is untouched. */
  lemma {:induction false} StreamRoundTrips(bodies: seq<seq<byte>>, rest: seq<byte>)
    requires forall i | 0 <= i < |bodies| :: |bodies[i]| <= Decimal.USIZE_MAX
    ensures ReadFrames(Frames(bodies) + rest, |bodies|) == (Ok(bodies), rest)
    decreases bodies
  {
    if bodies == [] {
      assert Frames(bodies) + rest == rest;
    } else {
      var after := Frames(bodies[1..]) + rest;
      Regroup(Frame(bodies[0]), Frames(bodies[1..]), rest);
      ReadUndoesWrite(bodies[0], after);
      StreamRoundTrips(bodies[1..], rest);
      assert bodies == [bodies[0]] + bodies[1..];
    }
  }

  /** A frame whose body is cut short is never taken for a whole one. */
  lemma TruncatedBodyRefused(body: seq<byte>, cut: nat)
    requires cut < |body| <= Decimal.USIZE_MAX
    ensures ReadFrame(HeaderBlock([LengthHeader(|body|)]) + body[..cut]) == (Err(UnexpectedEof), [])
  {
    var lines := [LengthHeader(|body|)];
    LengthHeaderReads(|body|, None);
    HeadersRead(lines, body[..cut], None);
    assert lines[1..] == [] && FoldHeaders(lines, None) == Some(|body|);
  }

  // ---------- headers, spelled out ----------

  /** A header sets the length if its name is content-length in any mix of cases; every other line leaves it as it is. */
  lemma HeaderStepIs(key: string, value: string, length: Option<nat>)
    requires ':' !in key
    ensures var named := |key| == 14
              && forall i | 0 <= i < 14 :: key[i] == "content-length"[i] || key[i] == "CONTENT-LENGTH"[i];
            HeaderStep(key + ":" + value, length) == if named then Decimal.ParseUsize(Trim(value)) else length
    ensures HeaderStep(key, length) == length
  {
    SplitOnceOf(key, value);
    NoColonNoSplit(key);
    forall i | 0 <= i < |key| && |key| == 14
      ensures Lower(key[i]) == Lower("content-length"[i]) <==> key[i] == "content-length"[i] || key[i] == "CONTENT-LENGTH"[i]
    {
      LowerIs(key[i]);
    }
  }

  lemma LowerIs(c: char)
    ensures 'A' <= c <= 'Z' ==> Lower(c) as int == c as int + 32
    ensures !('A' <= c <= 'Z') ==> Lower(c) == c
  {
  }

  lemma {:induction false} NoColonNoSplit(s: string)
    requires ':' !in s
    ensures SplitOnce(s) == None
  {
    if s != [] {
      assert s[0] in s;
      NoColonNoSplit(s[1..]);
    }
  }

  /** A header line that says nothing about the length. */
  ghost predicate LeavesLength(line: string) {
    forall length :: HeaderStep(line, length) == length
  }

  lemma {:induction false} FoldLeaves(lines: seq<string>, length: Option<nat>)
    requires forall i | 0 <= i < |lines| :: LeavesLength(lines[i])
    ensures FoldHeaders(lines, length) == length
    decreases lines
  {
    if lines != [] {
      FoldLeaves(lines[1..], length);
    }
  }

  lemma {:induction false} FoldConcat(before: seq<string>, after: seq<string>, length: Option<nat>)
    ensures FoldHeaders(before + after, length) == FoldHeaders(after, FoldHeaders(before, length))
    decreases before
  {
    if before == [] {
      assert before + after == after;
    } else {
      assert (before + after)[0] == before[0] && (before + after)[1..] == before[1..] + after;
      FoldConcat(before[1..], after, HeaderStep(before[0], length));
    }
  }

  lemma OnlyOneLength(before: seq<string>, after: seq<string>, n: nat)
    requires n <= Decimal.USIZE_MAX
    requires forall i | 0 <= i < |before| :: LeavesLength(before[i])
    requires forall i | 0 <= i < |after| :: LeavesLength(after[i])
    ensures FoldHeaders(before + [LengthHeader(n)] + after, None) == Some(n)
  {
    LengthHeaderReads(n, None);
    FoldConcat(before + [LengthHeader(n)], after, None);
    FoldConcat(before, [LengthHeader(n)], None);
    FoldLeaves(before, None);
    assert [LengthHeader(n)][1..] == [];
    FoldLeaves(after, Some(n));
  }

  lemma HeadersConcat(before: seq<string>, line: string, after: seq<string>)
    requires forall i | 0 <= i < |before| :: IsHeader(before[i])
    requires forall i | 0 <= i < |after| :: IsHeader(after[i])
    requires IsHeader(line)
    ensures forall i | 0 <= i < |before + [line] + after| :: IsHeader((before + [line] + after)[i])
  {
  }

  /** A frame reads back with any other headers before and after its length, such as a content type. */
  lemma OtherHeadersDoNotMatter(before: seq<string>, after: seq<string>, body: seq<byte>, rest: seq<byte>)
    requires |body| <= Decimal.USIZE_MAX
    requires forall i | 0 <= i < |before| :: IsHeader(before[i]) && LeavesLength(before[i])
    requires forall i | 0 <= i < |after| :: IsHeader(after[i]) && LeavesLength(after[i])
    ensures ReadFrame(HeaderBlock(before + [LengthHeader(|body|)] + after) + (body + rest)) == (Ok(body), rest)
  {
    LengthHeaderIsHeader(|body|);
    HeadersConcat(before, LengthHeader(|body|), after);
    OnlyOneLength(before, after, |body|);
    BlockReads(before + [LengthHeader(|body|)] + after, body, rest);
  }

  lemma BlockReads(lines: seq<string>, body: seq<byte>, rest: seq<byte>)
    requires forall i | 0 <= i < |lines| :: IsHeader(lines[i])
    requires FoldHeaders(lines, None) == Some(|body|)
    ensures ReadFrame(HeaderBlock(lines) + (body + rest)) == (Ok(body), rest)
  {
    HeadersRead(lines, body + rest, None);
    Sliced(body, rest);
  }

  /** Any header whose name has another length than `content-length` is such a line. */
  lemma OtherNameLeavesLength(key: string, value: string)
    requires ':' !in key && |key| != 14
    ensures LeavesLength(key + ":" + value)
  {
    SplitOnceOf(key, value);
  }

  /** Headers that never give a length are refused, and what follows them is left to read. */
  lemma MissingLengthRefused(lines: seq<string>, rest: seq<byte>)
    requires forall i | 0 <= i < |lines| :: IsHeader(lines[i]) && LeavesLength(lines[i])
    ensures ReadFrame(HeaderBlock(lines) + rest) == (Err(MissingLength), rest)
  {
    HeadersRead(lines, rest, None);
    FoldLeaves(lines, None);
  }

  /** A frame to the last byte: the header as it is usually spelled, its length in decimal, a blank line, the body. */
  lemma FrameIs(body: seq<byte>)
    ensures var header := "Content-Length: " + Decimal.OfNat(|body|) + "\r\n\r\n";
            && |Frame(body)| == |header| + |body| && Frame(body)[|header|..] == body
            && forall i | 0 <= i < |header| :: Frame(body)[i] == header[i] as int
  {
    var header := "Content-Length: " + Decimal.OfNat(|body|) + "\r\n\r\n";
    assert forall i | 0 <= i < |Decimal.OfNat(|body|)| :: Decimal.IsDigit(Decimal.OfNat(|body|)[i]);
    AsciiBytes(header);
  }

  /** Characters below 128 are their own bytes. */
  lemma {:induction false} AsciiBytes(s: string)
    requires forall i | 0 <= i < |s| :: s[i] as int < 128
    ensures |Encode(s)| == |s| && forall i | 0 <= i < |s| :: Encode(s)[i] == s[i] as int
  {
    if s != [] {
      AsciiBytes(s[1..]);
    }
  }
}
