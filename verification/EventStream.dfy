/**
 The server-sent event stream: the text the API writes and the incremental reader of the client.

 The reader cuts its buffer into frames chunk by chunk. What it delivers depends on the text alone, not on the
 chunks, and on the text of the writer it delivers exactly the events written.
 */
module EventStream {
  import opened Outcomes

  // ---------------------------------------------------------------- splitting at line breaks and frame breaks

  datatype Break = LineBreak | FrameBreak

  /** The length of a line break at the start of s: CR LF, or LF. */
  function LineBreakLength(s: string): (n: nat)
    ensures n <= |s|
  {
    if |s| >= 2 && s[0] == '\r' && s[1] == '\n' then 2
    else if |s| >= 1 && s[0] == '\n' then 1
    else 0
  }

  /** The length of the separator at the start of s: one line break between lines, two between frames. */
  function BreakLength(kind: Break, s: string): (n: nat)
    ensures n <= |s|
  {
    var first := LineBreakLength(s);
    if kind.LineBreak? || first == 0 then first
    else
      var second := LineBreakLength(s[first..]);
      if second == 0 then 0 else first + second
  }

  /** Where the first separator starts, or the length of s if there is none. */
  function FirstBreak(kind: Break, s: string): (i: nat)
    ensures i <= |s|
    ensures i < |s| ==> BreakLength(kind, s[i..]) > 0
  {
    if s == "" then 0
    else if BreakLength(kind, s) > 0 then assert s[0..] == s; 0
    else
      var rest := FirstBreak(kind, s[1..]);
      assert s[1..][rest..] == s[rest + 1..];
      rest + 1
  }

  /** Splitting at every separator, leftmost first. */
  function Split(kind: Break, s: string): (parts: seq<string>)
    ensures |parts| > 0
    decreases |s|
  {
    var i := FirstBreak(kind, s);
    if i == |s| then [s]
    else [s[..i]] + Split(kind, s[i + BreakLength(kind, s[i..])..])
  }

  /** What a reader keeps in its buffer: the part after the last separator. */
  function Tail(parts: seq<string>): string
    requires |parts| > 0
  {
    parts[|parts| - 1]
  }

  function Complete(parts: seq<string>): seq<string>
    requires |parts| > 0
  {
    parts[..|parts| - 1]
  }

  // ---------------------------------------------------------------- more text never changes the frames already cut

  lemma BreakAtStartIsStable(kind: Break, x: string, y: string)
    requires BreakLength(kind, x) > 0
    ensures BreakLength(kind, x + y) == BreakLength(kind, x)
  {
    var first := LineBreakLength(x);
    assert (x + y)[first..] == x[first..] + y;
  }

  /** A frame break that appears only once y arrives ends in y, so no earlier break in x can start inside it. */
  lemma NoEarlierBreak(x: string, y: string)
    requires |x| > 0 && BreakLength(FrameBreak, x) == 0 && BreakLength(FrameBreak, x + y) > 0
    ensures FirstBreak(FrameBreak, x[1..]) == |x[1..]|
  {
    var t := x + y;
    var first := LineBreakLength(t);
    assert BreakLength(FrameBreak, t) == first + LineBreakLength(t[first..]);
    assert |x| < 4;
    assert x[..|x|] == t[..|x|];
    if |x| == 1 {
      assert x[1..] == "";
    } else if |x| == 2 {
      assert x[1..] == [t[1]];
      assert x[1..][1..] == "";
    } else {
      assert x[1..] == [t[1], t[2]];
      assert x[1..][1..] == [t[2]];
      assert x[1..][1..][1..] == "";
    }
  }

  lemma {:induction false} FirstFrameIsStable(x: string, y: string)
    requires FirstBreak(FrameBreak, x) < |x|
    ensures FirstBreak(FrameBreak, x + y) == FirstBreak(FrameBreak, x)
  {
    hide BreakLength;
    if BreakLength(FrameBreak, x) > 0 {
      BreakAtStartIsStable(FrameBreak, x, y);
    } else {
      if BreakLength(FrameBreak, x + y) > 0 {
        NoEarlierBreak(x, y);
        assert false;
      }
      assert (x + y)[1..] == x[1..] + y;
      FirstFrameIsStable(x[1..], y);
    }
  }

  /** The text after the first separator. */
  function AfterFirst(kind: Break, s: string): (rest: string)
    requires FirstBreak(kind, s) < |s|
    ensures |rest| < |s|
  {
    var i := FirstBreak(kind, s);
    s[i + BreakLength(kind, s[i..])..]
  }

  lemma SplitStep(kind: Break, s: string)
    requires FirstBreak(kind, s) < |s|
    ensures Split(kind, s) == [s[..FirstBreak(kind, s)]] + Split(kind, AfterFirst(kind, s))
  {
  }

  lemma SliceOfSum(x: string, y: string, k: nat)
    requires k <= |x|
    ensures (x + y)[..k] == x[..k] && (x + y)[k..] == x[k..] + y
  {
  }

  lemma AfterFirstExtended(x: string, y: string)
    requires FirstBreak(FrameBreak, x) < |x|
    ensures FirstBreak(FrameBreak, x + y) < |x + y| && AfterFirst(FrameBreak, x + y) == AfterFirst(FrameBreak, x) + y
    ensures (x + y)[..FirstBreak(FrameBreak, x + y)] == x[..FirstBreak(FrameBreak, x)]
  {
    var i := FirstBreak(FrameBreak, x);
    FirstFrameIsStable(x, y);
    SliceOfSum(x, y, i);
    BreakAtStartIsStable(FrameBreak, x[i..], y);
    SliceOfSum(x, y, i + BreakLength(FrameBreak, x[i..]));
    hide BreakLength, FirstBreak;
  }

  lemma PrependPart(first: string, parts: seq<string>, more: seq<string>)
    requires |parts| > 0
    ensures Complete([first] + parts) + more == [first] + (Complete(parts) + more)
      && Tail([first] + parts) == Tail(parts)
  {
  }

  /** Splitting can be resumed from the kept tail. */
  lemma {:induction false} SplitResumes(x: string, y: string)
    ensures Split(FrameBreak, x + y)
      == Complete(Split(FrameBreak, x)) + Split(FrameBreak, Tail(Split(FrameBreak, x)) + y)
    decreases |x|
  {
    var i := FirstBreak(FrameBreak, x);
    if i == |x| {
      assert Split(FrameBreak, x) == [x];
      assert Complete([x]) == [];
    } else {
      hide Split, AfterFirst, BreakLength, FirstBreak;
      var rest := AfterFirst(FrameBreak, x);
      AfterFirstExtended(x, y);
      SplitStep(FrameBreak, x + y);
      SplitStep(FrameBreak, x);
      SplitResumes(rest, y);
      var parts := Split(FrameBreak, rest);
      PrependPart(x[..i], parts, Split(FrameBreak, Tail(parts) + y));
    }
  }

  // ---------------------------------------------------------------- one frame

  /** An event id: the one the subscription started from, or what the platform's Number makes of an id field. */
  datatype EventId = Initial | Numeric(value: real) | Infinite(positive: bool) | NotANumber

  /** An event as handed to the subscriber. */
  datatype Delivered<J> = Delivered(id: EventId, kind: string, data: J)

  /** The platform's JSON parser and Number conversion, and whether the subscriber's handler returns. */
  datatype Client<!J> = Client(parse: string -> Option<J>, number: string -> EventId, accepts: Delivered<J> -> bool)

  /** Reader state between frames; a payload that does not parse, or a handler that throws, ends the subscription. */
  datatype Reader<J> = Reader(eventId: EventId, delivered: seq<Delivered<J>>, failed: bool)

  predicate IsSpace(c: char) {
    c in {' ', '\t', '\n', '\r', '\U{B}', '\U{C}', '\U{A0}', '\U{1680}', '\U{2028}', '\U{2029}', '\U{202F}',
      '\U{205F}', '\U{3000}', '\U{FEFF}'}
    || '\U{2000}' <= c <= '\U{200A}'
  }

  function TrimStart(s: string): string {
    if s != "" && IsSpace(s[0]) then TrimStart(s[1..]) else s
  }

  /** The position of the first colon, or the length of the line. */
  function Colon(line: string): (i: nat)
    ensures i <= |line|
    ensures i < |line| ==> line[i] == ':'
  {
    if line == "" || line[0] == ':' then 0 else Colon(line[1..]) + 1
  }

  /** The fields of the lines that have a colon; a later line overwrites an earlier one of the same name. */
  function Fields(lines: seq<string>): map<string, string> {
    if lines == [] then map[]
    else
      var last := lines[|lines| - 1];
      var before := Fields(lines[..|lines| - 1]);
      var i := Colon(last);
      if i == |last| then before else before[last[..i] := TrimStart(last[i + 1..])]
  }

  function Field(fields: map<string, string>, name: string): string {
    if name in fields then fields[name] else ""
  }

  predicate IsDigit(c: char) {
    '0' <= c <= '9'
  }

  function DigitValue(c: char): nat
    requires IsDigit(c)
  {
    c as int - '0' as int
  }

  function Digit(d: nat): (c: char)
    requires d < 10
    ensures IsDigit(c) && DigitValue(c) == d
  {
    (d + '0' as int) as char
  }

  function Decimal(n: nat): (s: string)
    ensures |s| > 0 && forall i :: 0 <= i < |s| ==> IsDigit(s[i])
  {
    (if n < 10 then "" else Decimal(n / 10)) + [Digit(n % 10)]
  }

  /** The number a decimal text stands for. */
  function ParseDecimal(s: string): Option<nat> {
    if s == "" || !IsDigit(s[|s| - 1]) then None
    else if |s| == 1 then Some(DigitValue(s[0]))
    else
      match ParseDecimal(s[..|s| - 1])
      case Some(high) => Some(10 * high + DigitValue(s[|s| - 1]))
      case None => None
  }

  lemma {:induction false} DecimalParses(n: nat)
    ensures ParseDecimal(Decimal(n)) == Some(n)
  {
    var s := Decimal(n);
    if n >= 10 {
      DecimalParses(n / 10);
      assert s[..|s| - 1] == Decimal(n / 10);
    }
  }

  /** A conversion that reads decimal integers as what they are; what it makes of any other text is its own affair. */
  ghost predicate ReadsDecimals(number: string -> EventId) {
    forall s: string :: ParseDecimal(s).Some? ==> number(s) == Numeric(ParseDecimal(s).value as real)
  }

  /** What one frame does to the reader. */
  function DeliverFrame<J>(frame: string, reader: Reader<J>, client: Client<J>): Reader<J> {
    var fields := Fields(Split(LineBreak, frame));
    var eventId := if Field(fields, "id") != "" then client.number(Field(fields, "id")) else reader.eventId;
    if Field(fields, "event") != "" && Field(fields, "data") != "" then
      match client.parse(Field(fields, "data"))
      case None => reader.(eventId := eventId, failed := true)
      case Some(data) =>
        var event := Delivered(eventId, Field(fields, "event"), data);
        reader.(eventId := eventId, delivered := reader.delivered + [event], failed := !client.accepts(event))
    else reader.(eventId := eventId)
  }

  /** Frames one after the other, until one fails. */
  function DeliverAll<J>(frames: seq<string>, reader: Reader<J>, client: Client<J>): Reader<J> {
    if frames == [] then reader
    else
      var before := DeliverAll(frames[..|frames| - 1], reader, client);
      if before.failed then before else DeliverFrame(frames[|frames| - 1], before, client)
  }

  lemma {:induction false} DeliverAppend<J>(a: seq<string>, b: seq<string>, reader: Reader<J>, client: Client<J>)
    ensures DeliverAll(a + b, reader, client) == DeliverAll(b, DeliverAll(a, reader, client), client)
  {
    if b == [] {
      assert a + b == a;
    } else {
      assert (a + b)[..|a + b| - 1] == a + b[..|b| - 1];
      DeliverAppend(a, b[..|b| - 1], reader, client);
    }
  }

  lemma {:induction false} FailedStays<J>(frames: seq<string>, reader: Reader<J>, client: Client<J>)
    requires reader.failed
    ensures DeliverAll(frames, reader, client) == reader
  {
    if frames != [] {
      FailedStays(frames[..|frames| - 1], reader, client);
    }
  }

  // ---------------------------------------------------------------- the read loop

  function Concat(chunks: seq<string>): string {
    if chunks == [] then "" else Concat(chunks[..|chunks| - 1]) + chunks[|chunks| - 1]
  }

  /** What a text delivers: its complete frames, to a reader that has read nothing. */
  function DeliveredBy<J>(text: string, client: Client<J>): Reader<J> {
    DeliverAll(Complete(Split(FrameBreak, text)), Reader(Initial, [], false), client)
  }

  /** How many of n chunks are read: those before the first read that finds the subscription closed. */
  function ChunksRead(aborted: nat -> bool, n: nat): (k: nat)
    ensures k <= n && (forall j: nat :: j < k ==> !aborted(j)) && (k < n ==> aborted(k))
  {
    if n == 0 then 0
    else
      var k := ChunksRead(aborted, n - 1);
      if k < n - 1 || aborted(n - 1) then k else n
  }

  /**
   Read chunks until the stream ends, the subscription is closed, a payload fails to parse or a handler throws. The
   result is stated on the whole text read, so no split of it into chunks can change it; an unfinished last frame is
   not delivered.
   */
  method ReadStream<J>(chunks: seq<string>, aborted: nat -> bool, client: Client<J>) returns (reader: Reader<J>)
    ensures reader == DeliveredBy(Concat(chunks[..ChunksRead(aborted, |chunks|)]), client)
  {
    hide Split, DeliverFrame;
    reader := Reader(Initial, [], false);
    var buffer := "";
    EmptySplit();
    ghost var read := chunks[..ChunksRead(aborted, |chunks|)];
    for n := 0 to |chunks|
      invariant !reader.failed && n <= |read|
      invariant Split(FrameBreak, Concat(chunks[..n])) != []
      invariant buffer == Tail(Split(FrameBreak, Concat(chunks[..n])))
      invariant reader == DeliveredBy(Concat(chunks[..n]), client)
    {
      if aborted(n) {
        return;
      }
      var text := Concat(chunks[..n]);
      assert chunks[..n + 1][..n] == chunks[..n] == read[..n];
      SplitResumes(text, chunks[n]);
      var frames := Split(FrameBreak, buffer + chunks[n]);
      assert Complete(Split(FrameBreak, text + chunks[n])) == Complete(Split(FrameBreak, text)) + Complete(frames);
      DeliverAppend(Complete(Split(FrameBreak, text)), Complete(frames), Reader(Initial, [], false), client);
      buffer := Tail(frames);
      ghost var start := reader;
      for k := 0 to |frames| - 1
        invariant !reader.failed && reader == DeliverAll(frames[..k], start, client)
      {
        assert frames[..k + 1][..k] == frames[..k];
        reader := DeliverFrame(frames[k], reader, client);
        if reader.failed {
          FailureIsFinal(read, n, frames, k, start, reader, client);
          return;
        }
      }
    }
  }

  /** Closing the subscription early cuts what is delivered short and changes nothing else. */
  lemma AbortDeliversLess<J>(chunks: seq<string>, aborted: nat -> bool, client: Client<J>)
    ensures DeliveredBy(Concat(chunks[..ChunksRead(aborted, |chunks|)]), client).delivered
      <= DeliveredBy(Concat(chunks), client).delivered
  {
    var n := ChunksRead(aborted, |chunks|);
    var text := Concat(chunks[..n]);
    var rest := ConcatFrom(chunks, n);
    SplitResumes(text, rest);
    var before, next := Split(FrameBreak, text), Split(FrameBreak, Tail(Split(FrameBreak, text)) + rest);
    CompleteOfSum(Complete(before), next);
    DeliverAppend(Complete(before), Complete(next), Reader(Initial, [], false), client);
    DeliveredGrows(Complete(next), DeliveredBy(text, client), client);
  }

  lemma {:induction false} DeliveredGrows<J>(frames: seq<string>, reader: Reader<J>, client: Client<J>)
    ensures reader.delivered <= DeliverAll(frames, reader, client).delivered
  {
    if frames != [] {
      hide Split, Fields, Field;
      DeliveredGrows(frames[..|frames| - 1], reader, client);
    }
  }

  lemma EmptySplit()
    ensures Split(FrameBreak, "") == [""]
  {
  }

  /** Once a payload fails, the text still unread changes nothing. */
  lemma FailureIsFinal<J>(chunks: seq<string>, n: nat, frames: seq<string>, k: nat, start: Reader<J>, reader: Reader<J>,
                          client: Client<J>)
    requires n < |chunks| && k < |frames| - 1 && reader.failed
    requires frames == Split(FrameBreak, Tail(Split(FrameBreak, Concat(chunks[..n]))) + chunks[n])
    requires start == DeliveredBy(Concat(chunks[..n]), client)
    requires reader == DeliverAll(frames[..k + 1], start, client)
    ensures reader == DeliveredBy(Concat(chunks), client)
  {
    var done := Complete(Split(FrameBreak, Concat(chunks[..n])));
    var all := Complete(Split(FrameBreak, Concat(chunks)));
    FramesArePrefix(chunks, n);
    PrefixOfPrefix(done, Complete(frames), k + 1, all);
    hide *;
    var later := all[|done| + k + 1..];
    DeliverAppend(done, frames[..k + 1], Reader(Initial, [], false), client);
    DeliverAppend(done + frames[..k + 1], later, Reader(Initial, [], false), client);
    FailedStays(later, reader, client);
    assert Complete(frames)[..k + 1] == frames[..k + 1] by {
      CompletePrefix(frames, k + 1);
    }
  }

  lemma CompletePrefix(frames: seq<string>, k: nat)
    requires k < |frames|
    ensures Complete(frames)[..k] == frames[..k]
  {
  }

  lemma PrefixOfPrefix(done: seq<string>, complete: seq<string>, k: nat, all: seq<string>)
    requires k <= |complete| && done + complete <= all
    ensures |done| + k <= |all| && (done + complete[..k]) + all[|done| + k..] == all
  {
    assert all[..|done + complete|] == done + complete;
  }

  /** The frames cut so far, and those cut from the next chunk, are the first frames of the whole text. */
  lemma FramesArePrefix(chunks: seq<string>, n: nat)
    requires n < |chunks|
    ensures var before := Split(FrameBreak, Concat(chunks[..n]));
      Complete(before) + Complete(Split(FrameBreak, Tail(before) + chunks[n]))
        <= Complete(Split(FrameBreak, Concat(chunks)))
  {
    assert chunks[..n + 1][..n] == chunks[..n];
    var rest := ConcatFrom(chunks, n + 1);
    ConcatStep(chunks, n);
    var text := Concat(chunks[..n]);
    SplitResumes(text, chunks[n]);
    SplitResumes(text + chunks[n], rest);
    var before, middle := Split(FrameBreak, text), Split(FrameBreak, text + chunks[n]);
    var next, last := Split(FrameBreak, Tail(before) + chunks[n]), Split(FrameBreak, Tail(middle) + rest);
    CompleteOfSum(Complete(before), next);
    CompleteOfSum(Complete(middle), last);
    hide *;
    assert Complete(Split(FrameBreak, Concat(chunks))) == Complete(middle) + Complete(last);
    assert Complete(middle) == Complete(before) + Complete(next);
  }

  lemma CompleteOfSum(a: seq<string>, parts: seq<string>)
    requires |parts| > 0
    ensures Complete(a + parts) == a + Complete(parts)
  {
  }

  lemma ConcatStep(chunks: seq<string>, n: nat)
    requires n < |chunks|
    ensures Concat(chunks[..n + 1]) == Concat(chunks[..n]) + chunks[n]
  {
    assert chunks[..n + 1][..n] == chunks[..n];
  }

  /** The text of the chunks from n on. */
  lemma {:induction false} ConcatFrom(chunks: seq<string>, n: nat) returns (rest: string)
    requires n <= |chunks|
    ensures Concat(chunks) == Concat(chunks[..n]) + rest
  {
    if n == |chunks| {
      assert chunks[..n] == chunks;
      rest := "";
    } else {
      var last := |chunks| - 1;
      rest := ConcatFrom(chunks[..last], n);
      assert chunks[..last][..n] == chunks[..n];
      rest := rest + chunks[last];
    }
  }

  // ---------------------------------------------------------------- the writer

  datatype Event = Event(id: nat, kind: string, data: string)

  /** One event as the API writes it. */
  function WriteSse(event: Event): string {
    FrameText(event) + "\n\n"
  }

  function FrameText(event: Event): string {
    "id: " + Decimal(event.id) + "\nevent: " + event.kind + "\nretry: 3000\ndata: " + event.data
  }

  function WriteAll(events: seq<Event>): string {
    if events == [] then "" else WriteSse(events[0]) + WriteAll(events[1..])
  }

  /** A text without line breaks. */
  ghost predicate Plain(s: string) {
    forall i :: 0 <= i < |s| ==> s[i] != '\n' && s[i] != '\r'
  }

  /** A value that survives on one line: not empty, no line break in it, no space in front. */
  ghost predicate OneLine(s: string) {
    Plain(s) && s != "" && !IsSpace(s[0])
  }

  /** What the API sends: a one-line event name, and JSON text, which escapes its line breaks. */
  ghost predicate Sendable(event: Event) {
    OneLine(event.kind) && OneLine(event.data)
  }

  // ---------------------------------------------------------------- reading back what was written

  lemma {:induction false} PlainHasNoBreak(kind: Break, p: string, t: string)
    requires Plain(p)
    ensures FirstBreak(kind, p + t) == |p| + FirstBreak(kind, t)
  {
    if p == "" {
      assert p + t == t;
    } else {
      assert (p + t)[1..] == p[1..] + t;
      PlainHasNoBreak(kind, p[1..], t);
    }
  }

  /** Lines joined by LF. */
  function Join(lines: seq<string>): string
    requires |lines| > 0
  {
    if |lines| == 1 then lines[0] else lines[0] + ("\n" + Join(lines[1..]))
  }

  ghost predicate PlainLines(lines: seq<string>) {
    |lines| > 0 && forall i :: 0 <= i < |lines| ==> Plain(lines[i]) && lines[i] != ""
  }

  /** Non-empty plain lines contain no frame break, so the first one is the one that follows them. */
  lemma {:induction false} JoinedUpToBreak(lines: seq<string>, t: string)
    requires PlainLines(lines)
    ensures FirstBreak(FrameBreak, Join(lines) + ("\n\n" + t)) == |Join(lines)|
  {
    hide BreakLength, FirstBreak;
    var s := "\n\n" + t;
    if |lines| == 1 {
      PlainHasNoBreak(FrameBreak, lines[0], s);
      BreakFirst(t);
    } else {
      var rest := Join(lines[1..]) + s;
      assert Join(lines) + s == lines[0] + ("\n" + rest);
      PlainHasNoBreak(FrameBreak, lines[0], "\n" + rest);
      JoinedUpToBreak(lines[1..], t);
      JoinStartsWithText(lines[1..]);
      NoBreakBeforeText(rest);
    }
  }

  lemma JoinStartsWithText(lines: seq<string>)
    requires PlainLines(lines)
    ensures Join(lines) != "" && Join(lines)[0] == lines[0][0]
  {
  }

  lemma BreakFirst(t: string)
    ensures FirstBreak(FrameBreak, "\n\n" + t) == 0 && BreakLength(FrameBreak, "\n\n" + t) == 2
  {
    var s := "\n\n" + t;
    assert s[1..] == "\n" + t;
  }

  lemma NoBreakBeforeText(rest: string)
    requires rest != "" && rest[0] != '\n' && rest[0] != '\r'
    ensures FirstBreak(FrameBreak, "\n" + rest) == 1 + FirstBreak(FrameBreak, rest)
  {
    assert ("\n" + rest)[1..] == rest;
    assert BreakLength(FrameBreak, "\n" + rest) == 0;
  }

  lemma OneLineSplits(line: string)
    requires Plain(line)
    ensures Split(LineBreak, line) == [line]
  {
    PlainHasNoBreak(LineBreak, line, "");
    assert line + "" == line;
    hide BreakLength, Plain;
  }

  lemma {:induction false} JoinedLinesSplit(lines: seq<string>)
    requires PlainLines(lines)
    ensures Split(LineBreak, Join(lines)) == lines
  {
    hide Split, BreakLength, FirstBreak, AfterFirst;
    if |lines| == 1 {
      OneLineSplits(lines[0]);
    } else {
      hide Plain;
      FirstLineSplits(lines[0], Join(lines[1..]));
      SplitStep(LineBreak, Join(lines));
      JoinedLinesSplit(lines[1..]);
    }
  }

  lemma FirstLineSplits(line: string, rest: string)
    requires Plain(line)
    ensures var text := line + ("\n" + rest);
      FirstBreak(LineBreak, text) == |line| < |text| && text[..|line|] == line && AfterFirst(LineBreak, text) == rest
  {
    var s := "\n" + rest;
    PlainHasNoBreak(LineBreak, line, s);
    assert BreakLength(LineBreak, s) == 1 && FirstBreak(LineBreak, s) == 0;
    hide FirstBreak, BreakLength;
    assert (line + s)[|line|..] == s;
    assert (line + s)[|line| + 1..] == rest;
  }

  function FrameLines(event: Event): seq<string> {
    ["id: " + Decimal(event.id), "event: " + event.kind, "retry: 3000", "data: " + event.data]
  }

  lemma FrameIsJoined(event: Event)
    ensures FrameText(event) == Join(FrameLines(event))
  {
    hide Decimal;
    var l := FrameLines(event);
    assert l[1..][1..][1..] == [l[3]];
    assert l[1..][1..] == [l[2], l[3]];
    assert l[1..] == [l[1], l[2], l[3]];
    assert Join([l[2], l[3]]) == l[2] + ("\n" + l[3]);
    assert Join([l[1], l[2], l[3]]) == l[1] + ("\n" + (l[2] + ("\n" + l[3])));
  }

  lemma FrameLinesArePlain(event: Event)
    requires Sendable(event)
    ensures PlainLines(FrameLines(event))
  {
    hide Decimal;
  }

  lemma {:induction false} ColonAfterName(name: string, value: string)
    requires forall i :: 0 <= i < |name| ==> name[i] != ':'
    ensures Colon(name + ":" + value) == |name|
  {
    var line := name + ":" + value;
    if name != "" {
      assert line[1..] == name[1..] + ":" + value;
      ColonAfterName(name[1..], value);
    }
  }

  /** A line `name: value` sets that field to the value. */
  lemma FieldLine(lines: seq<string>, name: string, value: string)
    requires forall i :: 0 <= i < |name| ==> name[i] != ':'
    requires value != "" && !IsSpace(value[0])
    ensures Fields(lines + [name + ": " + value]) == Fields(lines)[name := value]
  {
    var line := name + ": " + value;
    assert line == name + ":" + (" " + value);
    ColonAfterName(name, " " + value);
    TrimsOneSpace(value);
    hide TrimStart, IsSpace, Colon;
    assert line[..|name|] == name;
    assert line[|name| + 1..] == " " + value;
    assert (lines + [line])[..|lines|] == lines;
  }

  lemma TrimsOneSpace(value: string)
    requires value != "" && !IsSpace(value[0])
    ensures TrimStart(" " + value) == value
  {
    assert (" " + value)[1..] == value;
  }

  lemma DigitsAreNoSpaces(n: nat)
    ensures Decimal(n) != "" && !IsSpace(Decimal(n)[0])
  {
    hide Decimal;
    assert IsDigit(Decimal(n)[0]);
  }

  /** The four lines of a frame, as a map. */
  function FrameMap(id: string, kind: string, data: string): map<string, string> {
    map["id" := id]["event" := kind]["retry" := "3000"]["data" := data]
  }

  lemma FrameMapLookups(id: string, kind: string, data: string)
    ensures Field(FrameMap(id, kind, data), "id") == id
    ensures Field(FrameMap(id, kind, data), "event") == kind
    ensures Field(FrameMap(id, kind, data), "data") == data
  {
    assert |"id"| == 2 && |"event"| == |"retry"| == 5 && |"data"| == 4;
    assert "event"[0] == 'e' && "retry"[0] == 'r';
  }

  lemma FrameFields(event: Event)
    requires Sendable(event)
    ensures Fields(FrameLines(event)) == FrameMap(Decimal(event.id), event.kind, event.data)
  {
    DigitsAreNoSpaces(event.id);
    LinesToMap(Decimal(event.id), event.kind, event.data);
  }

  lemma LinesToMap(id: string, kind: string, data: string)
    requires id != "" && !IsSpace(id[0]) && kind != "" && !IsSpace(kind[0]) && data != "" && !IsSpace(data[0])
    ensures Fields(["id: " + id, "event: " + kind, "retry: 3000", "data: " + data]) == FrameMap(id, kind, data)
  {
    NoFields();
    NamesHaveNoColon();
    hide Fields, IsSpace;
    var a, b, c, d := "id" + ": " + id, "event" + ": " + kind, "retry" + ": " + "3000", "data" + ": " + data;
    FieldLine([], "id", id);
    FieldLine([a], "event", kind);
    FieldLine([a, b], "retry", "3000");
    FieldLine([a, b, c], "data", data);
    assert [] + [a] == [a] && [a] + [b] == [a, b] && [a, b] + [c] == [a, b, c] && [a, b, c] + [d] == [a, b, c, d];
    assert a == "id: " + id && b == "event: " + kind && c == "retry: 3000" && d == "data: " + data;
  }

  lemma NamesHaveNoColon()
    ensures forall i :: 0 <= i < |"id"| ==> "id"[i] != ':'
    ensures forall i :: 0 <= i < |"event"| ==> "event"[i] != ':'
    ensures forall i :: 0 <= i < |"retry"| ==> "retry"[i] != ':'
    ensures forall i :: 0 <= i < |"data"| ==> "data"[i] != ':'
    ensures !IsSpace("3000"[0])
  {
  }

  /** What the client makes of an event that was sent. */
  function Received<J>(event: Event, client: Client<J>): Delivered<J>
    requires client.parse(event.data).Some?
  {
    Delivered(Numeric(event.id as real), event.kind, client.parse(event.data).value)
  }

  /** An event that can be sent, parsed and handled. */
  ghost predicate Deliverable<J>(event: Event, client: Client<J>) {
    Sendable(event) && client.parse(event.data).Some? && client.accepts(Received(event, client))
  }

  /** The frame of an event sets the reader's id and delivers exactly that event. */
  lemma FrameDelivers<J>(event: Event, reader: Reader<J>, client: Client<J>)
    requires Deliverable(event, client) && ReadsDecimals(client.number) && !reader.failed
    ensures DeliverFrame(FrameText(event), reader, client)
         == reader.(eventId := Numeric(event.id as real), delivered := reader.delivered + [Received(event, client)])
  {
    FrameIsJoined(event);
    FrameLinesArePlain(event);
    JoinedLinesSplit(FrameLines(event));
    FrameFields(event);
    FrameMapLookups(Decimal(event.id), event.kind, event.data);
    DecimalParses(event.id);
    hide Split, Fields, Decimal, ParseDecimal, FrameMap, Field, FrameText, FrameLines, Join;
  }

  lemma NoFields()
    ensures Fields([]) == map[]
  {
  }

  function FrameTexts(events: seq<Event>): seq<string> {
    seq(|events|, i requires 0 <= i < |events| => FrameText(events[i]))
  }

  /** The written text splits into one frame for each event, with nothing left over. */
  lemma {:induction false} WrittenSplits(events: seq<Event>)
    requires forall e :: e in events ==> Sendable(e)
    ensures Split(FrameBreak, WriteAll(events)) == FrameTexts(events) + [""]
  {
    if events == [] {
      EmptySplit();
      assert FrameTexts(events) == [];
    } else {
      hide Split, FirstBreak, BreakLength, FrameText, WriteSse, AfterFirst, Sendable;
      var rest := WriteAll(events[1..]);
      WrittenSplits(events[1..]);
      FirstWrittenFrame(events[0], rest);
      SplitStep(FrameBreak, WriteSse(events[0]) + rest);
      PrependFrame(events);
    }
  }

  lemma PrependFrame(events: seq<Event>)
    requires events != []
    ensures [FrameText(events[0])] + (FrameTexts(events[1..]) + [""]) == FrameTexts(events) + [""]
  {
    hide FrameText;
    assert FrameTexts(events) == [FrameText(events[0])] + FrameTexts(events[1..]);
  }

  lemma FirstWrittenFrame(event: Event, rest: string)
    requires Sendable(event)
    ensures var text := WriteSse(event) + rest;
      && FirstBreak(FrameBreak, text) < |text|
      && text[..FirstBreak(FrameBreak, text)] == FrameText(event)
      && AfterFirst(FrameBreak, text) == rest
  {
    FrameIsJoined(event);
    FrameLinesArePlain(event);
    JoinedUpToBreak(FrameLines(event), rest);
    BreakFirst(rest);
    hide FrameText, FirstBreak, BreakLength, FrameLines, Join;
    var frame, s := FrameText(event), "\n\n" + rest;
    assert WriteSse(event) + rest == frame + s;
    assert (frame + s)[|frame|..] == s;
    assert (frame + s)[|frame| + 2..] == rest;
  }

  function AllReceived<J>(events: seq<Event>, client: Client<J>): (d: seq<Delivered<J>>)
    requires forall e :: e in events ==> client.parse(e.data).Some?
  {
    seq(|events|, i requires 0 <= i < |events| => assert events[i] in events; Received(events[i], client))
  }

  /** What the reader holds once everything sent has been delivered. */
  function ReaderAfter<J>(events: seq<Event>, client: Client<J>): Reader<J>
    requires forall e :: e in events ==> client.parse(e.data).Some?
  {
    Reader(if events == [] then Initial else Numeric(events[|events| - 1].id as real),
           AllReceived(events, client), false)
  }

  lemma {:induction false} FramesDeliver<J>(events: seq<Event>, client: Client<J>)
    requires ReadsDecimals(client.number)
      && forall e :: e in events ==> client.parse(e.data).Some? && Deliverable(e, client)
    ensures DeliverAll(FrameTexts(events), Reader(Initial, [], false), client) == ReaderAfter(events, client)
  {
    hide DeliverFrame, FrameText, ReadsDecimals, Sendable;
    if events != [] {
      var last := |events| - 1;
      var frames := FrameTexts(events);
      assert frames[..last] == FrameTexts(events[..last]);
      FramesDeliver(events[..last], client);
      var before := DeliverAll(frames[..last], Reader(Initial, [], false), client);
      assert events[last] in events;
      FrameDelivers(events[last], before, client);
      assert AllReceived(events, client) == AllReceived(events[..last], client) + [Received(events[last], client)];
    }
  }

  /**
   However the written text is cut into chunks, what the read loop returns holds exactly the ids, names and payloads
   that were written, in order.
   */
  lemma RoundTrip<J>(events: seq<Event>, chunks: seq<string>, client: Client<J>)
    requires ReadsDecimals(client.number)
      && forall e :: e in events ==> client.parse(e.data).Some? && Deliverable(e, client)
    requires Concat(chunks) == WriteAll(events)
    ensures DeliveredBy(Concat(chunks), client) == ReaderAfter(events, client)
  {
    WrittenSplits(events);
    FramesDeliver(events, client);
    hide Split, DeliverAll;
    assert Complete(FrameTexts(events) + [""]) == FrameTexts(events);
  }
}
