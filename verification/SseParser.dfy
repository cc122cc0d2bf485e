/**
 The incremental reader of a `text/event-stream` body (sections 9.2.5 and 9.2.6 of
 the WHATWG HTML Standard, as the client implements them).  Bytes are buffered
 until a line is complete, so how the network cuts the stream does not matter.
 Lossy UTF-8 decoding is a function of one line's bytes and is left open.
 */
module SseParser {
  import opened Options
  import opened Bytes

  const LF: byte := 10
  const CR: byte := 13

  const I64_MAX: int := 0x7FFF_FFFF_FFFF_FFFF

  datatype SseEvent = SseEvent(id: Option<string>, event: Option<string>, data: string, retry: Option<nat>)

  /** The fields of the frame being collected. */
  datatype Frame = Frame(id: Option<string>, event: Option<string>, data: seq<string>, retry: Option<nat>)

  const NO_FRAME := Frame(None, None, [], None)

  // -------------------------------------------------------------------------
  // Strings
  // -------------------------------------------------------------------------

  predicate IsWhitespace(c: char) {
    || '\t' <= c <= '\r' || c == ' ' || c == '\U{0085}' || c == '\U{00A0}' || c == '\U{1680}'
    || '\U{2000}' <= c <= '\U{200A}' || c == '\U{2028}' || c == '\U{2029}' || c == '\U{202F}'
    || c == '\U{205F}' || c == '\U{3000}'
  }

  function TrimStart(s: string): string {
    if s != "" && IsWhitespace(s[0]) then TrimStart(s[1..]) else s
  }

  function TrimEnd(s: string): string {
    if s != "" && IsWhitespace(s[|s| - 1]) then TrimEnd(s[..|s| - 1]) else s
  }

  function Trim(s: string): string { TrimEnd(TrimStart(s)) }

  predicate IsDigits(s: string) { s != "" && forall i :: 0 <= i < |s| ==> '0' <= s[i] <= '9' }

  function DigitsValue(s: string): nat
    requires forall i :: 0 <= i < |s| ==> '0' <= s[i] <= '9'
  {
    if s == "" then 0 else DigitsValue(s[..|s| - 1]) * 10 + (s[|s| - 1] as int - '0' as int)
  }

  function ParseU64(s: string): Option<nat> {
    var digits := if s != "" && s[0] == '+' then s[1..] else s;
    if IsDigits(digits) && DigitsValue(digits) <= U64_MAX then Some(DigitsValue(digits)) else None
  }

  function ParseI64(s: string): Option<int> {
    if s != "" && s[0] == '-' then
      if IsDigits(s[1..]) && DigitsValue(s[1..]) <= I64_MAX + 1 then
        (var n: int := DigitsValue(s[1..]); Some(-n))
      else None
    else
      var digits := if s != "" && s[0] == '+' then s[1..] else s;
      if IsDigits(digits) && DigitsValue(digits) <= I64_MAX then Some(DigitsValue(digits)) else None
  }

  /** Index of the first `c`, or the length. */
  function IndexOf<T(==)>(s: seq<T>, c: T): (i: nat)
    ensures i <= |s| && (forall k :: 0 <= k < i ==> s[k] != c) && (i < |s| ==> s[i] == c)
  {
    if s == [] || s[0] == c then 0 else 1 + IndexOf(s[1..], c)
  }

  function Join(parts: seq<string>): string {
    if parts == [] then "" else if |parts| == 1 then parts[0] else parts[0] + "\n" + Join(parts[1..])
  }

  // -------------------------------------------------------------------------
  // One line
  // -------------------------------------------------------------------------

  function FieldOf(line: string): (string, string) {
    var k := IndexOf(line, ':');
    if k == |line| then (line, "")
    else
      var value := line[k + 1..];
      (line[..k], if value != "" && value[0] == ' ' then value[1..] else value)
  }

  function WithField(f: Frame, field: string, value: string): Frame {
    if field == "id" then (if '\0' in value then f else f.(id := Some(value)))
    else if field == "event" then f.(event := Some(value))
    else if field == "data" then f.(data := f.data + [value])
    else if field == "retry" then
      (var ms := ParseU64(Trim(value)); if ms.Some? then f.(retry := ms) else f)
    else f
  }

  function Dispatched(f: Frame): SseEvent { SseEvent(f.id, f.event, Join(f.data), f.retry) }

  /** The effect of one line on the frame, and the event it completes, if any. */
  function ReadLine(f: Frame, line: string): (Frame, seq<SseEvent>) {
    if line == "" then (if f.data != [] then (NO_FRAME, [Dispatched(f)]) else (f, []))
    else if line[0] == ':' then (f, [])
    else var (field, value) := FieldOf(line); (WithField(f, field, value), [])
  }

  type Reader = (Frame, string) -> (Frame, seq<SseEvent>)

  /** Fold the lines from the left; the reader of one line is open, so that folding is reasoned about alone. */
  function Fold(read: Reader, f: Frame, lines: seq<string>): (Frame, seq<SseEvent>)
    decreases |lines|
  {
    if lines == [] then (f, [])
    else
      var (f1, e1) := read(f, lines[0]);
      var (f2, e2) := Fold(read, f1, lines[1..]);
      (f2, e1 + e2)
  }

  function ReadLines(f: Frame, lines: seq<string>): (Frame, seq<SseEvent>) { Fold(ReadLine, f, lines) }

  // -------------------------------------------------------------------------
  // The one-shot reading of a byte string
  // -------------------------------------------------------------------------

  function Lines(b: seq<byte>): seq<seq<byte>> {
    var k := IndexOf(b, LF);
    if k == |b| then [] else [b[..k]] + Lines(b[k + 1..])
  }

  /** What follows the last LF. */
  function Rest(b: seq<byte>): seq<byte> {
    if LF in b then Rest(b[1..]) else b
  }

  function StripCr(line: seq<byte>): seq<byte> {
    if line != [] && line[|line| - 1] == CR then line[..|line| - 1] else line
  }

  type Decoder = seq<byte> -> string

  function Texts(decode: Decoder, lines: seq<seq<byte>>): seq<string> {
    seq(|lines|, i requires 0 <= i < |lines| => decode(StripCr(lines[i])))
  }

  datatype State = State(buffer: seq<byte>, frame: Frame)

  const FRESH := State([], NO_FRAME)

  /** Split everything at once on LF, strip one CR, fold the lines. */
  function OneShot(decode: Decoder, s: State, input: seq<byte>): (State, seq<SseEvent>) {
    var all := s.buffer + input;
    var (f, events) := ReadLines(s.frame, Texts(decode, Lines(all)));
    (State(Rest(all), f), events)
  }

  /** Between pushes no complete line is left in the buffer. */
  predicate Settled(s: State) { LF !in s.buffer }

  lemma {:induction false} RestIsSettled(b: seq<byte>)
    ensures LF !in Rest(b)
    ensures LF !in b ==> Lines(b) == [] && Rest(b) == b
  {
    if LF in b { RestIsSettled(b[1..]); }
  }

  lemma {:induction false} RestAppend(a: seq<byte>, b: seq<byte>)
    ensures Rest(a + b) == Rest(Rest(a) + b)
  {
    if LF in a {
      assert (a + b)[1..] == a[1..] + b;
      RestAppend(a[1..], b);
    }
  }

  lemma {:induction false} RestStep(b: seq<byte>, k: nat)
    requires k < |b| && b[k] == LF
    ensures Rest(b) == Rest(b[k + 1..])
  {
    assert b[k] in b;
    if k > 0 {
      RestStep(b[1..], k - 1);
      assert b[1..][k..] == b[k + 1..];
    }
  }

  /** A longer input has the same lines first; the rest of the input completes the buffered part. */
  lemma {:induction false} LinesAppend(a: seq<byte>, b: seq<byte>)
    ensures Lines(a + b) == Lines(a) + Lines(Rest(a) + b)
  {
    var k := IndexOf(a, LF);
    if k < |a| {
      LinesAppend(a[k + 1..], b);
      LinesStep(a, k);
      LinesStepAppend(a, b, k);
      RestStep(a, k);
      Regroup([a[..k]], Lines(a[k + 1..]), Lines(Rest(a) + b));
    } else {
      RestIsSettled(a);
      assert [] + Lines(a + b) == Lines(a + b);
    }
  }

  lemma LinesStepAppend(a: seq<byte>, b: seq<byte>, k: nat)
    requires k < |a| && a[k] == LF && forall i :: 0 <= i < k ==> a[i] != LF
    ensures Lines(a + b) == [a[..k]] + Lines(a[k + 1..] + b)
  {
    LinesStep(a + b, k);
    assert (a + b)[..k] == a[..k] && (a + b)[k + 1..] == a[k + 1..] + b;
  }

  lemma LinesStep(b: seq<byte>, k: nat)
    requires k < |b| && b[k] == LF && forall i :: 0 <= i < k ==> b[i] != LF
    ensures Lines(b) == [b[..k]] + Lines(b[k + 1..])
  {
    FirstLf(b, k);
  }

  lemma TextsCons(decode: Decoder, line: seq<byte>, later: seq<seq<byte>>)
    ensures Texts(decode, [line] + later) == [decode(StripCr(line))] + Texts(decode, later)
  {
  }

  lemma TextsAppend(decode: Decoder, a: seq<seq<byte>>, b: seq<seq<byte>>)
    ensures Texts(decode, a + b) == Texts(decode, a) + Texts(decode, b)
  {
  }

  lemma {:induction false} FirstLf(b: seq<byte>, k: nat)
    requires k < |b| && b[k] == LF && forall i :: 0 <= i < k ==> b[i] != LF
    ensures IndexOf(b, LF) == k
  {
  }

  lemma {:induction false} FoldAppend(read: Reader, f: Frame, a: seq<string>, b: seq<string>)
    ensures var (f1, e1) := Fold(read, f, a);
            var (f2, e2) := Fold(read, f1, b);
            Fold(read, f, a + b) == (f2, e1 + e2)
    decreases |a|
  {
    if a == [] {
      assert a + b == b;
      assert [] + Fold(read, f, b).1 == Fold(read, f, b).1;
    } else {
      assert (a + b)[1..] == a[1..] + b;
      var (f0, x) := read(f, a[0]);
      FoldAppend(read, f0, a[1..], b);
      var (f1, y) := Fold(read, f0, a[1..]);
      var (_, z) := Fold(read, f1, b);
      assert x + (y + z) == (x + y) + z;
    }
  }

  lemma FoldFirst(read: Reader, f: Frame, line: string, rest: seq<string>)
    ensures var (f1, e1) := read(f, line);
            var (f2, e2) := Fold(read, f1, rest);
            Fold(read, f, [line] + rest) == (f2, e1 + e2)
    ensures Fold(read, f, [line]) == read(f, line)
  {
    assert ([line] + rest)[1..] == rest;
    assert [line][1..] == [];
    var (f1, e1) := read(f, line);
    assert e1 + [] == e1;
  }

  lemma ReadLinesAppend(f: Frame, a: seq<string>, b: seq<string>)
    ensures var (f1, e1) := ReadLines(f, a);
            var (f2, e2) := ReadLines(f1, b);
            ReadLines(f, a + b) == (f2, e1 + e2)
  {
    FoldAppend(ReadLine, f, a, b);
  }

  lemma ReadFirst(f: Frame, line: string, rest: seq<string>)
    ensures var (f1, e1) := ReadLine(f, line);
            var (f2, e2) := ReadLines(f1, rest);
            ReadLines(f, [line] + rest) == (f2, e1 + e2)
    ensures ReadLines(f, [line]) == ReadLine(f, line)
  {
    FoldFirst(ReadLine, f, line, rest);
  }

  lemma TextsOfBoth(decode: Decoder, a: seq<byte>, b: seq<byte>)
    ensures Texts(decode, Lines(a + b)) == Texts(decode, Lines(a)) + Texts(decode, Lines(Rest(a) + b))
  {
    LinesAppend(a, b);
    TextsAppend(decode, Lines(a), Lines(Rest(a) + b));
  }

  /** Reading in two pieces is reading at once. */
  lemma OneShotAppend(decode: Decoder, s: State, a: seq<byte>, b: seq<byte>)
    ensures var (s1, e1) := OneShot(decode, s, a);
            var (s2, e2) := OneShot(decode, s1, b);
            OneShot(decode, s, a + b) == (s2, e1 + e2)
  {
    var whole := s.buffer + a;
    Regroup(s.buffer, a, b);
    TextsOfBoth(decode, whole, b);
    RestAppend(whole, b);
    ReadLinesAppend(s.frame, Texts(decode, Lines(whole)), Texts(decode, Lines(Rest(whole) + b)));
  }

  lemma NothingRead(decode: Decoder, s: State)
    requires Settled(s)
    ensures OneShot(decode, s, []) == (s, [])
  {
    RestIsSettled(s.buffer);
    assert s.buffer + [] == s.buffer;
  }

  /** Push after push. */
  function ReadChunks(decode: Decoder, s: State, chunks: seq<seq<byte>>): (State, seq<SseEvent>)
    decreases |chunks|
  {
    if chunks == [] then (s, [])
    else
      var (s1, e1) := ReadChunks(decode, s, chunks[..|chunks| - 1]);
      var (s2, e2) := OneShot(decode, s1, chunks[|chunks| - 1]);
      (s2, e1 + e2)
  }

  /** However the bytes are cut, the events and the state are those of the whole string. */
  lemma {:induction false} ChunkingIrrelevant(decode: Decoder, s: State, chunks: seq<seq<byte>>)
    requires Settled(s)
    ensures ReadChunks(decode, s, chunks) == OneShot(decode, s, Flatten(chunks))
    ensures Settled(ReadChunks(decode, s, chunks).0)
    decreases |chunks|
  {
    if chunks == [] {
      NothingRead(decode, s);
    } else {
      var front := chunks[..|chunks| - 1];
      ChunkingIrrelevant(decode, s, front);
      OneShotAppend(decode, s, Flatten(front), chunks[|chunks| - 1]);
      RestIsSettled(ReadChunks(decode, s, front).0.buffer + chunks[|chunks| - 1]);
    }
  }

  /** Two cuttings of the same bytes are indistinguishable. */
  lemma CuttingsAgree(decode: Decoder, a: seq<seq<byte>>, b: seq<seq<byte>>)
    requires Flatten(a) == Flatten(b)
    ensures ReadChunks(decode, FRESH, a) == ReadChunks(decode, FRESH, b)
  {
    ChunkingIrrelevant(decode, FRESH, a);
    ChunkingIrrelevant(decode, FRESH, b);
  }

  // -------------------------------------------------------------------------
  // The incremental parser
  // -------------------------------------------------------------------------

  class Parser {
    const decode: Decoder
    var buffer: seq<byte>
    var frame: Frame

    function Now(): State
      reads this
    {
      State(buffer, frame)
    }

    constructor (decode: Decoder)
      ensures this.decode == decode && Now() == FRESH && Settled(Now())
    {
      this.decode, buffer, frame := decode, [], NO_FRAME;
    }

    method PushBytes(chunk: seq<byte>) returns (events: seq<SseEvent>)
      modifies this
      ensures (Now(), events) == OneShot(decode, old(Now()), chunk)
      ensures Settled(Now())
    {
      buffer := buffer + chunk;
      events := [];
      ghost var s := Now();
      NoLinesYet(ReadLine, decode, s);
      while LF in buffer
        invariant Unread(ReadLine, decode, s, Now(), events)
        decreases |buffer|
      {
        var newline := IndexOf(buffer, LF);
        OneLineRead(ReadLine, decode, s, Now(), events);
        var line := StripCr(buffer[..newline]);
        buffer := buffer[newline + 1..];
        var out := Line(decode(line));
        events := events + out;
      }
      RestIsSettled(buffer);
      assert Texts(decode, Lines(buffer)) == [];
      assert events + [] == events;
    }

    method Line(line: string) returns (out: seq<SseEvent>)
      modifies this`frame
      ensures (frame, out) == ReadLine(old(frame), line)
    {
      out := [];
      if line == "" {
        if frame.data != [] {
          out := [Dispatched(frame)];
          frame := NO_FRAME;
        }
        return;
      }
      if line[0] == ':' {
        return;
      }
      var (field, value) := FieldOf(line);
      if field == "id" {
        if '\0' !in value {
          frame := frame.(id := Some(value));
        }
      } else if field == "event" {
        frame := frame.(event := Some(value));
      } else if field == "data" {
        frame := frame.(data := frame.data + [value]);
      } else if field == "retry" {
        var ms := ParseU64(Trim(value));
        if ms.Some? {
          frame := frame.(retry := ms);
        }
      }
    }
  }

  /** The loop state: reading what is left of the buffer completes the reading of `s`. */
  ghost predicate Unread(read: Reader, decode: Decoder, s: State, now: State, events: seq<SseEvent>) {
    var ahead := Fold(read, now.frame, Texts(decode, Lines(now.buffer)));
    var all := Fold(read, s.frame, Texts(decode, Lines(s.buffer)));
    Rest(now.buffer) == Rest(s.buffer) && all.0 == ahead.0 && all.1 == events + ahead.1
  }

  lemma NoLinesYet(read: Reader, decode: Decoder, s: State)
    ensures Unread(read, decode, s, s, [])
  {
    var all := Fold(read, s.frame, Texts(decode, Lines(s.buffer)));
    assert [] + all.1 == all.1;
  }

  lemma OneLineRead(read: Reader, decode: Decoder, s: State, now: State, events: seq<SseEvent>)
    requires Unread(read, decode, s, now, events) && LF in now.buffer
    ensures var k := IndexOf(now.buffer, LF);
            && k < |now.buffer|
            && var one := read(now.frame, decode(StripCr(now.buffer[..k])));
               Unread(read, decode, s, State(now.buffer[k + 1..], one.0), events + one.1)
  {
    var k := IndexOf(now.buffer, LF);
    LinesStep(now.buffer, k);
    RestStep(now.buffer, k);
    FoldTexts(read, decode, now.frame, now.buffer[..k], Lines(now.buffer[k + 1..]));
    var one := read(now.frame, decode(StripCr(now.buffer[..k])));
    var ahead := Fold(read, one.0, Texts(decode, Lines(now.buffer[k + 1..])));
    assert events + (one.1 + ahead.1) == events + one.1 + ahead.1;
  }

  lemma FoldTexts(read: Reader, decode: Decoder, f: Frame, line: seq<byte>, later: seq<seq<byte>>)
    ensures var one := read(f, decode(StripCr(line)));
            var ahead := Fold(read, one.0, Texts(decode, later));
            Fold(read, f, Texts(decode, [line] + later)) == (ahead.0, one.1 + ahead.1)
  {
    TextsCons(decode, line, later);
    FoldFirst(read, f, decode(StripCr(line)), Texts(decode, later));
  }

  // -------------------------------------------------------------------------
  // What the daemon writes is what the client reads
  // -------------------------------------------------------------------------

  /**
   What the daemon sends: an event of which the id is optional, a comment (the heartbeat),
   or, in place of an event it cannot encode, a comment that still has the event's id.
   */
  datatype Sent =
    | Event(id: Option<string>, event: string, payload: string)
    | Comment(text: string)
    | Dropped(text: string, lostId: string)

  /** The payload cut at its newlines; a payload without one is one line. */
  function PayloadLines(payload: string): (lines: seq<string>)
    ensures lines != []
  {
    var k := IndexOf(payload, '\n');
    if k == |payload| then [payload] else [payload[..k]] + PayloadLines(payload[k + 1..])
  }

  lemma {:induction false} PayloadLinesAreLines(payload: string)
    requires '\r' !in payload
    ensures forall i :: 0 <= i < |PayloadLines(payload)| ==> OneLine(PayloadLines(payload)[i])
  {
    var k := IndexOf(payload, '\n');
    if k < |payload| { PayloadLinesAreLines(payload[k + 1..]); }
  }

  /** Joining undoes the cut. */
  lemma {:induction false} JoinedPayload(payload: string)
    ensures Join(PayloadLines(payload)) == payload
  {
    var k := IndexOf(payload, '\n');
    if k == |payload| {
      assert PayloadLines(payload) == [payload];
    } else {
      var head, tail := payload[..k], PayloadLines(payload[k + 1..]);
      JoinedPayload(payload[k + 1..]);
      assert ([head] + tail)[1..] == tail;
      assert payload == head + "\n" + payload[k + 1..];
    }
  }

  /** And cutting undoes the join: the lines that were sent can be read off the data that arrives. */
  lemma {:induction false} CutOfJoin(parts: seq<string>)
    requires parts != [] && forall i :: 0 <= i < |parts| ==> '\n' !in parts[i]
    ensures PayloadLines(Join(parts)) == parts
  {
    if |parts| == 1 {
      assert IndexOf(parts[0], '\n') == |parts[0]|;
    } else {
      var all, k := Join(parts), |parts[0]|;
      CutOfJoin(parts[1..]);
      assert all == parts[0] + "\n" + Join(parts[1..]);
      assert forall i :: 0 <= i < k ==> all[i] == parts[0][i];
      FirstNewline(all, k);
      assert all[..k] == parts[0] && all[k + 1..] == Join(parts[1..]);
      assert parts == [parts[0]] + parts[1..];
    }
  }

  lemma {:induction false} FirstNewline(s: string, k: nat)
    requires k < |s| && s[k] == '\n' && forall i :: 0 <= i < k ==> s[i] != '\n'
    ensures IndexOf(s, '\n') == k
  {
  }

  function DataLines(data: seq<string>): seq<string> {
    if data == [] then [] else ["data: " + data[0]] + DataLines(data[1..])
  }

  function IdLines(id: Option<string>): seq<string> { if id.Some? then ["id: " + id.value] else [] }

  /** As the event stream format spells it, one field per line, ended by a blank line. */
  function Spelled(s: Sent): seq<string> {
    match s
    case Event(id, event, payload) => ["event: " + event] + DataLines(PayloadLines(payload)) + IdLines(id) + [""]
    case Comment(text) => [": " + text, ""]
    case Dropped(text, id) => [": " + text] + IdLines(Some(id)) + [""]
  }

  /** The event as it was meant. */
  function Meant(s: Sent): seq<SseEvent> {
    match s
    case Event(id, event, payload) => [SseEvent(id, Some(event), payload, None)]
    case _ => []
  }

  /** The event as it arrives: an id that is still pending fills in for a missing one. */
  function Received(pending: Option<string>, s: Sent): seq<SseEvent> {
    match s
    case Event(id, event, payload) => [SseEvent(if id.Some? then id else pending, Some(event), payload, None)]
    case _ => []
  }

  function PendingAfter(pending: Option<string>, s: Sent): Option<string> {
    match s
    case Event(_, _, _) => None
    case Comment(_) => pending
    case Dropped(_, id) => Some(id)
  }

  function Pending(id: Option<string>): Frame { NO_FRAME.(id := id) }

  lemma FieldRoundTrip(name: string, value: string)
    requires ':' !in name
    ensures FieldOf(name + ": " + value) == (name, value)
  {
    var line := name + ": " + value;
    FirstColon(line, |name|);
    assert line[..|name|] == name;
    assert line[|name| + 1..] == " " + value;
  }

  lemma {:induction false} FirstColon(s: string, k: nat)
    requires k < |s| && s[k] == ':' && forall i :: 0 <= i < k ==> s[i] != ':'
    ensures IndexOf(s, ':') == k
  {
  }

  lemma {:induction false} DataLinesRead(f: Frame, data: seq<string>)
    ensures ReadLines(f, DataLines(data)) == (f.(data := f.data + data), [])
    decreases |data|
  {
    if data == [] {
      assert f.data + data == f.data;
    } else {
      FieldRoundTrip("data", data[0]);
      assert "data" + ": " + data[0] == "data: " + data[0];
      var f1 := f.(data := f.data + [data[0]]);
      assert ReadLine(f, "data: " + data[0]) == (f1, []);
      ReadFirst(f, "data: " + data[0], DataLines(data[1..]));
      DataLinesRead(f1, data[1..]);
      assert f.data + data == f1.data + data[1..];
    }
  }

  lemma IdLinesRead(f: Frame, id: Option<string>)
    requires id.Some? ==> '\0' !in id.value
    ensures ReadLines(f, IdLines(id)) == (if id.Some? then f.(id := id) else f, [])
  {
    if id.Some? {
      FieldRoundTrip("id", id.value);
      assert "id" + ": " + id.value == "id: " + id.value;
      ReadFirst(f, "id: " + id.value, []);
    }
  }

  lemma EventLineRead(f: Frame, event: string)
    ensures ReadLines(f, ["event: " + event]) == (f.(event := Some(event)), [])
  {
    FieldRoundTrip("event", event);
    assert "event" + ": " + event == "event: " + event;
    ReadFirst(f, "event: " + event, []);
  }

  lemma CommentRead(f: Frame, text: string)
    ensures ReadLines(f, [": " + text]) == (f, [])
  {
    ReadFirst(f, ": " + text, []);
  }

  lemma BlankRead(pending: Option<string>)
    ensures ReadLines(Pending(pending), [""]) == (Pending(pending), [])
  {
    ReadFirst(Pending(pending), "", []);
  }

  lemma EventRead(pending: Option<string>, id: Option<string>, event: string, payload: string)
    requires id.Some? ==> '\0' !in id.value
    ensures ReadLines(Pending(pending), Spelled(Event(id, event, payload)))
            == (NO_FRAME, Received(pending, Event(id, event, payload)))
  {
    var data := PayloadLines(payload);
    JoinedPayload(payload);
    var first, middle, last := ["event: " + event], DataLines(data), IdLines(id);
    var f0 := Pending(pending);
    var f1 := f0.(event := Some(event));
    var f2 := f1.(data := data);
    var f3 := if id.Some? then f2.(id := id) else f2;
    EventLineRead(f0, event);
    DataLinesRead(f1, data);
    assert [] + data == data;
    IdLinesRead(f2, id);
    ReadFirst(f3, "", []);
    NothingEmitted(f0, first, middle, f1, f2);
    NothingEmitted(f0, first + middle, last, f2, f3);
    ReadLinesAppend(f0, first + middle + last, [""]);
    assert [] + [Dispatched(f3)] == [Dispatched(f3)];
  }

  lemma DroppedRead(pending: Option<string>, text: string, id: string)
    requires '\0' !in id
    ensures ReadLines(Pending(pending), Spelled(Dropped(text, id))) == (Pending(Some(id)), [])
  {
    var first, last := [": " + text], IdLines(Some(id));
    CommentRead(Pending(pending), text);
    IdLinesRead(Pending(pending), Some(id));
    NothingEmitted(Pending(pending), first, last, Pending(pending), Pending(Some(id)));
    BlankRead(Some(id));
    NothingEmitted(Pending(pending), first + last, [""], Pending(Some(id)), Pending(Some(id)));
  }

  predicate HasRightIds(s: Sent) {
    match s
    case Event(id, _, _) => id.Some? ==> '\0' !in id.value
    case Comment(_) => true
    case Dropped(_, id) => '\0' !in id
  }

  /** An event comes back as one event and leaves a fresh parser; a comment may leave an id behind. */
  lemma FrameRoundTrip(pending: Option<string>, s: Sent)
    requires HasRightIds(s)
    ensures ReadLines(Pending(pending), Spelled(s)) == (Pending(PendingAfter(pending, s)), Received(pending, s))
  {
    match s
    case Event(id, event, payload) => EventRead(pending, id, event, payload);
    case Dropped(text, id) => DroppedRead(pending, text, id);
    case Comment(text) =>
      CommentRead(Pending(pending), text);
      BlankRead(pending);
      NothingEmitted(Pending(pending), [": " + text], [""], Pending(pending), Pending(pending));
      assert [": " + text] + [""] == Spelled(s);
  }

  lemma NothingEmitted(f: Frame, a: seq<string>, b: seq<string>, g: Frame, h: Frame)
    requires ReadLines(f, a) == (g, []) && ReadLines(g, b) == (h, [])
    ensures ReadLines(f, a + b) == (h, [])
  {
    ReadLinesAppend(f, a, b);
  }

  // -------------------------------------------------------------------------
  // ... down to the bytes, however they are cut
  // -------------------------------------------------------------------------

  type Encoder = string -> seq<byte>

  predicate OneLine(s: string) { '\n' !in s && '\r' !in s }

  /** A line's bytes hold no line end and decode to the line, as UTF-8 does. */
  ghost predicate LineCodec(encode: Encoder, decode: Decoder) {
    forall s: string :: OneLine(s) ==> LF !in encode(s) && CR !in encode(s) && decode(encode(s)) == s
  }

  predicate Sendable(s: Sent) {
    match s
    case Event(id, event, payload) =>
      && OneLine(event) && '\r' !in payload
      && (id.Some? ==> OneLine(id.value) && '\0' !in id.value)
    case Comment(text) => OneLine(text)
    case Dropped(text, id) => OneLine(text) && OneLine(id) && '\0' !in id
  }

  function Encoded(encode: Encoder, lines: seq<string>): seq<byte> {
    if lines == [] then [] else encode(lines[0]) + [LF] + Encoded(encode, lines[1..])
  }

  function AllSpelled(sent: seq<Sent>): seq<string> {
    if sent == [] then [] else Spelled(sent[0]) + AllSpelled(sent[1..])
  }

  function AllMeant(sent: seq<Sent>): seq<SseEvent> {
    if sent == [] then [] else Meant(sent[0]) + AllMeant(sent[1..])
  }

  function AllReceived(pending: Option<string>, sent: seq<Sent>): seq<SseEvent>
    decreases |sent|
  {
    if sent == [] then []
    else Received(pending, sent[0]) + AllReceived(PendingAfter(pending, sent[0]), sent[1..])
  }

  function LastPending(pending: Option<string>, sent: seq<Sent>): Option<string>
    decreases |sent|
  {
    if sent == [] then pending else LastPending(PendingAfter(pending, sent[0]), sent[1..])
  }

  /** An id is pending when an event without one comes. */
  predicate IdStrays(pending: Option<string>, sent: seq<Sent>)
    decreases |sent|
  {
    sent != [] && (|| (sent[0].Event? && sent[0].id.None? && pending.Some?)
                   || IdStrays(PendingAfter(pending, sent[0]), sent[1..]))
  }

  lemma {:induction false} AllFramesRoundTrip(pending: Option<string>, sent: seq<Sent>)
    requires forall s :: s in sent ==> Sendable(s)
    ensures ReadLines(Pending(pending), AllSpelled(sent))
            == (Pending(LastPending(pending, sent)), AllReceived(pending, sent))
    decreases |sent|
  {
    if sent != [] {
      assert sent[0] in sent;
      FrameRoundTrip(pending, sent[0]);
      AllFramesRoundTrip(PendingAfter(pending, sent[0]), sent[1..]);
      ReadLinesAppend(Pending(pending), Spelled(sent[0]), AllSpelled(sent[1..]));
    }
  }

  /** What arrives is what was meant if and only if no pending id meets an event without one. */
  lemma {:induction false} MeantIff(pending: Option<string>, sent: seq<Sent>)
    ensures AllReceived(pending, sent) == AllMeant(sent) <==> !IdStrays(pending, sent)
    decreases |sent|
  {
    if sent != [] {
      var next, rest := PendingAfter(pending, sent[0]), sent[1..];
      var r, m := Received(pending, sent[0]), Meant(sent[0]);
      MeantIff(next, rest);
      assert |r| == |m|;
      if AllReceived(pending, sent) == AllMeant(sent) {
        assert r == (r + AllReceived(next, rest))[..|r|] && m == (m + AllMeant(rest))[..|m|];
        assert AllReceived(next, rest) == (r + AllReceived(next, rest))[|r|..];
        assert AllMeant(rest) == (m + AllMeant(rest))[|m|..];
      }
    }
  }

  ghost predicate AllOneLine(lines: seq<string>) { forall i :: 0 <= i < |lines| ==> OneLine(lines[i]) }

  lemma {:induction false} DataLinesAreLines(data: seq<string>)
    requires AllOneLine(data)
    ensures AllOneLine(DataLines(data))
  {
    if data != [] { DataLinesAreLines(data[1..]); }
  }

  lemma SpelledAreLines(s: Sent)
    requires Sendable(s)
    ensures AllOneLine(Spelled(s))
  {
    if s.Event? {
      PayloadLinesAreLines(s.payload);
      DataLinesAreLines(PayloadLines(s.payload));
    }
  }

  lemma {:induction false} AllSpelledAreLines(sent: seq<Sent>)
    requires forall s :: s in sent ==> Sendable(s)
    ensures AllOneLine(AllSpelled(sent))
  {
    if sent != [] {
      assert sent[0] in sent;
      SpelledAreLines(sent[0]);
      AllSpelledAreLines(sent[1..]);
    }
  }

  lemma LineOff(line: seq<byte>, later: seq<byte>)
    requires LF !in line
    ensures Lines(line + [LF] + later) == [line] + Lines(later) && Rest(line + [LF] + later) == Rest(later)
  {
    var all, k := line + [LF] + later, |line|;
    assert forall i :: 0 <= i < k ==> all[i] == line[i];
    LinesStep(all, k);
    RestStep(all, k);
    assert all[..k] == line && all[k + 1..] == later;
  }

  lemma {:induction false} EncodedLines(encode: Encoder, decode: Decoder, lines: seq<string>)
    requires LineCodec(encode, decode) && AllOneLine(lines)
    ensures Texts(decode, Lines(Encoded(encode, lines))) == lines && Rest(Encoded(encode, lines)) == []
  {
    if lines != [] {
      var line, later := encode(lines[0]), Encoded(encode, lines[1..]);
      assert OneLine(lines[0]);
      EncodedLines(encode, decode, lines[1..]);
      LineOff(line, later);
      TextsCons(decode, line, Lines(later));
      assert StripCr(line) == line by { assert line != [] ==> line[|line| - 1] in line; }
    }
  }

  /**
   Whatever is sent, in bytes and in any cutting, is received in order, and nothing is left
   over but an id that was still pending.  The events arrive as they were meant if and only
   if every dropped one is followed by an event with its own id, or by none.
   */
  lemma WireRoundTrip(encode: Encoder, decode: Decoder, sent: seq<Sent>, chunks: seq<seq<byte>>)
    requires LineCodec(encode, decode) && forall s :: s in sent ==> Sendable(s)
    requires Flatten(chunks) == Encoded(encode, AllSpelled(sent))
    ensures ReadChunks(decode, FRESH, chunks)
            == (State([], Pending(LastPending(None, sent))), AllReceived(None, sent))
    ensures ReadChunks(decode, FRESH, chunks).1 == AllMeant(sent) <==> !IdStrays(None, sent)
  {
    ChunkingIrrelevant(decode, FRESH, chunks);
    AllSpelledAreLines(sent);
    EncodedLines(encode, decode, AllSpelled(sent));
    AllFramesRoundTrip(None, sent);
    MeantIff(None, sent);
    assert [] + Flatten(chunks) == Flatten(chunks);
  }

  /** Without dropped events everything arrives as it was meant, and the parser is fresh again. */
  lemma {:induction false} NothingDropped(sent: seq<Sent>)
    requires forall s :: s in sent ==> !s.Dropped?
    ensures !IdStrays(None, sent) && LastPending(None, sent) == None
  {
    if sent != [] {
      assert sent[0] in sent;
      NothingDropped(sent[1..]);
    }
  }

  /** A comment line (the heartbeat) may stand anywhere, even inside a frame. */
  lemma CommentsInvisible(f: Frame, a: seq<string>, b: seq<string>, comment: string)
    requires comment != "" && comment[0] == ':'
    ensures ReadLines(f, a + [comment] + b) == ReadLines(f, a + b)
  {
    assert a + [comment] + b == a + ([comment] + b);
    ReadLinesAppend(f, a, [comment] + b);
    ReadLinesAppend(f, a, b);
    assert ([comment] + b)[1..] == b;
    var f1 := ReadLines(f, a).0;
    assert [] + ReadLines(f1, b).1 == ReadLines(f1, b).1;
  }

  // -------------------------------------------------------------------------
  // The resume cursor
  // -------------------------------------------------------------------------

  function CursorOf(e: SseEvent): Option<int> {
    if e.id.Some? then ParseI64(Trim(e.id.value)) else None
  }

  function AdvanceCursor(current: Option<int>, e: SseEvent): Option<int> {
    match CursorOf(e)
    case Some(id) => Some(if current.None? then id else if current.value < id then id else current.value)
    case None => current
  }

  function AdvanceAll(current: Option<int>, events: seq<SseEvent>): Option<int>
    decreases |events|
  {
    if events == [] then current else AdvanceCursor(AdvanceAll(current, events[..|events| - 1]), events[|events| - 1])
  }

  /** The cursor is the greatest of where it started and every id seen. */
  lemma {:induction false} CursorIsMaximum(current: Option<int>, events: seq<SseEvent>)
    ensures var c := AdvanceAll(current, events);
            && (current.Some? ==> c.Some? && current.value <= c.value)
            && (forall e :: e in events && CursorOf(e).Some? ==> c.Some? && CursorOf(e).value <= c.value)
            && (c.Some? ==> c == current || exists e :: e in events && CursorOf(e) == c)
    decreases |events|
  {
    if events != [] {
      var front, last := events[..|events| - 1], events[|events| - 1];
      CursorIsMaximum(current, front);
      assert events == front + [last];
      assert last in events;
      var c := AdvanceAll(current, front);
      if c.Some? && c != current {
        var e :| e in front && CursorOf(e) == c;
        assert e in events;
      }
    }
  }
}
