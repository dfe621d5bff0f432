/** The incremental parser of the realtime event stream and the stream task that feeds it
    (framing of section 9.2 of the WHATWG HTML Living Standard). */
module SseParser {
  import opened Wrappers
  import opened Text

  /** Position of the first blank line `\n\n`, or the length when there is none. */
  function FrameEnd(s: string): (i: nat)
    ensures i <= |s|
    ensures i < |s| ==> i + 1 < |s|
  {
    if |s| < 2 then |s|
    else if s[0] == '\n' && s[1] == '\n' then 0
    else 1 + FrameEnd(s[1..])
  }

  predicate BlankLineAt(s: string, j: nat) {
    j + 1 < |s| && s[j] == '\n' && s[j + 1] == '\n'
  }

  lemma {:induction false} FrameEndIsFirst(s: string, j: nat)
    ensures FrameEnd(s) < |s| ==> BlankLineAt(s, FrameEnd(s))
    ensures j < FrameEnd(s) ==> !BlankLineAt(s, j)
  {
    if |s| >= 2 && !BlankLineAt(s, 0) {
      FrameEndIsFirst(s[1..], if j == 0 then 0 else j - 1);
    }
  }

  /** The first blank line stays the first when text is added behind it. */
  lemma {:induction false} FrameEndAppend(s: string, t: string)
    requires FrameEnd(s) < |s|
    ensures FrameEnd(s + t) == FrameEnd(s)
  {
    if !BlankLineAt(s, 0) {
      assert (s + t)[1..] == s[1..] + t;
      FrameEndAppend(s[1..], t);
    }
  }

  /** The event of one line: the JSON of a `data:` field, when it parses. */
  function LineEvents<V>(parse: string -> Option<V>, line: string): seq<V> {
    if StartsWith(line, "data:")
    then match parse(Trim(line[5..])) case Some(v) => [v] case None => []
    else []
  }

  function LinesEvents<V>(parse: string -> Option<V>, lines: seq<string>): seq<V> {
    if lines == [] then [] else LineEvents(parse, lines[0]) + LinesEvents(parse, lines[1..])
  }

  function FrameEvents<V>(parse: string -> Option<V>, frame: string): seq<V> {
    LinesEvents(parse, Lines(frame))
  }

  /** The events of the complete frames of `text`, and the partial frame behind them.
      `emit` gives the events of one frame. */
  datatype Drained<V> = Drained(events: seq<V>, rest: string)

  function Drain<V>(emit: string -> seq<V>, text: string): Drained<V>
    decreases |text|
  {
    var i := FrameEnd(text);
    if i == |text| then Drained([], text)
    else
      var later := Drain(emit, text[i + 2..]);
      Drained(emit(text[..i]) + later.events, later.rest)
  }

  function Emit<V>(parse: string -> Option<V>): string -> seq<V> {
    frame => FrameEvents(parse, frame)
  }

  lemma {:induction false} LinesEventsAppend<V>(parse: string -> Option<V>, a: seq<string>, b: seq<string>)
    ensures LinesEvents(parse, a + b) == LinesEvents(parse, a) + LinesEvents(parse, b)
  {
    if a == [] {
      assert a + b == b;
    } else {
      assert (a + b)[1..] == a[1..] + b;
      LinesEventsAppend(parse, a[1..], b);
    }
  }

  function Prepend<V>(events: seq<V>, d: Drained<V>): Drained<V> { Drained(events + d.events, d.rest) }

  lemma PrependTwice<V>(a: seq<V>, b: seq<V>, d: Drained<V>)
    ensures Prepend(a, Prepend(b, d)) == Prepend(a + b, d)
  {
    assert a + (b + d.events) == (a + b) + d.events;
  }

  lemma PrependRest<V>(a: seq<V>, d: Drained<V>, whole: Drained<V>, tail: Drained<V>)
    requires whole == Prepend(d.events, tail)
    ensures Prepend(a, whole) == Prepend(Prepend(a, d).events, tail)
    ensures Prepend(a, d).rest == d.rest
  {
    PrependTwice(a, d.events, tail);
  }

  lemma PrependNothing<V>(d: Drained<V>)
    ensures Prepend([], d) == d
  {
  }

  lemma DrainFirst<V>(emit: string -> seq<V>, text: string)
    requires FrameEnd(text) < |text|
    ensures Drain(emit, text) == Prepend(emit(text[..FrameEnd(text)]), Drain(emit, text[FrameEnd(text) + 2..]))
  {
  }

  lemma DrainNext<V>(emit: string -> seq<V>, whole: Drained<V>, events: seq<V>, text: string)
    requires FrameEnd(text) < |text| && whole == Prepend(events, Drain(emit, text))
    ensures whole == Prepend(events + emit(text[..FrameEnd(text)]), Drain(emit, text[FrameEnd(text) + 2..]))
  {
    DrainFirst(emit, text);
    PrependTwice(events, emit(text[..FrameEnd(text)]), Drain(emit, text[FrameEnd(text) + 2..]));
  }

  /** The inner loop over the lines of one frame. */
  method ParseFrame<V>(parse: string -> Option<V>, frame: string) returns (events: seq<V>)
    ensures events == FrameEvents(parse, frame)
  {
    var lines := Lines(frame);
    events := [];
    for k := 0 to |lines|
      invariant events == LinesEvents(parse, lines[..k])
    {
      assert lines[..k + 1] == lines[..k] + [lines[k]];
      LinesEventsAppend(parse, lines[..k], [lines[k]]);
      assert LinesEvents(parse, [lines[k]]) == LineEvents(parse, lines[k]);
      if StartsWith(lines[k], "data:") {
        match parse(Trim(lines[k][5..])) {
          case Some(json) => events := events + [json];
          case None =>
        }
      }
    }
    assert lines[..|lines|] == lines;
  }

  /** `drain_sse_events`: cuts complete frames off the front of the buffer. */
  method DrainSseEvents<V>(parse: string -> Option<V>, buffer: string) returns (events: seq<V>, rest: string)
    ensures Drained(events, rest) == Drain(Emit(parse), buffer)
  {
    events, rest := [], buffer;
    ghost var emit := Emit(parse);
    PrependNothing(Drain(emit, buffer));
    var idx := FrameEnd(rest);
    while idx < |rest|
      invariant idx == FrameEnd(rest)
      invariant Drain(emit, buffer) == Prepend(events, Drain(emit, rest))
      decreases |rest|
    {
      DrainNext(emit, Drain(emit, buffer), events, rest);
      var parsed := ParseFrame(parse, rest[..idx]);
      assert parsed == emit(rest[..idx]);
      events := events + parsed;
      rest := rest[idx + 2..];
      idx := FrameEnd(rest);
    }
  }

  // ---- Chunking

  lemma CutAppended(s: string, t: string, i: nat)
    requires i + 2 <= |s|
    ensures (s + t)[..i] == s[..i]
    ensures (s + t)[i + 2..] == s[i + 2..] + t
  {
  }

  lemma DrainFirstAppended<V>(emit: string -> seq<V>, s: string, t: string)
    requires FrameEnd(s) < |s|
    ensures Drain(emit, s + t) == Prepend(emit(s[..FrameEnd(s)]), Drain(emit, s[FrameEnd(s) + 2..] + t))
  {
    FrameEndAppend(s, t);
    CutAppended(s, t, FrameEnd(s));
    DrainFirst(emit, s + t);
  }

  lemma DrainAppendFrame<V>(emit: string -> seq<V>, s: string, t: string, later: string)
    requires FrameEnd(s) < |s| && later == s[FrameEnd(s) + 2..]
    requires Drain(emit, later + t) == Prepend(Drain(emit, later).events, Drain(emit, Drain(emit, later).rest + t))
    ensures Drain(emit, s + t) == Prepend(Drain(emit, s).events, Drain(emit, Drain(emit, s).rest + t))
  {
    var first, d := emit(s[..FrameEnd(s)]), Drain(emit, later);
    DrainFirst(emit, s);
    DrainFirstAppended(emit, s, t);
    PrependRest(first, d, Drain(emit, later + t), Drain(emit, d.rest + t));
  }

  /** Text that arrives later never changes what was already cut off. */
  lemma {:induction false} DrainAppend<V>(emit: string -> seq<V>, s: string, t: string)
    ensures Drain(emit, s + t) == Prepend(Drain(emit, s).events, Drain(emit, Drain(emit, s).rest + t))
    decreases |s|
  {
    if FrameEnd(s) < |s| {
      var later := s[FrameEnd(s) + 2..];
      DrainAppend(emit, later, t);
      DrainAppendFrame(emit, s, t, later);
    } else {
      PrependNothing(Drain(emit, s + t));
    }
  }

  /** No complete frame stays behind. */
  lemma {:induction false} LeftoverIsPartial<V>(emit: string -> seq<V>, text: string, j: nat)
    ensures !BlankLineAt(Drain(emit, text).rest, j)
    decreases |text|
  {
    if FrameEnd(text) < |text| {
      LeftoverIsPartial(emit, text[FrameEnd(text) + 2..], j);
    } else {
      FrameEndIsFirst(text, j);
    }
  }

  // ---- The stream task

  datatype Emitted<V> = Connected | Payload(json: V) | Disconnected(reason: string)

  function Payloads<V>(events: seq<V>): seq<Emitted<V>> {
    seq(|events|, i requires 0 <= i < |events| => Payload(events[i]))
  }

  /** The text read before the body ends or fails. */
  function TextRead(items: seq<Option<string>>): string {
    if items == [] || items[0].None? then "" else items[0].value + TextRead(items[1..])
  }

  /** Push a chunk, drain, push the next, until the body ends or fails: the events, why the loop
      ended and what the buffer holds then. */
  datatype Fed<V> = Fed(events: seq<V>, reason: string, rest: string)

  function Feed<V>(emit: string -> seq<V>, buffer: string, items: seq<Option<string>>): Fed<V>
    decreases |items|
  {
    if items == [] then Fed([], "stream-ended", buffer)
    else if items[0].None? then Fed([], "stream-error", buffer)
    else
      var d := Drain(emit, buffer + items[0].value);
      var later := Feed(emit, d.rest, items[1..]);
      Fed(d.events + later.events, later.reason, later.rest)
  }

  /** The loop of `cloud_start_realtime` over the response body. */
  method StreamTask<V>(parse: string -> Option<V>, items: seq<Option<string>>) returns (emitted: seq<Emitted<V>>)
    ensures var fed := Feed(Emit(parse), "", items);
      emitted == [Connected] + Payloads(fed.events) + [Disconnected(fed.reason)]
  {
    emitted := [Connected];
    var buffer := "";
    var reason := "stream-ended";
    ghost var fed := Feed(Emit(parse), "", items);
    var k := 0;
    assert items[0..] == items;
    while k < |items|
      invariant 0 <= k <= |items|
      invariant [Connected] + Payloads(fed.events)
             == emitted + Payloads(Feed(Emit(parse), buffer, items[k..]).events)
      invariant fed.reason == Feed(Emit(parse), buffer, items[k..]).reason
      invariant reason == "stream-ended"
    {
      assert items[k..][0] == items[k] && items[k..][1..] == items[k + 1..];
      if items[k].None? {
        reason := "stream-error";
        break;
      }
      var events;
      events, buffer := DrainSseEvents(parse, buffer + items[k].value);
      PayloadsAppend(events, Feed(Emit(parse), buffer, items[k + 1..]).events);
      emitted := emitted + Payloads(events);
      k := k + 1;
    }
    emitted := emitted + [Disconnected(reason)];
  }

  lemma PayloadsAppend<V>(a: seq<V>, b: seq<V>)
    ensures Payloads(a + b) == Payloads(a) + Payloads(b)
  {
  }

  lemma ChunkThenLater<V>(emit: string -> seq<V>, buffer: string, chunk: string, later: string)
    ensures var d := Drain(emit, buffer + chunk);
      Drain(emit, buffer + (chunk + later)) == Prepend(d.events, Drain(emit, d.rest + later))
  {
    assert buffer + (chunk + later) == (buffer + chunk) + later;
    DrainAppend(emit, buffer + chunk, later);
  }

  /** Whatever the chunking, the events and the leftover are those of one drain of the whole text. */
  lemma {:induction false} FeedIsBatch<V>(emit: string -> seq<V>, buffer: string, items: seq<Option<string>>)
    requires FrameEnd(buffer) == |buffer|
    ensures var fed := Feed(emit, buffer, items);
      Drained(fed.events, fed.rest) == Drain(emit, buffer + TextRead(items))
    decreases |items|
  {
    if items == [] || items[0].None? {
      assert buffer + "" == buffer;
    } else {
      var rest := Drain(emit, buffer + items[0].value).rest;
      DrainRestPartial(emit, buffer + items[0].value);
      FeedIsBatch(emit, rest, items[1..]);
      ChunkThenLater(emit, buffer, items[0].value, TextRead(items[1..]));
    }
  }

  lemma {:induction false} FeedReason<V>(emit: string -> seq<V>, buffer: string, items: seq<Option<string>>)
    ensures Feed(emit, buffer, items).reason == "stream-error" <==> None in items
    ensures Feed(emit, buffer, items).reason == "stream-ended" <==> None !in items
    decreases |items|
  {
    if items != [] && items[0].Some? {
      FeedReason(emit, Drain(emit, buffer + items[0].value).rest, items[1..]);
      assert items == [items[0]] + items[1..];
    }
  }

  lemma {:induction false} DrainRestPartial<V>(emit: string -> seq<V>, text: string)
    ensures FrameEnd(Drain(emit, text).rest) == |Drain(emit, text).rest|
    decreases |text|
  {
    if FrameEnd(text) < |text| { DrainRestPartial(emit, text[FrameEnd(text) + 2..]); }
  }

  // ---- What the server writes

  datatype Frame = Event(name: string, data: seq<string>) | Comment(text: string)

  predicate OneLine(s: string) { '\n' !in s && '\r' !in s }

  /** A field value holds no line break; a payload is the list of its lines. */
  predicate Sendable(f: Frame) {
    match f
    case Event(name, data) => OneLine(name) && forall d :: d in data ==> OneLine(d)
    case Comment(text) => OneLine(text)
  }

  function DataFields(data: seq<string>): seq<string> {
    if data == [] then [] else ["data: " + data[0]] + DataFields(data[1..])
  }

  function FieldLines(f: Frame): seq<string> {
    match f
    case Event(name, data) => ["event: " + name] + DataFields(data)
    case Comment(text) => [": " + text]
  }

  function Join(lines: seq<string>): string
    requires lines != []
  {
    if |lines| == 1 then lines[0] else lines[0] + "\n" + Join(lines[1..])
  }

  /** Every field on a line of its own, then a blank line. */
  function Render(f: Frame): string { Join(FieldLines(f)) + "\n\n" }

  function RenderAll(frames: seq<Frame>): string {
    if frames == [] then "" else Render(frames[0]) + RenderAll(frames[1..])
  }

  /** The payload lines of a frame that parse. A payload of one line is one event. */
  function Sent<V>(parse: string -> Option<V>, data: seq<string>): seq<V> {
    if data == [] then []
    else (match parse(Trim(data[0])) case Some(v) => [v] case None => []) + Sent(parse, data[1..])
  }

  function FrameSent<V>(parse: string -> Option<V>, f: Frame): seq<V> {
    if f.Event? then Sent(parse, f.data) else []
  }

  function SentAll<V>(parse: string -> Option<V>, frames: seq<Frame>): seq<V> {
    if frames == [] then [] else FrameSent(parse, frames[0]) + SentAll(parse, frames[1..])
  }

  ghost predicate FieldLine(line: string) { line != "" && OneLine(line) }

  lemma {:induction false} FrameEndSkipLine(line: string, tail: string)
    requires '\n' !in line && tail != "" && tail[0] != '\n'
    ensures FrameEnd(line + "\n" + tail) == |line| + 1 + FrameEnd(tail)
  {
    var whole := line + "\n" + tail;
    if line == "" {
      assert whole[1..] == tail;
    } else {
      assert whole[1..] == line[1..] + "\n" + tail;
      assert whole[0] == line[0] && line[0] in line;
      FrameEndSkipLine(line[1..], tail);
    }
  }

  lemma {:induction false} FrameEndOfLine(line: string)
    requires '\n' !in line
    ensures FrameEnd(line + "\n\n") == |line|
  {
    var whole := line + "\n\n";
    if line != "" {
      assert whole[1..] == line[1..] + "\n\n";
      assert whole[0] == line[0] && line[0] in line;
      FrameEndOfLine(line[1..]);
    }
  }

  lemma JoinFirst(lines: seq<string>)
    requires |lines| > 1
    ensures Join(lines) == lines[0] + "\n" + Join(lines[1..])
  {
  }

  lemma JoinStart(lines: seq<string>)
    requires lines != [] && FieldLine(lines[0])
    ensures Join(lines) != "" && Join(lines)[0] == lines[0][0] && Join(lines)[0] != '\n'
  {
    assert lines[0][0] in lines[0];
  }

  lemma {:induction false} JoinedFrameEnd(lines: seq<string>)
    requires lines != [] && forall l :: l in lines ==> FieldLine(l)
    ensures FrameEnd(Join(lines) + "\n\n") == |Join(lines)|
  {
    assert FieldLine(lines[0]);
    if |lines| == 1 {
      FrameEndOfLine(lines[0]);
    } else {
      var tail := Join(lines[1..]) + "\n\n";
      assert lines[1] in lines && lines[1..][0] == lines[1];
      JoinStart(lines[1..]);
      JoinedFrameEnd(lines[1..]);
      FrameEndSkipLine(lines[0], tail);
      JoinFirst(lines);
      assert Join(lines) + "\n\n" == lines[0] + "\n" + tail;
    }
  }

  lemma LinesFirst(line: string, tail: string)
    requires FieldLine(line)
    ensures Lines(line) == [line]
    ensures Lines(line + "\n" + tail) == [line] + Lines(tail)
  {
    IndexOfIs(line, '\n', |line|);
    var whole := line + "\n" + tail;
    assert whole[..|line|] == line && whole[|line| + 1..] == tail;
    IndexOfIs(whole, '\n', |line|);
    assert line[|line| - 1] in line;
    assert StripCr(line) == line;
  }

  lemma {:induction false} JoinedLines(lines: seq<string>)
    requires lines != [] && forall l :: l in lines ==> FieldLine(l)
    ensures Lines(Join(lines)) == lines
  {
    assert FieldLine(lines[0]);
    if |lines| == 1 {
      LinesFirst(lines[0], "");
    } else {
      JoinedLines(lines[1..]);
      LinesFirst(lines[0], Join(lines[1..]));
      JoinFirst(lines);
      assert lines == [lines[0]] + lines[1..];
    }
  }

  lemma TrimDropsLeadingSpace(s: string)
    ensures Trim(" " + s) == Trim(s)
  {
    assert (" " + s)[1..] == s;
  }

  lemma DataLineEvents<V>(parse: string -> Option<V>, d: string)
    ensures LineEvents(parse, "data: " + d) == (match parse(Trim(d)) case Some(v) => [v] case None => [])
  {
    var line := "data: " + d;
    assert line[..5] == "data:" && line[5..] == " " + d;
    TrimDropsLeadingSpace(d);
  }

  lemma {:induction false} DataFieldEvents<V>(parse: string -> Option<V>, data: seq<string>)
    ensures LinesEvents(parse, DataFields(data)) == Sent(parse, data)
  {
    if data != [] {
      DataLineEvents(parse, data[0]);
      assert DataFields(data)[1..] == DataFields(data[1..]);
      DataFieldEvents(parse, data[1..]);
    }
  }

  lemma {:induction false} DataFieldLines(data: seq<string>)
    requires forall d :: d in data ==> OneLine(d)
    ensures forall l :: l in DataFields(data) ==> FieldLine(l)
  {
    if data != [] {
      assert OneLine(data[0]);
      DataFieldLines(data[1..]);
    }
  }

  lemma FrameParts<V>(parse: string -> Option<V>, f: Frame)
    requires Sendable(f)
    ensures forall l :: l in FieldLines(f) ==> FieldLine(l)
    ensures LinesEvents(parse, FieldLines(f)) == FrameSent(parse, f)
  {
    var first := FieldLines(f)[0];
    assert first[0] != 'd';
    assert LineEvents(parse, first) == [];
    if f.Event? {
      DataFieldLines(f.data);
      DataFieldEvents(parse, f.data);
      assert FieldLines(f)[1..] == DataFields(f.data);
    }
  }

  /** One server frame at the front of the buffer is cut off whole and yields its payload. */
  lemma FrontFrame<V>(parse: string -> Option<V>, f: Frame, rest: string)
    requires Sendable(f)
    ensures FrameEnd(Render(f)) == |Render(f)| - 2
    ensures Drain(Emit(parse), Render(f) + rest) == Prepend(FrameSent(parse, f), Drain(Emit(parse), rest))
  {
    FrameParts(parse, f);
    var body := Join(FieldLines(f));
    JoinedFrameEnd(FieldLines(f));
    JoinedLines(FieldLines(f));
    FrameEndAppend(Render(f), rest);
    DrainFirst(Emit(parse), Render(f) + rest);
    assert (Render(f) + rest)[..|body|] == body;
    assert (Render(f) + rest)[|body| + 2..] == rest;
  }

  /** The number of whole frames in the first `n` characters of the rendered stream. */
  function WholeFrames(frames: seq<Frame>, n: nat): (k: nat)
    ensures k <= |frames|
  {
    if frames == [] || n < |Render(frames[0])| then 0
    else 1 + WholeFrames(frames[1..], n - |Render(frames[0])|)
  }

  lemma PartialFrame<V>(parse: string -> Option<V>, f: Frame, n: nat)
    requires Sendable(f) && n < |Render(f)|
    ensures Drain(Emit(parse), Render(f)[..n]) == Drained([], Render(f)[..n])
  {
    FrontFrame(parse, f, "");
    var part := Render(f)[..n];
    if FrameEnd(part) < |part| {
      FrameEndIsFirst(part, 0);
      FrameEndIsFirst(Render(f), FrameEnd(part));
      assert BlankLineAt(Render(f), FrameEnd(part));
    }
  }

  /** `rest` is the part that arrived of the frame behind the first `k`. */
  predicate IsPartial(frames: seq<Frame>, k: nat, rest: string, text: string)
    requires k <= |frames|
  {
    && RenderAll(frames[..k]) + rest == text
    && (if k == |frames| then rest == "" else |rest| < |Render(frames[k])| && rest <= Render(frames[k]))
  }

  lemma SentPrefix<V>(parse: string -> Option<V>, frames: seq<Frame>, k: nat)
    requires frames != [] && k < |frames|
    ensures SentAll(parse, frames[..k + 1]) == FrameSent(parse, frames[0]) + SentAll(parse, frames[1..][..k])
  {
    assert frames[..k + 1][1..] == frames[1..][..k];
  }

  /** The outcome of draining `text`, cut off the rendered frames in or behind the first `k`. */
  ghost predicate Delivers<V>(parse: string -> Option<V>, frames: seq<Frame>, k: nat, d: Drained<V>, text: string)
    requires k <= |frames|
  {
    d.events == SentAll(parse, frames[..k]) && IsPartial(frames, k, d.rest, text)
  }

  lemma PartialBehind(frames: seq<Frame>, k: nat, rest: string, text: string)
    requires frames != [] && k < |frames| && IsPartial(frames[1..], k, rest, text)
    ensures IsPartial(frames, k + 1, rest, Render(frames[0]) + text)
  {
    assert frames[..k + 1][1..] == frames[1..][..k];
    assert Render(frames[0]) + RenderAll(frames[1..][..k]) + rest == Render(frames[0]) + (RenderAll(frames[1..][..k]) + rest);
  }

  lemma DeliversBehind<V>(parse: string -> Option<V>, frames: seq<Frame>, k: nat, d: Drained<V>, text: string)
    requires frames != [] && k < |frames| && Delivers(parse, frames[1..], k, d, text)
    ensures Delivers(parse, frames, k + 1, Prepend(FrameSent(parse, frames[0]), d), Render(frames[0]) + text)
  {
    SentPrefix(parse, frames, k);
    PartialBehind(frames, k, d.rest, text);
  }

  lemma DeliversFront<V>(parse: string -> Option<V>, frames: seq<Frame>, k: nat, text: string, tail: string)
    requires frames != [] && k < |frames| && Sendable(frames[0]) && text == Render(frames[0]) + tail
    requires Delivers(parse, frames[1..], k, Drain(Emit(parse), tail), tail)
    ensures Delivers(parse, frames, k + 1, Drain(Emit(parse), text), text)
  {
    var d := Drain(Emit(parse), tail);
    FrontFrame(parse, frames[0], tail);
    DeliversBehind(parse, frames, k, d, tail);
    assert Drain(Emit(parse), text) == Prepend(FrameSent(parse, frames[0]), d);
  }

  lemma WholeFramesBehind(frames: seq<Frame>, n: nat)
    requires frames != []
    ensures WholeFrames(frames, |Render(frames[0])| + n) == 1 + WholeFrames(frames[1..], n)
    ensures forall m :: 0 <= m < |Render(frames[0])| ==> WholeFrames(frames, m) == 0
  {
  }

  lemma DeliversNone<V>(parse: string -> Option<V>, frames: seq<Frame>, text: string)
    requires forall f :: f in frames ==> Sendable(f)
    requires if frames == [] then text == "" else text <= Render(frames[0]) && |text| < |Render(frames[0])|
    ensures Delivers(parse, frames, 0, Drain(Emit(parse), text), text)
  {
    assert "" + text == text;
    if frames != [] {
      assert text == Render(frames[0])[..|text|];
      PartialFrame(parse, frames[0], |text|);
    }
  }

  lemma PrefixSplit(text: string, a: string, b: string)
    requires text <= a + b
    ensures if |text| < |a| then text <= a else text == a + text[|a|..] && text[|a|..] <= b
  {
    if |text| >= |a| {
      assert text == (a + b)[..|text|];
      assert text[..|a|] == a;
      assert text[|a|..] == b[..|text| - |a|];
    } else {
      assert text == a[..|text|];
    }
  }

  /** Cut anywhere, the stream delivers exactly the payloads of the frames that arrived whole, in
      order, and keeps back exactly what arrived of the next one. */
  lemma {:induction false} PrefixDelivers<V>(parse: string -> Option<V>, frames: seq<Frame>, text: string)
    requires forall f :: f in frames ==> Sendable(f)
    requires text <= RenderAll(frames)
    ensures Delivers(parse, frames, WholeFrames(frames, |text|), Drain(Emit(parse), text), text)
  {
    if frames == [] {
      DeliversNone(parse, frames, text);
    } else {
      var size := |Render(frames[0])|;
      PrefixSplit(text, Render(frames[0]), RenderAll(frames[1..]));
      WholeFramesBehind(frames, if |text| < size then 0 else |text| - size);
      if |text| < size {
        DeliversNone(parse, frames, text);
      } else {
        var tail := text[size..];
        PrefixDelivers(parse, frames[1..], tail);
        DeliversFront(parse, frames, WholeFrames(frames[1..], |tail|), text, tail);
      }
    }
  }

  lemma {:induction false} AllFramesWhole(frames: seq<Frame>)
    ensures WholeFrames(frames, |RenderAll(frames)|) == |frames|
  {
    if frames != [] { AllFramesWhole(frames[1..]); }
  }

  /** The server's stream, split by the network into any chunks and cut off or failing anywhere:
      the stream task emits the payloads of the whole frames, in order, and its buffer keeps what arrived
      of the next one. */
  lemma StreamDelivers<V>(parse: string -> Option<V>, frames: seq<Frame>, items: seq<Option<string>>)
    requires forall f :: f in frames ==> Sendable(f)
    requires TextRead(items) <= RenderAll(frames)
    ensures var fed := Feed(Emit(parse), "", items);
      var text := TextRead(items);
      Delivers(parse, frames, WholeFrames(frames, |text|), Drained(fed.events, fed.rest), text)
  {
    PrefixDelivers(parse, frames, TextRead(items));
    FeedIsBatch(Emit(parse), "", items);
    assert "" + TextRead(items) == TextRead(items);
  }

  /** When nothing was cut, all payloads arrive and nothing is left over. */
  lemma WholeStreamDelivers<V>(parse: string -> Option<V>, frames: seq<Frame>, items: seq<Option<string>>)
    requires forall f :: f in frames ==> Sendable(f)
    requires TextRead(items) == RenderAll(frames)
    ensures var fed := Feed(Emit(parse), "", items);
      fed.events == SentAll(parse, frames) && fed.rest == ""
  {
    AllFramesWhole(frames);
    StreamDelivers(parse, frames, items);
    assert frames[..|frames|] == frames;
  }

  // ---- The standard's dispatch

  /** Whether the field name of a line, up to its first colon, is `data`. */
  predicate IsDataField(line: string) { line == "data" || StartsWith(line, "data:") }

  /** The value of a `data` line: one space behind the colon is dropped. */
  function FieldValue(line: string): string
    requires IsDataField(line)
  {
    if line == "data" then "" else if StartsWith(line, "data: ") then line[6..] else line[5..]
  }

  /** The data buffer after the lines of a block: each `data` value and a newline. */
  function DataBuffer(lines: seq<string>): string {
    if lines == [] then ""
    else (if IsDataField(lines[0]) then FieldValue(lines[0]) + "\n" else "") + DataBuffer(lines[1..])
  }

  /** What a block dispatches: nothing for an empty buffer, else the buffer without its last newline. */
  function Dispatched(lines: seq<string>): Option<string> {
    var buffer := DataBuffer(lines);
    if buffer == "" then None else Some(buffer[..|buffer| - 1])
  }

  /** The events of a client that follows the standard and parses the payload as a whole. */
  function StandardSent<V>(parse: string -> Option<V>, f: Frame): seq<V> {
    match Dispatched(FieldLines(f))
    case None => []
    case Some(payload) => (match parse(Trim(payload)) case Some(v) => [v] case None => [])
  }

  function StandardSentAll<V>(parse: string -> Option<V>, frames: seq<Frame>): seq<V> {
    if frames == [] then [] else StandardSent(parse, frames[0]) + StandardSentAll(parse, frames[1..])
  }

  lemma DataFieldValue(d: string)
    ensures IsDataField("data: " + d) && FieldValue("data: " + d) == d
  {
    var line := "data: " + d;
    assert line[..5] == "data:" && line[..6] == "data: " && line[6..] == d;
  }

  lemma {:induction false} DataFieldsBuffer(data: seq<string>)
    ensures DataBuffer(DataFields(data)) == if data == [] then "" else Join(data) + "\n"
  {
    if data != [] {
      DataFieldValue(data[0]);
      DataFieldsBuffer(data[1..]);
      assert DataFields(data)[1..] == DataFields(data[1..]);
      if |data| > 1 {
        JoinFirst(data);
        assert data[0] + "\n" + (Join(data[1..]) + "\n") == Join(data) + "\n";
      }
    }
  }

  lemma NotDataFields(text: string)
    ensures !IsDataField(": " + text) && !IsDataField("event: " + text)
  {
    assert (": " + text)[0] == ':' && ("event: " + text)[0] == 'e';
  }

  lemma BufferBehind(line: string, lines: seq<string>)
    requires !IsDataField(line)
    ensures DataBuffer([line] + lines) == DataBuffer(lines)
  {
    assert ([line] + lines)[1..] == lines;
    assert "" + DataBuffer(lines) == DataBuffer(lines);
  }

  /** Of a server frame the standard dispatches the data lines, joined. */
  lemma FrameDispatches(f: Frame)
    ensures Dispatched(FieldLines(f)) == if f.Comment? || f.data == [] then None else Some(Join(f.data))
  {
    match f
    case Comment(text) =>
      NotDataFields(text);
      BufferBehind(": " + text, []);
      assert [": " + text] + [] == FieldLines(f);
    case Event(name, data) =>
      NotDataFields(name);
      BufferBehind("event: " + name, DataFields(data));
      DataFieldsBuffer(data);
      if data != [] {
        assert (Join(data) + "\n")[..|Join(data)|] == Join(data);
      }
  }

  predicate OneDataLine(f: Frame) { f.Comment? || |f.data| <= 1 }

  /** A frame of at most one data line means to the client what it means by the standard. */
  lemma OneLineAgrees<V>(parse: string -> Option<V>, f: Frame)
    requires OneDataLine(f)
    ensures FrameSent(parse, f) == StandardSent(parse, f)
  {
    FrameDispatches(f);
    if f.Event? && f.data != [] {
      assert f.data[1..] == [];
      assert Sent(parse, f.data[1..]) == [];
    }
  }

  ghost predicate AlwaysAgrees(f: Frame) {
    forall parse: string -> Option<int> :: FrameSent(parse, f) == StandardSent(parse, f)
  }

  /** The client agrees with the standard whatever the payloads parse to, if and only if the
      frame has at most one data line. */
  lemma AgreesWithStandardIff(f: Frame)
    ensures AlwaysAgrees(f) <==> OneDataLine(f)
  {
    if OneDataLine(f) {
      forall parse: string -> Option<int> ensures FrameSent(parse, f) == StandardSent(parse, f) {
        OneLineAgrees(parse, f);
      }
    } else {
      ManyLinesDiffer(f, _ => Some(0));
    }
  }

  lemma ManyLinesDiffer<V>(f: Frame, parse: string -> Option<V>)
    requires !OneDataLine(f) && forall s :: parse(s).Some?
    ensures FrameSent(parse, f) != StandardSent(parse, f)
  {
    SentLength(parse, f.data);
    assert |StandardSent(parse, f)| <= 1;
  }

  lemma {:induction false} SentLength<V>(parse: string -> Option<V>, data: seq<string>)
    requires forall s :: parse(s).Some?
    ensures |Sent(parse, data)| == |data|
  {
    if data != [] { SentLength(parse, data[1..]); }
  }

  /** A payload printed on two lines parses as a whole but not by line: the client delivers nothing. */
  lemma TwoLinePayloadIsLost()
    ensures var f := Event("message", ["[1,", "2]"]);
      var parse := (s: string) => if s == "[1,\n2]" then Some(12) else None;
      FrameSent(parse, f) == [] && StandardSent(parse, f) == [12]
  {
    var data := ["[1,", "2]"];
    FrameDispatches(Event("message", data));
    JoinFirst(data);
    assert data[1..] == ["2]"] && data[1..][1..] == [];
    assert Join(data) == "[1,\n2]";
    var payload := "[1,\n2]";
    assert TrimStart(payload) == payload && TrimEnd(payload) == payload;
    assert Trim("[1,") == "[1," && Trim("2]") == "2]";
  }

  /** Over a stream of one-line payloads the two agree. */
  lemma {:induction false} StreamAgrees<V>(parse: string -> Option<V>, frames: seq<Frame>)
    requires forall f :: f in frames ==> OneDataLine(f)
    ensures SentAll(parse, frames) == StandardSentAll(parse, frames)
  {
    if frames != [] {
      OneLineAgrees(parse, frames[0]);
      StreamAgrees(parse, frames[1..]);
    }
  }
}
