// The JSONL event log of src/protocol/event-registry/storage.ts as text: splitting, reading,
// appending and querying. JSON, the hash, UTF-8 sizes and date parsing are library functions
// and appear as the fields of a `Codec` that is only assumed lawful.

module Log {
  import opened Wrappers
  import opened Events
  import opened Sequences
  import opened Text

  /** What JSON.parse followed by schema validation makes of one line. */
  datatype Decoded = NotJson | BadShape | Good(event: Event)

  datatype Codec = Codec(
    encode: Event -> string,
    decode: string -> Decoded,
    sha: string -> string,
    utf8Size: string -> nat,
    dateMs: string -> Option<int>)

  /** JSON text has no raw newline and parses back; digests are non-empty; "" is not a date. */
  ghost predicate Lawful(c: Codec) {
    && (forall e: Event :: '\n' !in c.encode(e))
    && (forall e: Event :: ValidEvent(e) ==> c.decode(c.encode(e)) == Good(e))
    && (forall l: string :: c.decode(l).Good? ==> ValidEvent(c.decode(l).event))
    && (forall l: string :: c.sha(l) != "")
    && c.dateMs("") == None
  }

  datatype Fault = Fault(line: nat, code: string)

  // ------------------------------------------------------------------ lines

  ghost predicate NewlineFree(lines: seq<string>) {
    forall i :: 0 <= i < |lines| ==> '\n' !in lines[i]
  }

  /** text.split("\n") */
  function Split(text: string): (lines: seq<string>)
    ensures |lines| >= 1
    ensures NewlineFree(lines)
  {
    SplitOn(text, '\n')
  }

  /** The log's lines: the split, less the empty piece after a final newline. */
  function LogLines(text: string): (lines: seq<string>)
    ensures NewlineFree(lines)
  {
    var pieces := Split(text);
    if pieces[|pieces| - 1] == "" then pieces[..|pieces| - 1] else pieces
  }

  /** Every line of the text is newline-terminated. */
  predicate WellFormed(text: string) {
    text == "" || text[|text| - 1] == '\n'
  }

  function Render(lines: seq<string>): (text: string)
    ensures WellFormed(text)
  {
    if lines == [] then "" else Render(lines[..|lines| - 1]) + lines[|lines| - 1] + "\n"
  }

  /** lines.join("\n") */
  function Join(lines: seq<string>): string {
    if lines == [] then ""
    else if |lines| == 1 then lines[0]
    else Join(lines[..|lines| - 1]) + "\n" + lines[|lines| - 1]
  }

  lemma SplitSuffix(text: string, piece: string)
    requires '\n' !in piece
    ensures var pieces := Split(text);
            Split(text + piece) == pieces[..|pieces| - 1] + [pieces[|pieces| - 1] + piece]
  {
    SplitOnSuffix(text, piece, '\n');
  }

  lemma SplitLine(text: string, line: string)
    requires '\n' !in line
    ensures var pieces := Split(text);
            Split(text + line + "\n") == pieces[..|pieces| - 1] + [pieces[|pieces| - 1] + line, ""]
  {
    SplitSuffix(text, line);
    assert (text + line + "\n")[..|text + line|] == text + line;
  }

  lemma WellFormedSplit(text: string)
    ensures WellFormed(text) <==> Split(text)[|Split(text)| - 1] == ""
  {
  }

  /** Appending a line to the file appends it to the lines exactly when the file ends in a newline. */
  lemma AppendIsSnoc(text: string, line: string)
    requires '\n' !in line
    ensures LogLines(text + line + "\n") == LogLines(text) + [line] <==> WellFormed(text)
    ensures WellFormed(text + line + "\n")
  {
    var pieces := Split(text);
    var after := pieces[..|pieces| - 1] + [pieces[|pieces| - 1] + line, ""];
    SplitLine(text, line);
    WellFormedSplit(text);
    assert after[..|after| - 1] == pieces[..|pieces| - 1] + [pieces[|pieces| - 1] + line];
    if WellFormed(text) {
      assert pieces[|pieces| - 1] + line == line;
    } else {
      assert |LogLines(text + line + "\n")| == |LogLines(text)|;
    }
  }

  /** Printing newline-free lines and splitting the text again is the identity. */
  lemma {:induction false} RenderRoundTrip(lines: seq<string>)
    requires NewlineFree(lines)
    ensures LogLines(Render(lines)) == lines
  {
    if lines != [] {
      var init, last := lines[..|lines| - 1], lines[|lines| - 1];
      RenderRoundTrip(init);
      AppendIsSnoc(Render(init), last);
      assert lines == init + [last];
    }
  }

  lemma {:induction false} JoinSplit(text: string)
    ensures Join(Split(text)) == text
  {
    if text != "" {
      var before, last := Split(text[..|text| - 1]), text[|text| - 1];
      JoinSplit(text[..|text| - 1]);
      assert text == text[..|text| - 1] + [last];
      if last == '\n' {
        assert (before + [""])[..|before|] == before;
      } else {
        var init, end := before[..|before| - 1], before[|before| - 1];
        assert before == init + [end];
        assert (init + [end + [last]])[..|init|] == init;
        if init != [] {
          assert Join(init) + "\n" + (end + [last]) == (Join(init) + "\n" + end) + [last];
        }
      }
    }
  }

  /** A well-formed file is the rendering of its own lines. */
  lemma LinesRoundTrip(text: string)
    requires WellFormed(text)
    ensures Render(LogLines(text)) == text
  {
    var pieces := Split(text);
    JoinSplit(text);
    WellFormedSplit(text);
    if |pieces| > 1 {
      JoinIsRender(pieces[..|pieces| - 1]);
    }
  }

  lemma {:induction false} JoinIsRender(lines: seq<string>)
    requires lines != []
    ensures Join(lines) + "\n" == Render(lines)
  {
    if |lines| == 1 {
      assert lines[..0] == [];
      assert Render(lines) == "" + lines[0] + "\n";
    } else {
      JoinIsRender(lines[..|lines| - 1]);
    }
  }

  // ------------------------------------------------------------------ reading

  function DecodeAll(c: Codec, lines: seq<string>): seq<Event> {
    if lines == [] then []
    else
      var d := c.decode(lines[|lines| - 1]);
      DecodeAll(c, lines[..|lines| - 1]) + if d.Good? then [d.event] else []
  }

  function Faults(c: Codec, lines: seq<string>): seq<Fault> {
    if lines == [] then []
    else
      Faults(c, lines[..|lines| - 1]) +
      match c.decode(lines[|lines| - 1])
      case NotJson => [Fault(|lines|, "corrupt_line")]
      case BadShape => [Fault(|lines|, "invalid_event_shape")]
      case Good(_) => []
  }

  ghost predicate Readable(c: Codec, lines: seq<string>) {
    forall l :: l in lines ==> c.decode(l).Good?
  }

  lemma {:induction false} FaultsMeanUnreadable(c: Codec, lines: seq<string>)
    ensures Faults(c, lines) == [] <==> Readable(c, lines)
  {
    if lines != [] {
      FaultsMeanUnreadable(c, lines[..|lines| - 1]);
      assert lines == lines[..|lines| - 1] + [lines[|lines| - 1]];
    }
  }

  lemma {:induction false} DecodeConcat(c: Codec, a: seq<string>, b: seq<string>)
    ensures DecodeAll(c, a + b) == DecodeAll(c, a) + DecodeAll(c, b)
  {
    if b == [] {
      assert a + b == a;
    } else {
      assert (a + b)[..|a + b| - 1] == a + b[..|b| - 1];
      DecodeConcat(c, a, b[..|b| - 1]);
    }
  }

  datatype ReadResult = Events(events: seq<Event>) | Unreadable(faults: seq<Fault>)

  function ReadText(c: Codec, text: string): ReadResult {
    var lines := LogLines(text);
    if Faults(c, lines) == [] then Events(DecodeAll(c, lines)) else Unreadable(Faults(c, lines))
  }

  /** readRegistryEvents: no partial result, and a missing file is an empty registry. */
  method ReadRegistryEvents(c: Codec, scope: string, file: Option<string>) returns (r: ReadResult)
    ensures r == if SafeScope(scope) then ReadText(c, file.GetOr("")) else Unreadable([Fault(0, "unsafe_scope")])
  {
    if !SafeScope(scope) {
      return Unreadable([Fault(0, "unsafe_scope")]);
    }
    if file == None {
      assert LogLines("") == [];
      return Events([]);
    }
    var lines := LogLines(file.value);
    var events: seq<Event> := [];
    var faults: seq<Fault> := [];
    for i := 0 to |lines|
      invariant events == DecodeAll(c, lines[..i])
      invariant faults == Faults(c, lines[..i])
    {
      assert lines[..i + 1][..i] == lines[..i];
      match c.decode(lines[i])
      case NotJson => faults := faults + [Fault(i + 1, "corrupt_line")];
      case BadShape => faults := faults + [Fault(i + 1, "invalid_event_shape")];
      case Good(e) => events := events + [e];
    }
    assert lines[..|lines|] == lines;
    if faults != [] {
      return Unreadable(faults);
    }
    return Events(events);
  }

  lemma ReadSnoc(c: Codec, lines: seq<string>, line: string, e: Event)
    requires c.decode(line) == Good(e)
    ensures Faults(c, lines + [line]) == Faults(c, lines)
    ensures DecodeAll(c, lines + [line]) == DecodeAll(c, lines) + [e]
  {
    assert (lines + [line])[..|lines|] == lines;
  }

  /** Reading after an append is the old read plus the appended event. */
  lemma ReadAfterAppend(c: Codec, text: string, e: Event)
    requires Lawful(c) && ValidEvent(e) && WellFormed(text)
    ensures match ReadText(c, text)
            case Events(events) => ReadText(c, text + c.encode(e) + "\n") == Events(events + [e])
            case Unreadable(faults) => ReadText(c, text + c.encode(e) + "\n") == Unreadable(faults)
  {
    var line := c.encode(e);
    assert LogLines(text + line + "\n") == LogLines(text) + [line] by {
      AppendIsSnoc(text, line);
    }
    ReadSnoc(c, LogLines(text), line, e);
  }

  // ------------------------------------------------------------------ appending

  /** isSafeRegistryScope: one path segment of at most 128 characters. */
  predicate SafeScope(scope: string) {
    PathSegment(scope) && |scope| <= 128
  }

  datatype Prepared = Ready(line: string, event: Event) | Rejected(code: string)

  /** prepareAppend: scope, then shape, then size, before anything touches the disk. The
      candidate is what the schema makes of the caller's value. */
  function PrepareAppend(c: Codec, scope: string, candidate: Option<Event>, maxBytes: int): Prepared
  {
    if !SafeScope(scope) then Rejected("unsafe_scope")
    else if candidate == None || !ValidEvent(candidate.value) then Rejected("invalid_event_shape")
    else
      var line := c.encode(candidate.value);
      if c.utf8Size(line + "\n") > (if maxBytes < 1 then 1 else maxBytes) then Rejected("event_too_large")
      else Ready(line, candidate.value)
  }

  /** Exactly the valid events of a safe scope whose line, newline included, is within the cap pass
      the choke point, and they pass as they are; the first thing wrong names the refusal. */
  lemma PreparedExactly(c: Codec, scope: string, candidate: Option<Event>, maxBytes: int)
    ensures var p, cap := PrepareAppend(c, scope, candidate, maxBytes), if maxBytes < 1 then 1 else maxBytes;
            var shaped := candidate.Some? && ValidEvent(candidate.value);
            var scoped := PathSegment(scope) && |scope| <= 128;
            && (p.Ready? <==> scoped && shaped && c.utf8Size(c.encode(candidate.value) + "\n") <= cap)
            && (p.Ready? ==> p.event == candidate.value && p.line == c.encode(candidate.value))
            && (p == Rejected("unsafe_scope") <==> !scoped)
            && (p == Rejected("invalid_event_shape") <==> scoped && !shaped)
            && (p == Rejected("event_too_large") <==> scoped && shaped && !p.Ready?)
  {
  }

  /** Whatever passes the choke point can be read back from any well-formed log it is appended to. */
  lemma PreparedAppendReadsBack(c: Codec, scope: string, candidate: Option<Event>, maxBytes: int, text: string)
    requires Lawful(c) && WellFormed(text) && Readable(c, LogLines(text))
    requires PrepareAppend(c, scope, candidate, maxBytes).Ready?
    ensures var p := PrepareAppend(c, scope, candidate, maxBytes);
            && WellFormed(text + p.line + "\n")
            && ReadText(c, text + p.line + "\n") == Events(DecodeAll(c, LogLines(text)) + [candidate.value])
  {
    FaultsMeanUnreadable(c, LogLines(text));
    ReadAfterAppend(c, text, candidate.value);
  }

  // ------------------------------------------------------------------ querying

  /** Where a character's first UTF-16 code unit sorts: surrogate pairs come before U+E000. */
  function UnitRank(ch: char): int {
    var scalar := ch as int;
    if scalar < 0xE000 then scalar
    else if scalar < 0x10000 then scalar + 0x100000
    else scalar - 0x10000 + 0xE000
  }

  /** The UTF-16 code units of a character. */
  function CodeUnits(ch: char): seq<int> {
    var scalar := ch as int;
    if scalar < 0x10000 then [scalar] else [0xD800 + (scalar - 0x10000) / 0x400, 0xDC00 + (scalar - 0x10000) % 0x400]
  }

  /** Characters rank as their code units do: by the first, then by the second. */
  lemma RankIsUnitOrder(a: char, b: char)
    requires a != b
    ensures var x, y := CodeUnits(a), CodeUnits(b);
            UnitRank(a) < UnitRank(b) <==> x[0] < y[0] || (x[0] == y[0] && |x| == |y| == 2 && x[1] < y[1])
  {
  }

  /** The `<` of the source language on strings: UTF-16 code-unit order. */
  predicate LexLess(a: string, b: string) {
    if b == "" then false
    else if a == "" then true
    else if a[0] != b[0] then UnitRank(a[0]) < UnitRank(b[0])
    else LexLess(a[1..], b[1..])
  }

  /** Of two strings exactly one comes first, unless they are equal; a proper prefix comes first. */
  lemma {:induction false} LexTotal(a: string, b: string)
    ensures LexLess(a, b) ==> a != b && !LexLess(b, a)
    ensures a != b ==> LexLess(a, b) || LexLess(b, a)
    ensures a < b ==> LexLess(a, b)
  {
    if a != "" && b != "" {
      LexTotal(a[1..], b[1..]);
      assert a == [a[0]] + a[1..] && b == [b[0]] + b[1..];
      if a[0] != b[0] {
        RankIsUnitOrder(a[0], b[0]);
      }
    }
  }

  datatype EventQuery = EventQuery(
    objective: Option<string>, class_: Option<EventClass>, fromTs: Option<string>, toTs: Option<string>)

  function Matching(q: EventQuery): Event -> bool {
    (e: Event) =>
      && (q.objective.Some? ==> e.objective == q.objective.value)
      && (q.class_.Some? ==> e.Class() == q.class_.value)
      && (q.fromTs.Some? ==> !LexLess(e.ts, q.fromTs.value))
      && (q.toTs.Some? ==> !LexLess(q.toTs.value, e.ts))
  }

  function Query(events: seq<Event>, q: EventQuery): seq<Event> {
    Filter(events, Matching(q))
  }

  /** A query keeps the log's order and selects exactly by what it states: objective, class, and a
      window of time stamps that includes both its ends. */
  lemma QueryIsExact(events: seq<Event>, q: EventQuery, e: Event)
    ensures e in Query(events, q) <==>
              && e in events
              && q.objective in {None, Some(e.objective)}
              && q.class_ in {None, Some(e.Class())}
              && (q.fromTs.Some? ==> q.fromTs.value == e.ts || LexLess(q.fromTs.value, e.ts))
              && (q.toTs.Some? ==> q.toTs.value == e.ts || LexLess(e.ts, q.toTs.value))
  {
    FilterMembers(events, Matching(q));
    if q.fromTs.Some? {
      LexTotal(q.fromTs.value, e.ts);
    }
    if q.toTs.Some? {
      LexTotal(e.ts, q.toTs.value);
    }
  }
}
