// What a text in the server-sent-event format means, and that the reader finds exactly that: fields are
// written down byte by byte and parsed back (internal/codexonly/chat_completions.go; section 9.2.6 of the
// WHATWG HTML Standard).

module SseFormat {
  import opened Bytes
  import opened SseReader

  /** One line of an event's text. `Other` is a field that is neither an event name nor data. */
  datatype Field =
    | Name(value: seq<Byte>)
    | Data(value: seq<Byte>)
    | Comment(text: seq<Byte>)
    | Other(line: seq<Byte>)

  // "event" and "data".
  const EVENT: seq<Byte> := [0x65, 0x76, 0x65, 0x6E, 0x74]
  const DATA: seq<Byte> := [0x64, 0x61, 0x74, 0x61]
  const LF: Byte := 0x0A
  const CR: Byte := 0x0D

  predicate OneLine(text: seq<Byte>) {
    LF !in text && CR !in text
  }

  predicate IsField(f: Field) {
    match f
    case Name(value) => OneLine(value)
    case Data(value) => OneLine(value)
    case Comment(text) => OneLine(text)
    case Other(line) =>
      && OneLine(line) && |line| > 0 && line[0] != 0x3A
      && line != EVENT && line != DATA && !(EVENT + [0x3A] <= line) && !(DATA + [0x3A] <= line)
  }

  function TextOf(f: Field): seq<Byte> {
    match f
    case Name(value) => EVENT + [0x3A, 0x20] + value
    case Data(value) => DATA + [0x3A, 0x20] + value
    case Comment(text) => [0x3A] + text
    case Other(line) => line
  }

  function Newline(crlf: bool): seq<Byte> {
    if crlf then [CR, LF] else [LF]
  }

  function Rendered(fields: seq<Field>, crlf: bool): seq<Byte> {
    if |fields| == 0 then []
    else TextOf(fields[0]) + Newline(crlf) + Rendered(fields[1..], crlf)
  }

  /** The fields of one event and the blank line that ends it. */
  function EventText(fields: seq<Field>, crlf: bool): seq<Byte> {
    Rendered(fields, crlf) + Newline(crlf)
  }

  // ----- what the fields mean -----

  function DataLines(fields: seq<Field>): seq<seq<Byte>> {
    if |fields| == 0 then []
    else (if fields[0].Data? then [fields[0].value] else []) + DataLines(fields[1..])
  }

  function LinesJoined(lines: seq<seq<Byte>>): seq<Byte> {
    if |lines| == 0 then [] else if |lines| == 1 then lines[0] else lines[0] + [LF] + LinesJoined(lines[1..])
  }

  /** A newline separates data lines once there is data: empty lines in front leave no trace. */
  function WithoutEmptyFront(lines: seq<seq<Byte>>): seq<seq<Byte>> {
    if |lines| > 0 && |lines[0]| == 0 then WithoutEmptyFront(lines[1..]) else lines
  }

  /** The last name, or `otherwise`. */
  function LastName(fields: seq<Field>, otherwise: seq<Byte>): seq<Byte> {
    if |fields| == 0 then otherwise
    else LastName(fields[1..], if fields[0].Name? then TrimSpace(fields[0].value) else otherwise)
  }

  function Meaning(fields: seq<Field>): SseEvent {
    SseEvent(LastName(fields, []), LinesJoined(WithoutEmptyFront(DataLines(fields))))
  }

  /** An event after more lines, going on from `data`. */
  function DataWith(data: seq<Byte>, lines: seq<seq<Byte>>): seq<Byte>
    decreases |lines|
  {
    if |lines| == 0 then data
    else DataWith(WithData(data, lines[0]), lines[1..])
  }

  function WithData(data: seq<Byte>, line: seq<Byte>): seq<Byte> {
    if |data| == 0 then line else data + [LF] + line
  }

  lemma {:induction false} DataWithJoins(data: seq<Byte>, lines: seq<seq<Byte>>)
    requires |data| > 0
    ensures DataWith(data, lines) == if |lines| == 0 then data else data + [LF] + LinesJoined(lines)
    decreases |lines|
  {
    if |lines| > 0 {
      var more := data + [LF] + lines[0];
      DataWithJoins(more, lines[1..]);
      if |lines| > 1 {
        assert more + [LF] + LinesJoined(lines[1..]) == data + [LF] + (lines[0] + [LF] + LinesJoined(lines[1..]));
      }
    }
  }

  lemma {:induction false} DataIsJoined(lines: seq<seq<Byte>>)
    ensures DataWith([], lines) == LinesJoined(WithoutEmptyFront(lines))
  {
    if |lines| > 0 {
      if |lines[0]| == 0 {
        assert lines[0] == [];
        DataIsJoined(lines[1..]);
      } else {
        DataWithJoins(lines[0], lines[1..]);
      }
    }
  }

  // ----- one line -----

  lemma {:induction false} LineEndsAtNewline(text: seq<Byte>, crlf: bool)
    requires OneLine(text)
    ensures var line := text + Newline(crlf); LineLength(line) == |line| && EndsLine(line)
  {
    var line := text + Newline(crlf);
    if |text| > 0 {
      assert line[1..] == text[1..] + Newline(crlf);
      LineEndsAtNewline(text[1..], crlf);
      assert line[0] == text[0] && text[0] in text;
    } else if crlf {
      assert line == [CR, LF] && line[1..] == [LF];
      assert LineLength([LF]) == 1;
    } else {
      assert line == [LF];
    }
  }

  lemma NewlineIsChomped(text: seq<Byte>, crlf: bool)
    requires OneLine(text)
    ensures Chomp(text + Newline(crlf)) == text
  {
    var line := text + Newline(crlf);
    var body := line[..|line| - 1];
    if crlf {
      assert body == text + [CR];
      assert body[..|body| - 1] == text;
    } else {
      assert body == text;
      assert |text| > 0 ==> text[|text| - 1] in text;
    }
  }

  lemma ColonIsAt(line: seq<Byte>, i: nat)
    requires i < |line| && line[i] == 0x3A && forall j :: 0 <= j < i ==> line[j] != 0x3A
    ensures IndexOfColon(line) == i
  {
    assert IndexOfColon(line) <= i;
  }

  lemma NameIsRead(event: SseEvent, value: seq<Byte>)
    ensures WithField(event, TextOf(Name(value))) == event.(name := TrimSpace(value))
  {
    var line := TextOf(Name(value));
    ColonIsAt(line, 5);
    assert line[..5] == EVENT && line[6..] == [0x20] + value && line[6..][1..] == value;
  }

  lemma DataIsRead(event: SseEvent, value: seq<Byte>)
    ensures WithField(event, TextOf(Data(value))) == event.(data := WithData(event.data, value))
  {
    var line := TextOf(Data(value));
    ColonIsAt(line, 4);
    assert line[..4] == DATA && line[5..] == [0x20] + value && line[5..][1..] == value;
    assert line[..4] != [0x65, 0x76, 0x65, 0x6E, 0x74];
  }

  lemma OtherIsIgnored(event: SseEvent, line: seq<Byte>)
    requires IsField(Other(line))
    ensures WithField(event, line) == event
  {
    var colon := IndexOfColon(line);
    var field := line[..colon];
    if colon < |line| {
      assert line[..colon + 1] == field + [0x3A] && field + [0x3A] <= line;
    } else {
      assert field == line;
    }
    assert field != EVENT && field != DATA;
  }

  /** The event after one more field. */
  function WithLine(event: SseEvent, f: Field): SseEvent {
    match f
    case Name(value) => event.(name := TrimSpace(value))
    case Data(value) => event.(data := WithData(event.data, value))
    case _ => event
  }

  lemma FieldHasEffect(f: Field, crlf: bool, raw: seq<Byte>, event: SseEvent)
    requires IsField(f)
    ensures var line := TextOf(f) + Newline(crlf);
      && LineLength(line) == |line| && EndsLine(line)
      && LineEffect(line, raw, event) ==
           if |raw| + |line| > MAX_EVENT_BYTES then Oversized else Continues(raw + line, WithLine(event, f))
  {
    var text := TextOf(f);
    FieldIsOneLine(f);
    LineEndsAtNewline(text, crlf);
    NewlineIsChomped(text, crlf);
    match f
    case Name(value) => NameIsRead(event, value);
    case Data(value) => DataIsRead(event, value);
    case Comment(_) =>
    case Other(line) => OtherIsIgnored(event, line);
  }

  lemma FieldIsOneLine(f: Field)
    requires IsField(f)
    ensures OneLine(TextOf(f)) && |TextOf(f)| > 0 && (TextOf(f)[0] == 0x3A <==> f.Comment?)
  {
  }

  // ----- a whole event -----

  function WithLines(event: SseEvent, fields: seq<Field>): SseEvent
    decreases |fields|
  {
    if |fields| == 0 then event else WithLines(WithLine(event, fields[0]), fields[1..])
  }

  lemma {:induction false} LinesMean(event: SseEvent, fields: seq<Field>)
    ensures WithLines(event, fields) == SseEvent(LastName(fields, event.name), DataWith(event.data, DataLines(fields)))
    decreases |fields|
  {
    if |fields| > 0 {
      LinesMean(WithLine(event, fields[0]), fields[1..]);
      if fields[0].Data? {
        assert DataLines(fields)[0] == fields[0].value && DataLines(fields)[1..] == DataLines(fields[1..]);
      } else {
        assert DataLines(fields) == DataLines(fields[1..]);
      }
    }
  }

  /** What the reader makes of an event's text in front of `tail`. */
  function Reads(event: SseEvent, text: seq<Byte>, tail: seq<Byte>, ending: Ending): Parsed {
    if |text| > MAX_EVENT_BYTES then TooLarge
    else if |event.data| > 0 then Got(event, text, tail, true)
    else Next(tail, ending, [], EMPTY)
  }

  lemma BlankLineCloses(crlf: bool, tail: seq<Byte>, ending: Ending, raw: seq<Byte>, event: SseEvent)
    ensures Next(Newline(crlf) + tail, ending, raw, event) == Reads(event, raw + Newline(crlf), tail, ending)
  {
    var text: seq<Byte> := [];
    assert text + Newline(crlf) == Newline(crlf);
    LineEndsAtNewline(text, crlf);
    NewlineIsChomped(text, crlf);
    NextLine(Newline(crlf), tail, ending, raw, event);
  }

  lemma LineGoesOn(
    line: seq<Byte>, rest: seq<Byte>, ending: Ending, raw: seq<Byte>, event: SseEvent, effect: Effect)
    requires LineLength(line) == |line| && EndsLine(line) && LineEffect(line, raw, event) == effect
    ensures effect.Continues? ==> Next(line + rest, ending, raw, event) == Next(rest, ending, effect.raw, effect.event)
    ensures effect.Oversized? ==> Next(line + rest, ending, raw, event) == TooLarge
  {
    NextLine(line, rest, ending, raw, event);
  }

  lemma FieldIsRead(f: Field, crlf: bool, rest: seq<Byte>, ending: Ending, raw: seq<Byte>, event: SseEvent)
    requires IsField(f)
    ensures var line := TextOf(f) + Newline(crlf);
      Next(line + rest, ending, raw, event) ==
        if |raw| + |line| > MAX_EVENT_BYTES then TooLarge else Next(rest, ending, raw + line, WithLine(event, f))
  {
    var line := TextOf(f) + Newline(crlf);
    FieldHasEffect(f, crlf, raw, event);
    LineGoesOn(line, rest, ending, raw, event, LineEffect(line, raw, event));
  }

  lemma FirstLineOf(fields: seq<Field>, crlf: bool, raw: seq<Byte>, tail: seq<Byte>)
    requires |fields| > 0
    ensures var line, rest := TextOf(fields[0]) + Newline(crlf), EventText(fields[1..], crlf);
      && EventText(fields, crlf) + tail == line + (rest + tail)
      && raw + EventText(fields, crlf) == raw + line + rest
      && |raw + EventText(fields, crlf)| >= |raw| + |line|
  {
    var line, rest := TextOf(fields[0]) + Newline(crlf), EventText(fields[1..], crlf);
    assert EventText(fields, crlf) == line + rest;
  }

  lemma {:induction false} FieldsAreRead(
    fields: seq<Field>, crlf: bool, tail: seq<Byte>, ending: Ending, raw: seq<Byte>, event: SseEvent)
    requires forall i :: 0 <= i < |fields| ==> IsField(fields[i])
    requires |raw| <= MAX_EVENT_BYTES
    ensures Next(EventText(fields, crlf) + tail, ending, raw, event) ==
      Reads(WithLines(event, fields), raw + EventText(fields, crlf), tail, ending)
    decreases |fields|
  {
    if |fields| == 0 {
      assert EventText(fields, crlf) == Newline(crlf);
      BlankLineCloses(crlf, tail, ending, raw, event);
    } else {
      var line := TextOf(fields[0]) + Newline(crlf);
      FieldIsRead(fields[0], crlf, EventText(fields[1..], crlf) + tail, ending, raw, event);
      FirstLineOf(fields, crlf, raw, tail);
      if |raw| + |line| <= MAX_EVENT_BYTES {
        FieldsAreRead(fields[1..], crlf, tail, ending, raw + line, WithLine(event, fields[0]));
      }
    }
  }

  /**
   * The text of an event is parsed to what its fields mean, whatever lines are in between and whatever
   * follows; one without data is passed over, and one beyond the limit refused.
   */
  lemma RenderedIsParsed(fields: seq<Field>, crlf: bool, tail: seq<Byte>, ending: Ending)
    requires forall i :: 0 <= i < |fields| ==> IsField(fields[i])
    ensures Next(EventText(fields, crlf) + tail, ending, [], EMPTY) ==
      Reads(Meaning(fields), EventText(fields, crlf), tail, ending)
  {
    var none: seq<Byte> := [];
    FieldsAreRead(fields, crlf, tail, ending, none, EMPTY);
    assert none + EventText(fields, crlf) == EventText(fields, crlf);
    LinesMean(EMPTY, fields);
    DataIsJoined(DataLines(fields));
  }

  function AsData(lines: seq<seq<Byte>>): seq<Field> {
    seq(|lines|, i requires 0 <= i < |lines| => Data(lines[i]))
  }

  lemma {:induction false} DataLinesOf(lines: seq<seq<Byte>>)
    ensures DataLines(AsData(lines)) == lines && forall name :: LastName(AsData(lines), name) == name
  {
    if |lines| > 0 {
      DataLinesOf(lines[1..]);
      assert AsData(lines)[1..] == AsData(lines[1..]);
    }
  }

  /** A name and data lines within the limit give the trimmed name and the lines joined by newlines. */
  lemma NameAndDataAreParsed(name: seq<Byte>, lines: seq<seq<Byte>>, crlf: bool, tail: seq<Byte>, ending: Ending)
    requires OneLine(name) && |lines| > 0 && |lines[0]| > 0 && forall i :: 0 <= i < |lines| ==> OneLine(lines[i])
    requires |EventText([Name(name)] + AsData(lines), crlf)| <= MAX_EVENT_BYTES
    ensures var text := EventText([Name(name)] + AsData(lines), crlf);
      Next(text + tail, ending, [], EMPTY) ==
        Got(SseEvent(TrimSpace(name), LinesJoined(lines)), text, tail, true)
  {
    var fields := [Name(name)] + AsData(lines);
    assert fields[1..] == AsData(lines);
    DataLinesOf(lines);
    RenderedIsParsed(fields, crlf, tail, ending);
    assert DataLines(fields) == lines && WithoutEmptyFront(lines) == lines;
    assert LastName(fields, []) == TrimSpace(name);
    assert |LinesJoined(lines)| > 0;
  }

  lemma EndCloses(ending: Ending, raw: seq<Byte>, event: SseEvent)
    requires |raw| <= MAX_EVENT_BYTES
    ensures Next([], ending, raw, event) ==
      if |event.data| > 0 then Got(event, raw, [], false) else Finished(ending)
  {
    assert raw + [] == raw;
  }

  lemma RestOfRendered(fields: seq<Field>, crlf: bool, raw: seq<Byte>)
    requires |fields| > 0
    ensures var line, rest := TextOf(fields[0]) + Newline(crlf), Rendered(fields[1..], crlf);
      && Rendered(fields, crlf) == line + rest
      && raw + Rendered(fields, crlf) == raw + line + rest
      && |raw + line| + |rest| == |raw| + |Rendered(fields, crlf)|
  {
  }

  lemma {:induction false} FieldsAreReadToEnd(
    fields: seq<Field>, crlf: bool, ending: Ending, raw: seq<Byte>, event: SseEvent)
    requires forall i :: 0 <= i < |fields| ==> IsField(fields[i])
    requires |raw| + |Rendered(fields, crlf)| <= MAX_EVENT_BYTES
    ensures var last := WithLines(event, fields);
      Next(Rendered(fields, crlf), ending, raw, event) ==
        if |last.data| > 0 then Got(last, raw + Rendered(fields, crlf), [], false) else Finished(ending)
    decreases |fields|
  {
    if |fields| == 0 {
      assert Rendered(fields, crlf) == [] && raw + [] == raw;
      EndCloses(ending, raw, event);
    } else {
      var line, rest := TextOf(fields[0]) + Newline(crlf), Rendered(fields[1..], crlf);
      RestOfRendered(fields, crlf, raw);
      FieldIsRead(fields[0], crlf, rest, ending, raw, event);
      FieldsAreReadToEnd(fields[1..], crlf, ending, raw + line, WithLine(event, fields[0]));
    }
  }

  /** The input may end without a blank line: what was heard so far is the last event, if it has data. */
  lemma LastEventIsParsed(fields: seq<Field>, crlf: bool, ending: Ending)
    requires forall i :: 0 <= i < |fields| ==> IsField(fields[i])
    requires |Rendered(fields, crlf)| <= MAX_EVENT_BYTES
    ensures Next(Rendered(fields, crlf), ending, [], EMPTY) ==
      if |Meaning(fields).data| > 0 then Got(Meaning(fields), Rendered(fields, crlf), [], false)
      else if ending.Eof? then End else ReadFailed
  {
    var none: seq<Byte> := [];
    FieldsAreReadToEnd(fields, crlf, ending, none, EMPTY);
    assert none + Rendered(fields, crlf) == Rendered(fields, crlf);
    LinesMean(EMPTY, fields);
    DataIsJoined(DataLines(fields));
  }
}
