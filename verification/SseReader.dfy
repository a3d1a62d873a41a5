// The server-sent-event reader whose raw bytes are replayed and parsed again
// (internal/codexonly/chat_completions.go). The accepted format is a subset of section 9.2.6 of
// the WHATWG HTML Standard.

module SseReader {
  import opened Bytes
  import opened Wrappers
  import ChatStream
  import ChatCompletion

  const NEWLINE: Byte := 10
  const RETURN: Byte := 13
  const SPACE: Byte := 32
  const COLON: Byte := 58
  const MAX_EVENT_BYTES := 52_428_800
  const FRAGMENT_BYTES := 4096

  /** How the underlying stream ends after its last byte. */
  datatype Ending = Eof | ReadError

  datatype SseEvent = SseEvent(name: seq<Byte>, data: seq<Byte>)

  const EMPTY := SseEvent([], [])

  datatype Parsed =
    | Got(event: SseEvent, raw: seq<Byte>, rest: seq<Byte>, closed: bool)
    | End
    | ReadFailed
    | TooLarge

  // ----- one line -----

  /** The length of the first line, its newline included, or of everything when there is no newline. */
  function LineLength(input: seq<Byte>): (n: nat)
    ensures n <= |input|
    ensures input != [] ==> n > 0
    ensures n < |input| ==> input[n - 1] == NEWLINE
  {
    if input == [] then 0
    else if input[0] == NEWLINE then 1
    else 1 + LineLength(input[1..])
  }

  predicate EndsLine(line: seq<Byte>) {
    line != [] && line[|line| - 1] == NEWLINE
  }

  function Chomp(line: seq<Byte>): seq<Byte> {
    var body := if EndsLine(line) then line[..|line| - 1] else line;
    if body != [] && body[|body| - 1] == RETURN then body[..|body| - 1] else body
  }

  function IndexOfColon(line: seq<Byte>): (i: nat)
    ensures i <= |line| && (i < |line| ==> line[i] == COLON)
    ensures forall j :: 0 <= j < i ==> line[j] != COLON
  {
    if line == [] || line[0] == COLON then 0 else 1 + IndexOfColon(line[1..])
  }

  const EVENT_FIELD: seq<Byte> := [101, 118, 101, 110, 116]
  const DATA_FIELD: seq<Byte> := [100, 97, 116, 97]

  /** What a non-empty, non-comment line does to the event being built. */
  function WithField(event: SseEvent, line: seq<Byte>): SseEvent {
    var colon := IndexOfColon(line);
    var field := line[..colon];
    var after := if colon < |line| then line[colon + 1..] else [];
    var value := if after != [] && after[0] == SPACE then after[1..] else after;
    if field == EVENT_FIELD then event.(name := TrimSpace(value))
    else if field == DATA_FIELD then
      event.(data := if event.data == [] then value else event.data + [NEWLINE] + value)
    else event
  }

  // ----- one event -----

  datatype Effect =
    | Oversized
    | Closes(raw: seq<Byte>)
    | Resets
    | Continues(raw: seq<Byte>, event: SseEvent)

  /** What one line does to the event and the raw bytes collected so far. */
  function LineEffect(line: seq<Byte>, raw: seq<Byte>, event: SseEvent): Effect {
    var trimmed := Chomp(line);
    if |raw| + |line| > MAX_EVENT_BYTES then Oversized
    else if trimmed == [] then (if event.data != [] then Closes(raw + line) else Resets)
    else Continues(raw + line, if trimmed[0] == COLON then event else WithField(event, trimmed))
  }

  /** next: reads lines until a blank one closes an event that has data. */
  function Next(input: seq<Byte>, ending: Ending, raw: seq<Byte>, event: SseEvent): (p: Parsed)
    ensures p.Got? ==> p.event.data != [] && |p.rest| <= |input|
    ensures p.Got? && event.data == [] ==> |p.rest| < |input|
    ensures p.Got? && !p.closed ==> p.rest == []
    decreases |input|, 1
  {
    var n := LineLength(input);
    After(input[..n], input[n..], ending, raw, event)
  }

  /** The rest of `next`, once the line `line` has been read and `rest` remains. */
  function After(line: seq<Byte>, rest: seq<Byte>, ending: Ending, raw: seq<Byte>, event: SseEvent): (p: Parsed)
    ensures p.Got? ==> p.event.data != [] && |p.rest| <= |rest|
    ensures p.Got? && event.data == [] ==> line != []
    ensures p.Got? && !p.closed && !EndsLine(line) ==> p.rest == rest || p.rest == []
    ensures p.Got? && !p.closed && EndsLine(line) ==> p.rest == []
    decreases |line| + |rest|, 0
  {
    match LineEffect(line, raw, event)
    case Oversized => TooLarge
    case Closes(raw') => Got(event, raw', rest, EndsLine(line))
    case Resets => if EndsLine(line) then Next(rest, ending, [], EMPTY) else Finished(ending)
    case Continues(raw', event') =>
      if EndsLine(line) then Next(rest, ending, raw', event')
      else if ending.Eof? && event'.data != [] then Got(event', raw', [], false)
      else Finished(ending)
  }

  function Finished(ending: Ending): Parsed {
    if ending.Eof? then End else ReadFailed
  }

  // ----- all events -----

  datatype Reading = Reading(events: seq<SseEvent>, raws: seq<seq<Byte>>, end: Parsed)

  /** Every event up to the first result that is not one. */
  function ReadAll(input: seq<Byte>, ending: Ending): (r: Reading)
    ensures |r.events| == |r.raws| && !r.end.Got?
    decreases |input|
  {
    var p := Next(input, ending, [], EMPTY);
    if !p.Got? then Reading([], [], p)
    else
      var more := ReadAll(p.rest, ending);
      Reading([p.event] + more.events, [p.raw] + more.raws, more.end)
  }

  /** A first line is the same whatever follows its newline. */
  lemma {:induction false} LineStays(line: seq<Byte>, tail: seq<Byte>)
    requires LineLength(line) == |line| && (EndsLine(line) || tail == [])
    ensures LineLength(line + tail) == |line|
  {
    if tail == [] {
      assert line + tail == line;
    } else if |line| > 1 {
      assert line[0] != NEWLINE;
      assert (line + tail)[1..] == line[1..] + tail;
      LineStays(line[1..], tail);
    }
  }

  lemma {:induction false} LineOfLine(input: seq<Byte>)
    ensures LineLength(input[..LineLength(input)]) == LineLength(input)
  {
    var n := LineLength(input);
    if n > 1 {
      assert input[..n][1..] == input[1..][..n - 1];
      LineOfLine(input[1..]);
    }
  }

  /** What one line contributes does not depend on the bytes after it. */
  lemma NextLine(line: seq<Byte>, tail: seq<Byte>, ending: Ending, raw: seq<Byte>, event: SseEvent)
    requires LineLength(line) == |line| && (EndsLine(line) || tail == [])
    ensures Next(line + tail, ending, raw, event) == After(line, tail, ending, raw, event)
  {
    LineStays(line, tail);
    assert (line + tail)[..|line|] == line && (line + tail)[|line|..] == tail;
  }

  /** The bytes of `p`, or those it added to `raw`, produce `p` again in front of `tail`. */
  ghost predicate Replays(p: Parsed, raw: seq<Byte>, event: SseEvent, tail: seq<Byte>)
    requires p.Got?
  {
    || Next(p.raw + tail, Eof, [], EMPTY) == p.(rest := tail)
    || (raw <= p.raw && Next(p.raw[|raw|..] + tail, Eof, raw, event) == p.(rest := tail))
  }

  /** A line that gives the last byte of an event gives it again. */
  lemma LastLineReplays(line: seq<Byte>, raw: seq<Byte>, event: SseEvent, tail: seq<Byte>)
    requires LineLength(line) == |line| && (EndsLine(line) || tail == [])
    requires var effect := LineEffect(line, raw, event);
      effect.Closes? || (effect.Continues? && !EndsLine(line) && effect.event.data != [])
    ensures Replays(After(line, tail, Eof, raw, event), raw, event, tail)
  {
    var p := After(line, tail, Eof, raw, event);
    assert p.raw == raw + line;
    assert p.raw[|raw|..] == line;
    NextLine(line, tail, Eof, raw, event);
  }

  /** A line that continues an event continues it again. */
  lemma InnerLineReplays(line: seq<Byte>, raw: seq<Byte>, event: SseEvent, tail: seq<Byte>, p: Parsed)
    requires LineLength(line) == |line| && EndsLine(line) && p.Got?
    requires var effect := LineEffect(line, raw, event);
      effect.Continues? && Replays(p, effect.raw, effect.event, tail)
    ensures Replays(p, raw, event, tail)
  {
    if Next(p.raw + tail, Eof, [], EMPTY) != p.(rest := tail) {
      ContinuingLineReplays(line, raw, event, tail, p);
    }
  }

  lemma ContinuingLineReplays(line: seq<Byte>, raw: seq<Byte>, event: SseEvent, tail: seq<Byte>, p: Parsed)
    requires LineLength(line) == |line| && EndsLine(line) && p.Got? && raw + line <= p.raw
    requires var effect := LineEffect(line, raw, event);
      effect.Continues? && Next(p.raw[|raw + line|..] + tail, Eof, effect.raw, effect.event) == p.(rest := tail)
    ensures raw <= p.raw && Next(p.raw[|raw|..] + tail, Eof, raw, event) == p.(rest := tail)
  {
    var more := p.raw[|raw + line|..] + tail;
    SuffixSplits(raw, line, p.raw, tail);
    NextLine(line, more, Eof, raw, event);
  }

  lemma SuffixSplits(raw: seq<Byte>, line: seq<Byte>, all: seq<Byte>, tail: seq<Byte>)
    requires raw + line <= all
    ensures raw <= all && all[|raw|..] + tail == line + (all[|raw + line|..] + tail)
  {
    assert all == (raw + line) + all[|raw + line|..];
    assert all[|raw|..] == line + all[|raw + line|..];
  }

  /**
   * Parsing again the bytes that produced an event, followed by anything a closed event may be
   * followed by, produces that event and leaves exactly what follows.
   */
  lemma {:induction false} NextReplays(
    input: seq<Byte>, ending: Ending, raw: seq<Byte>, event: SseEvent, tail: seq<Byte>)
    requires var p := Next(input, ending, raw, event); p.Got? && (p.closed || tail == [])
    ensures Replays(Next(input, ending, raw, event), raw, event, tail)
    decreases |input|
  {
    var p := Next(input, ending, raw, event);
    var n := LineLength(input);
    var line, rest := input[..n], input[n..];
    var effect := LineEffect(line, raw, event);
    LineOfLine(input);
    if effect.Resets? {
      NextReplays(rest, ending, [], EMPTY, tail);
      assert p.raw[0..] == p.raw;
    } else if effect.Continues? && EndsLine(line) {
      NextReplays(rest, ending, effect.raw, effect.event, tail);
      InnerLineReplays(line, raw, event, tail, p);
    } else {
      assert p.(rest := tail) == After(line, tail, Eof, raw, event);
      LastLineReplays(line, raw, event, tail);
    }
  }

  /**
   * Replay: parsing the joined raw bytes of the events gives exactly the same events with the same
   * raw bytes, and then a clean end, for every input and however it ended.
   */
  lemma {:induction false} ReplayGivesSameEvents(input: seq<Byte>, ending: Ending)
    ensures var first := ReadAll(input, ending);
      ReadAll(Joined(first.raws), Eof) == Reading(first.events, first.raws, End)
    decreases |input|
  {
    var p := Next(input, ending, [], EMPTY);
    if p.Got? {
      var more := ReadAll(p.rest, ending);
      ReplayGivesSameEvents(p.rest, ending);
      if !p.closed {
        assert Joined(more.raws) == [];
      }
      NextReplays(input, ending, [], EMPTY, Joined(more.raws));
      assert p.raw[0..] == p.raw;
      JoinedFirst(p.raw, more.raws);
    } else {
    }
  }

  /** No event is larger than the limit, comments and fields included. */
  lemma {:induction false} EventsAreBounded(input: seq<Byte>, ending: Ending, raw: seq<Byte>, event: SseEvent)
    requires |raw| <= MAX_EVENT_BYTES
    ensures var p := Next(input, ending, raw, event); p.Got? ==> |p.raw| <= MAX_EVENT_BYTES
    decreases |input|
  {
    var n := LineLength(input);
    var effect := LineEffect(input[..n], raw, event);
    if EndsLine(input[..n]) {
      if effect.Resets? {
        EventsAreBounded(input[n..], ending, [], EMPTY);
      } else if effect.Continues? {
        EventsAreBounded(input[n..], ending, effect.raw, effect.event);
      }
    }
  }

  // ----- the aggregate answer is computed twice -----

  function Decoded(events: seq<SseEvent>, decode: SseEvent -> ChatStream.Event): seq<ChatStream.Event> {
    seq(|events|, i requires 0 <= i < |events| => decode(events[i]))
  }

  /**
   * The state an aggregate pass accepts: every event applies, the last one is terminal, and the
   * stream ends cleanly or with a read error that came too late to matter.
   */
  ghost function Aggregate(input: seq<Byte>, ending: Ending, decode: SseEvent -> ChatStream.Event)
    : Option<ChatStream.State>
  {
    var reading := ReadAll(input, ending);
    match ChatStream.Process(Decoded(reading.events, decode), false)
    case None => None
    case Some((s, _)) => if s.terminal && !reading.end.TooLarge? then Some(s) else None
  }

  /**
   * Unless an event was too large, the second pass over the bytes of the first one accepts exactly what the
   * first one accepts, with the same state. In particular it accepts whatever the first one did.
   */
  lemma SecondPassAgrees(input: seq<Byte>, ending: Ending, decode: SseEvent -> ChatStream.Event)
    ensures
      || ReadAll(input, ending).end.TooLarge?
      || Aggregate(Joined(ReadAll(input, ending).raws), Eof, decode) == Aggregate(input, ending, decode)
    ensures Aggregate(input, ending, decode).Some? ==> !ReadAll(input, ending).end.TooLarge?
  {
    ReplayGivesSameEvents(input, ending);
  }

  // ----- the reader and the buffering first pass, in the source's form -----

  class ResponsesSSEReader {
    const ending: Ending
    var input: seq<Byte>

    constructor (input: seq<Byte>, ending: Ending)
      ensures this.input == input && this.ending == ending
    {
      this.input, this.ending := input, ending;
    }

    /** readBoundedSSELine: the line arrives in fragments of at most one buffer. */
    method ReadBoundedLine(limit: int) returns (line: Option<seq<Byte>>)
      modifies this
      ensures var n := LineLength(old(input));
        if n > limit then line.None? else line == Some(old(input)[..n]) && input == old(input)[n..]
    {
      if limit < 0 {
        return None;
      }
      var read: seq<Byte> := [];
      while true
        invariant |read| <= limit && |read| <= |old(input)|
        invariant read == old(input)[..|read|] && input == old(input)[|read|..]
        invariant LineLength(old(input)) == |read| + LineLength(input)
        decreases |input|
      {
        var n := LineLength(input);
        var size := if n < FRAGMENT_BYTES then n else FRAGMENT_BYTES;
        var fragment := input[..size];
        if |read| + |fragment| > limit {
          return None;
        }
        FragmentOfLine(input, size);
        Advance(old(input), |read|, size);
        read, input := read + fragment, input[size..];
        if size == n {
          return Some(read);
        }
      }
    }

    /** next. */
    method NextEvent() returns (p: Parsed)
      modifies this
      ensures p == Next(old(input), ending, [], EMPTY)
      ensures p.Got? ==> input == p.rest
    {
      var event, raw := EMPTY, [];
      while true
        invariant |raw| <= MAX_EVENT_BYTES
        invariant Next(old(input), ending, [], EMPTY) == Next(input, ending, raw, event)
        decreases |input|
      {
        ghost var before := input;
        var read := ReadBoundedLine(MAX_EVENT_BYTES - |raw|);
        if read.None? {
          return TooLarge;
        }
        var line := read.value;
        assert Next(before, ending, raw, event) == After(line, input, ending, raw, event);
        raw := raw + line;
        var trimmed := Chomp(line);
        if |trimmed| == 0 {
          if event.data != [] {
            return Got(event, raw, input, EndsLine(line));
          }
          raw, event := [], EMPTY;
        } else if trimmed[0] != COLON {
          event := WithField(event, trimmed);
        }
        if !EndsLine(line) {
          if ending.Eof? {
            if event.data != [] {
              assert input == [];
              return Got(event, raw, [], false);
            }
            return End;
          }
          return ReadFailed;
        }
      }
    }

    /** The buffering branch of prepareChatCompletionUpstreamResponse. */
    method PrepareAggregate(decode: SseEvent -> ChatStream.Event) returns (replay: Option<seq<Byte>>)
      modifies this
      ensures replay.Some? <==> Aggregate(old(input), ending, decode).Some?
      ensures replay.Some? ==> replay.value == Joined(ReadAll(old(input), ending).raws)
    {
      var state := new ChatCompletion.ChatCompletionState();
      var bytes: seq<Byte> := [];
      ghost var pass := Pass([], [], []);
      while true
        invariant state.Valid() && fresh(state)
        invariant Midway(old(input), ending, decode, input, bytes, state.Abs(), pass)
        decreases |input|
      {
        ghost var before, s := input, state.Abs();
        var p := NextEvent();
        if !p.Got? {
          Stops(old(input), ending, decode, before, bytes, s, pass);
          return if state.terminal && !p.TooLarge? then Some(bytes) else None;
        }
        var update := state.ApplyResponsesEvent(decode(p.event), false);
        if update.Failure? {
          Refuses(old(input), ending, decode, before, bytes, s, pass);
          return None;
        }
        Advances(old(input), ending, decode, before, bytes, s, pass);
        bytes := bytes + p.raw;
        pass := Pass(pass.events + [p.event], pass.raws + [p.raw], pass.updates + [update.value]);
      }
    }
  }

  /** What the first pass has consumed so far. */
  datatype Pass = Pass(events: seq<SseEvent>, raws: seq<seq<Byte>>, updates: seq<ChatStream.Update>)

  /** The first pass is at `input`, has buffered `bytes` and is in state `s`. */
  ghost predicate Midway(
    start: seq<Byte>, ending: Ending, decode: SseEvent -> ChatStream.Event, input: seq<Byte>, bytes: seq<Byte>,
    s: ChatStream.State, pass: Pass)
  {
    var now := ReadAll(input, ending);
    && ReadAll(start, ending) == Reading(pass.events + now.events, pass.raws + now.raws, now.end)
    && bytes == Joined(pass.raws)
    && ChatStream.Process(Decoded(pass.events, decode), false) == Some((s, pass.updates))
  }

  lemma Stops(
    start: seq<Byte>, ending: Ending, decode: SseEvent -> ChatStream.Event, input: seq<Byte>, bytes: seq<Byte>,
    s: ChatStream.State, pass: Pass)
    requires Midway(start, ending, decode, input, bytes, s, pass)
    requires !Next(input, ending, [], EMPTY).Got?
    ensures Aggregate(start, ending, decode) ==
      if s.terminal && !Next(input, ending, [], EMPTY).TooLarge? then Some(s) else None
    ensures bytes == Joined(ReadAll(start, ending).raws)
  {
    assert pass.events + [] == pass.events && pass.raws + [] == pass.raws;
  }

  lemma Advances(
    start: seq<Byte>, ending: Ending, decode: SseEvent -> ChatStream.Event, input: seq<Byte>, bytes: seq<Byte>,
    s: ChatStream.State, pass: Pass)
    requires Midway(start, ending, decode, input, bytes, s, pass)
    requires var p := Next(input, ending, [], EMPTY);
      ChatStream.ToolsOk(s) && p.Got? && ChatStream.Apply(s, decode(p.event), false).1.Success?
    ensures var p := Next(input, ending, [], EMPTY);
      var (s', update) := ChatStream.Apply(s, decode(p.event), false);
      Midway(start, ending, decode, p.rest, bytes + p.raw, s',
             Pass(pass.events + [p.event], pass.raws + [p.raw], pass.updates + [update.value]))
  {
    var p := Next(input, ending, [], EMPTY);
    var here, more := ReadAll(input, ending), ReadAll(p.rest, ending);
    assert pass.events + here.events == (pass.events + [p.event]) + more.events;
    assert pass.raws + here.raws == (pass.raws + [p.raw]) + more.raws;
    JoinedLast(pass.raws, p.raw);
    DecodedAppend(pass.events, p.event, decode);
    OneMore(Decoded(pass.events, decode), decode(p.event), s, pass.updates);
  }

  lemma Refuses(
    start: seq<Byte>, ending: Ending, decode: SseEvent -> ChatStream.Event, input: seq<Byte>, bytes: seq<Byte>,
    s: ChatStream.State, pass: Pass)
    requires Midway(start, ending, decode, input, bytes, s, pass)
    requires var p := Next(input, ending, [], EMPTY);
      ChatStream.ToolsOk(s) && p.Got? && ChatStream.Apply(s, decode(p.event), false).1.Failure?
    ensures Aggregate(start, ending, decode).None?
  {
    var p := Next(input, ending, [], EMPTY);
    var here, more := ReadAll(input, ending), ReadAll(p.rest, ending);
    var events := pass.events + [p.event];
    assert ReadAll(start, ending).events == events + more.events;
    DecodedAppend(pass.events, p.event, decode);
    OneMore(Decoded(pass.events, decode), decode(p.event), s, pass.updates);
    RefusedStaysRefused(Decoded(events, decode), Decoded(more.events, decode));
    DecodedConcat(events, more.events, decode);
  }

  lemma Advance(all: seq<Byte>, at: nat, size: nat)
    requires at + size <= |all|
    ensures all[..at] + all[at..][..size] == all[..at + size]
    ensures all[at..][size..] == all[at + size..]
  {
  }

  lemma {:induction false} FragmentOfLine(input: seq<Byte>, size: nat)
    requires size <= LineLength(input)
    ensures LineLength(input) == size + (if size == LineLength(input) then 0 else LineLength(input[size..]))
  {
    if 0 < size < LineLength(input) {
      FragmentOfLine(input[1..], size - 1);
      assert input[1..][size - 1..] == input[size..];
    }
  }

  lemma DecodedAppend(events: seq<SseEvent>, event: SseEvent, decode: SseEvent -> ChatStream.Event)
    ensures Decoded(events + [event], decode) == Decoded(events, decode) + [decode(event)]
  {
  }

  lemma OneMore(
    events: seq<ChatStream.Event>, event: ChatStream.Event, s: ChatStream.State, updates: seq<ChatStream.Update>)
    requires ChatStream.Process(events, false) == Some((s, updates))
    ensures ChatStream.ToolsOk(s)
    ensures var (s', update) := ChatStream.Apply(s, event, false);
      ChatStream.Process(events + [event], false) ==
        if update.Failure? then None else Some((s', updates + [update.value]))
  {
    assert (events + [event])[..|events|] == events;
  }

  lemma DecodedConcat(events: seq<SseEvent>, more: seq<SseEvent>, decode: SseEvent -> ChatStream.Event)
    ensures Decoded(events + more, decode) == Decoded(events, decode) + Decoded(more, decode)
  {
  }

  lemma {:induction false} RefusedStaysRefused(events: seq<ChatStream.Event>, more: seq<ChatStream.Event>)
    requires ChatStream.Process(events, false).None?
    ensures ChatStream.Process(events + more, false).None?
  {
    if more == [] {
      assert events + more == events;
    } else {
      RefusedStaysRefused(events, more[..|more| - 1]);
      assert (events + more)[..|events + more| - 1] == events + more[..|more| - 1];
    }
  }
}
