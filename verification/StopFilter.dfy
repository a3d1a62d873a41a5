// The incremental stop-sequence filter and the whole-text truncation it has to agree with
// (internal/codexonly/chat_completions.go). Text is a sequence of runes.

module StopFilter {
  predicate OccursAt(text: string, stop: string, i: nat) {
    i + |stop| <= |text| && text[i..i + |stop|] == stop
  }

  /** A non-empty stop sequence starts at `i`. */
  predicate StopAt(text: string, stops: seq<string>, i: nat) {
    exists k :: 0 <= k < |stops| && stops[k] != "" && OccursAt(text, stops[k], i)
  }

  ghost predicate HasStop(text: string, stops: seq<string>) {
    exists i: nat :: StopAt(text, stops, i)
  }

  ghost predicate IsFirstStop(text: string, stops: seq<string>, i: nat) {
    StopAt(text, stops, i) && forall j: nat :: j < i ==> !StopAt(text, stops, j)
  }

  /** strings.Index: the first occurrence, or -1. */
  function Index(text: string, stop: string): (i: int)
    ensures i == -1 || (0 <= i && OccursAt(text, stop, i))
    ensures forall j: nat :: OccursAt(text, stop, j) ==> 0 <= i <= j
  {
    IndexFrom(text, stop, 0)
  }

  function IndexFrom(text: string, stop: string, from: nat): (i: int)
    ensures i == -1 || (from <= i && OccursAt(text, stop, i))
    ensures forall j: nat :: from <= j && OccursAt(text, stop, j) ==> from <= i <= j
    decreases |text| - from
  {
    if from + |stop| > |text| then -1
    else if OccursAt(text, stop, from) then from
    else IndexFrom(text, stop, from + 1)
  }

  ghost function FirstStop(text: string, stops: seq<string>): (i: nat)
    requires HasStop(text, stops)
    ensures IsFirstStop(text, stops, i) && i <= |text|
  {
    var i: nat :| StopAt(text, stops, i);
    FirstStopUpTo(text, stops, i)
  }

  ghost function FirstStopUpTo(text: string, stops: seq<string>, i: nat): (first: nat)
    requires StopAt(text, stops, i)
    ensures IsFirstStop(text, stops, first) && first <= |text|
  {
    if j: nat :| j < i && StopAt(text, stops, j) then FirstStopUpTo(text, stops, j) else i
  }

  lemma FirstStopIsUnique(text: string, stops: seq<string>, i: nat)
    requires IsFirstStop(text, stops, i)
    ensures HasStop(text, stops) && FirstStop(text, stops) == i && i <= |text|
  {
  }

  /** The text before the first stop sequence. */
  ghost function BeforeStop(text: string, stops: seq<string>): string {
    if HasStop(text, stops) then text[..FirstStop(text, stops)] else text
  }

  /** truncateAtStopSequence. */
  method Truncate(text: string, stops: seq<string>) returns (cut: string, stopped: bool)
    ensures cut == BeforeStop(text, stops) && stopped == HasStop(text, stops)
  {
    var index := -1;
    for k := 0 to |stops|
      invariant index == -1 || (0 <= index && StopAt(text, stops, index))
      invariant forall m, j: nat :: 0 <= m < k && stops[m] != "" && OccursAt(text, stops[m], j) ==> 0 <= index <= j
    {
      if stops[k] == "" {
        continue;
      }
      var found := Index(text, stops[k]);
      if found >= 0 && (index < 0 || found < index) {
        index := found;
      }
    }
    if index < 0 {
      return text, false;
    }
    FirstStopIsUnique(text, stops, index);
    return text[..index], true;
  }

  // ----- the filter -----

  datatype State = State(buffered: string, stopped: bool)

  const INITIAL := State("", false)

  function Longest(stops: seq<string>): (n: nat)
    ensures forall k :: 0 <= k < |stops| ==> |stops[k]| <= n
  {
    if stops == [] then 0
    else
      var n := Longest(stops[..|stops| - 1]);
      var last := |stops[|stops| - 1]|;
      if last > n then last else n
  }

  /** What one push does to the state, and what it emits. */
  ghost function Push(stops: seq<string>, s: State, delta: string): (State, string) {
    if Longest(stops) == 0 then (s, delta)
    else if s.stopped || delta == "" then (s, "")
    else
      var combined := s.buffered + delta;
      var keep := Longest(stops) - 1;
      if HasStop(combined, stops) then (State("", true), BeforeStop(combined, stops))
      else if keep == 0 then (s, combined)
      else if |combined| <= keep then (s.(buffered := combined), "")
      else (s.(buffered := combined[|combined| - keep..]), combined[..|combined| - keep])
  }

  ghost function Pushes(stops: seq<string>, deltas: seq<string>): (State, string) {
    if deltas == [] then (INITIAL, "")
    else
      var (s, out) := Pushes(stops, deltas[..|deltas| - 1]);
      var (s', more) := Push(stops, s, deltas[|deltas| - 1]);
      (s', out + more)
  }

  function Flushed(stops: seq<string>, s: State): string {
    if Longest(stops) == 0 || s.stopped then "" else s.buffered
  }

  class ChatStopFilter {
    const stopSequences: seq<string>
    var buffered: string
    var maxStopRunes: nat
    var stopped: bool

    ghost predicate Valid()
      reads this
    {
      maxStopRunes == Longest(stopSequences)
    }

    ghost function Abs(): State
      reads this
    {
      State(buffered, stopped)
    }

    /** newChatStopFilter. */
    constructor (stops: seq<string>)
      ensures Valid() && stopSequences == stops && Abs() == INITIAL
    {
      var longest := 0;
      for k := 0 to |stops|
        invariant longest == Longest(stops[..k])
      {
        assert stops[..k + 1][..k] == stops[..k];
        if |stops[k]| > longest {
          longest := |stops[k]|;
        }
      }
      assert stops[..|stops|] == stops;
      stopSequences, buffered, maxStopRunes, stopped := stops, "", longest, false;
    }

    method PushDelta(delta: string) returns (content: string, done: bool)
      requires Valid()
      modifies this
      ensures Valid() && (Abs(), content) == Push(stopSequences, old(Abs()), delta)
      ensures maxStopRunes > 0 ==> done == stopped
      ensures maxStopRunes == 0 ==> !done
    {
      if maxStopRunes == 0 {
        return delta, false;
      }
      if stopped || delta == "" {
        return "", stopped;
      }
      var combined := buffered + delta;
      var cut, hit := Truncate(combined, stopSequences);
      if hit {
        buffered, stopped := "", true;
        return cut, true;
      }
      var keep := maxStopRunes - 1;
      if keep <= 0 {
        return combined, false;
      }
      if |combined| <= keep {
        buffered := combined;
        return "", false;
      }
      var emitLen := |combined| - keep;
      buffered := combined[emitLen..];
      return combined[..emitLen], false;
    }

    method Flush() returns (content: string)
      requires Valid()
      modifies this
      ensures Valid() && content == Flushed(stopSequences, old(Abs()))
      ensures Abs() == if content == "" then old(Abs()) else old(Abs()).(buffered := "")
    {
      if maxStopRunes == 0 || stopped || buffered == "" {
        return "";
      }
      content := buffered;
      buffered := "";
    }
  }

  // ----- what the filter emits, whatever the chunking -----

  function Concat(deltas: seq<string>): string {
    if deltas == [] then "" else Concat(deltas[..|deltas| - 1]) + deltas[|deltas| - 1]
  }

  /** The text received by the time a stop sequence first completes, or all of it. */
  ghost function Received(stops: seq<string>, deltas: seq<string>): string {
    if deltas == [] then ""
    else
      var before := Received(stops, deltas[..|deltas| - 1]);
      if HasStop(before, stops) then before else before + deltas[|deltas| - 1]
  }

  lemma {:induction false} ReceivedIsPrefix(stops: seq<string>, deltas: seq<string>)
    ensures Received(stops, deltas) <= Concat(deltas)
    ensures !HasStop(Received(stops, deltas), stops) ==> Received(stops, deltas) == Concat(deltas)
  {
    if deltas != [] {
      ReceivedIsPrefix(stops, deltas[..|deltas| - 1]);
    }
  }

  /** The state holds back exactly the runes that could still begin a stop sequence. */
  ghost predicate Tracks(stops: seq<string>, s: State, received: string, out: string) {
    if HasStop(received, stops) then s.stopped && out == BeforeStop(received, stops)
    else
      && !s.stopped && out + s.buffered == received
      && (if Longest(stops) == 0 then s.buffered == ""
          else |s.buffered| == if |received| < Longest(stops) then |received| else Longest(stops) - 1)
  }

  lemma OccursInTail(out: string, tail: string, stop: string, i: nat)
    ensures OccursAt(tail, stop, i) <==> OccursAt(out + tail, stop, |out| + i)
  {
    if i + |stop| <= |tail| {
      assert (out + tail)[|out| + i..|out| + i + |stop|] == tail[i..i + |stop|];
    }
  }

  lemma StopInSuffix(stops: seq<string>, out: string, buffered: string, delta: string, i: nat)
    requires !HasStop(out + buffered, stops)
    requires out == "" || |buffered| + 1 >= Longest(stops)
    ensures StopAt(out + (buffered + delta), stops, i) <==> i >= |out| && StopAt(buffered + delta, stops, i - |out|)
  {
    var tail := buffered + delta;
    var text := out + tail;
    forall k | 0 <= k < |stops| && stops[k] != "" && OccursAt(text, stops[k], i)
      ensures i >= |out| && OccursAt(tail, stops[k], i - |out|)
    {
      if i + |stops[k]| <= |out + buffered| {
        assert text[i..i + |stops[k]|] == (out + buffered)[i..i + |stops[k]|];
        assert OccursAt(out + buffered, stops[k], i);
        assert StopAt(out + buffered, stops, i);
      }
      assert i >= |out|;
      OccursInTail(out, tail, stops[k], i - |out|);
    }
    if i >= |out| && StopAt(tail, stops, i - |out|) {
      var k :| 0 <= k < |stops| && stops[k] != "" && OccursAt(tail, stops[k], i - |out|);
      OccursInTail(out, tail, stops[k], i - |out|);
    }
  }

  lemma NoStopsNeverStop(stops: seq<string>, text: string)
    requires Longest(stops) == 0
    ensures !HasStop(text, stops)
  {
  }

  lemma PushTracks(stops: seq<string>, s: State, received: string, out: string, delta: string)
    requires Tracks(stops, s, received, out)
    ensures var (s', more) := Push(stops, s, delta);
      Tracks(stops, s', if HasStop(received, stops) then received else received + delta, out + more)
  {
    if Longest(stops) == 0 {
      NoStopsNeverStop(stops, received);
      NoStopsNeverStop(stops, received + delta);
    } else if s.stopped || delta == "" {
      assert received + "" == received && out + "" == out;
    } else {
      CombinedTracks(stops, s.buffered, out, delta);
      assert out + s.buffered + delta == out + (s.buffered + delta);
    }
  }

  lemma CombinedStops(stops: seq<string>, buffered: string, out: string, delta: string)
    requires !HasStop(out + buffered, stops)
    requires out == "" || |buffered| + 1 >= Longest(stops)
    ensures forall i: nat ::
      StopAt(out + (buffered + delta), stops, i) <==> i >= |out| && StopAt(buffered + delta, stops, i - |out|)
  {
    forall i: nat
      ensures StopAt(out + (buffered + delta), stops, i) <==> i >= |out| && StopAt(buffered + delta, stops, i - |out|)
    {
      StopInSuffix(stops, out, buffered, delta, i);
    }
  }

  /** A text whose stops are those of its part after `out` is cut where that part is. */
  lemma CutInSuffix(stops: seq<string>, out: string, combined: string)
    requires forall i: nat :: StopAt(out + combined, stops, i) <==> i >= |out| && StopAt(combined, stops, i - |out|)
    ensures HasStop(out + combined, stops) <==> HasStop(combined, stops)
    ensures BeforeStop(out + combined, stops) == out + BeforeStop(combined, stops)
  {
    if HasStop(combined, stops) {
      var i := FirstStop(combined, stops);
      assert StopAt(out + combined, stops, |out| + i);
      FirstStopIsUnique(out + combined, stops, |out| + i);
      assert (out + combined)[..|out| + i] == out + combined[..i];
    }
  }

  lemma CombinedTracks(stops: seq<string>, buffered: string, out: string, delta: string)
    requires !HasStop(out + buffered, stops)
    requires out == "" || |buffered| + 1 >= Longest(stops)
    ensures var combined := buffered + delta;
      && (HasStop(out + combined, stops) <==> HasStop(combined, stops))
      && BeforeStop(out + combined, stops) == out + BeforeStop(combined, stops)
  {
    CombinedStops(stops, buffered, out, delta);
    CutInSuffix(stops, out, buffered + delta);
  }

  /**
   * For every chunking: until a stop completes, output and withheld text are what was received;
   * from then on the output is the received text cut at its first stop.
   */
  lemma {:induction false} PushesTrack(stops: seq<string>, deltas: seq<string>)
    ensures var (s, out) := Pushes(stops, deltas); Tracks(stops, s, Received(stops, deltas), out)
  {
    if deltas != [] {
      var init := deltas[..|deltas| - 1];
      PushesTrack(stops, init);
      var (s, out) := Pushes(stops, init);
      PushTracks(stops, s, Received(stops, init), out, deltas[|deltas| - 1]);
    } else {
      forall i: nat
        ensures !StopAt("", stops, i)
      {
      }
    }
  }

  ghost function Output(stops: seq<string>, deltas: seq<string>): string {
    var (s, out) := Pushes(stops, deltas);
    out + Flushed(stops, s)
  }

  /** Pushes and flush together emit the received text cut at its first stop sequence. */
  lemma OutputIsReceivedCut(stops: seq<string>, deltas: seq<string>)
    ensures Output(stops, deltas) == BeforeStop(Received(stops, deltas), stops)
  {
    PushesTrack(stops, deltas);
    var (s, out) := Pushes(stops, deltas);
    if !s.stopped && Longest(stops) == 0 {
      assert out + "" == out;
    }
  }

  lemma CutHasNoStop(text: string, stops: seq<string>)
    ensures !HasStop(BeforeStop(text, stops), stops)
  {
    var cut := BeforeStop(text, stops);
    forall j: nat | HasStop(text, stops)
      ensures !StopAt(cut, stops, j)
    {
      if StopAt(cut, stops, j) {
        var k :| 0 <= k < |stops| && stops[k] != "" && OccursAt(cut, stops[k], j);
        assert OccursAt(text, stops[k], j);
        assert StopAt(text, stops, j);
      }
    }
  }

  /** No stop sequence ever reaches the client, before or after the flush. */
  lemma OutputHasNoStop(stops: seq<string>, deltas: seq<string>)
    ensures !HasStop(Output(stops, deltas), stops)
    ensures !HasStop(Pushes(stops, deltas).1, stops)
  {
    OutputIsReceivedCut(stops, deltas);
    CutHasNoStop(Received(stops, deltas), stops);
    PrefixHasNoStop(stops, Pushes(stops, deltas).1, Output(stops, deltas));
  }

  lemma PrefixHasNoStop(stops: seq<string>, short: string, long: string)
    requires short <= long && !HasStop(long, stops)
    ensures !HasStop(short, stops)
  {
    forall j: nat | StopAt(short, stops, j)
      ensures StopAt(long, stops, j)
    {
      StopStaysInLonger(stops, short, long, j);
    }
  }

  lemma StopStaysInLonger(stops: seq<string>, short: string, long: string, i: nat)
    requires short <= long && StopAt(short, stops, i)
    ensures StopAt(long, stops, i)
  {
    var k :| 0 <= k < |stops| && stops[k] != "" && OccursAt(short, stops[k], i);
    assert OccursAt(long, stops[k], i);
  }

  // ----- exactly when streaming agrees with truncating the whole text -----

  /**
   * No stop sequence is interrupted: a proper prefix of one that contains a stop sequence
   * already starts with one.
   */
  ghost predicate Uninterrupted(stops: seq<string>) {
    forall k, p :: 0 <= k < |stops| && 0 <= p < |stops[k]| ==> !Interrupted(stops, k, p)
  }

  /** The first `p` characters of a stop sequence complete another one that starts later. */
  ghost predicate Interrupted(stops: seq<string>, k: nat, p: nat)
    requires k < |stops| && p < |stops[k]|
  {
    HasStop(stops[k][..p], stops) && !StopAt(stops[k][..p], stops, 0)
  }

  ghost predicate ChunkingIsInvisible(stops: seq<string>) {
    forall deltas: seq<string> :: Output(stops, deltas) == BeforeStop(Concat(deltas), stops)
  }

  /** A stop that starts earlier in the longer text is one in the shorter text too. */
  lemma EarlierStopIsSeen(stops: seq<string>, short: string, long: string, i: nat, first: nat)
    requires short <= long && Uninterrupted(stops)
    requires StopAt(short, stops, first) && StopAt(long, stops, i) && i < first
    ensures StopAt(short, stops, i)
  {
    var k :| 0 <= k < |stops| && stops[k] != "" && OccursAt(long, stops[k], i);
    var m :| 0 <= m < |stops| && stops[m] != "" && OccursAt(short, stops[m], first);
    if i + |stops[k]| <= |short| {
      assert OccursAt(short, stops[k], i);
      assert StopAt(short, stops, i);
    } else {
      var p := |short| - i;
      var head := stops[k][..p];
      assert head == short[i..] by {
        assert long[i..i + |stops[k]|] == stops[k];
        assert long[i..i + |stops[k]|][..p] == long[i..|short|];
      }
      assert OccursAt(head, stops[m], first - i) by {
        assert head[first - i..first - i + |stops[m]|] == short[first..first + |stops[m]|];
      }
      assert StopAt(head, stops, first - i) && HasStop(head, stops);
      assert !Interrupted(stops, k, p);
      assert StopAt(head, stops, 0);
      var n :| 0 <= n < |stops| && stops[n] != "" && OccursAt(head, stops[n], 0);
      assert short[i..i + |stops[n]|] == head[0..|stops[n]|];
      assert OccursAt(short, stops[n], i) && StopAt(short, stops, i);
    }
  }

  lemma UninterruptedSuffices(stops: seq<string>, deltas: seq<string>)
    requires Uninterrupted(stops)
    ensures Output(stops, deltas) == BeforeStop(Concat(deltas), stops)
  {
    OutputIsReceivedCut(stops, deltas);
    ReceivedIsPrefix(stops, deltas);
    var short, long := Received(stops, deltas), Concat(deltas);
    if HasStop(short, stops) {
      var first := FirstStop(short, stops);
      StopStaysInLonger(stops, short, long, first);
      var i := FirstStop(long, stops);
      if i < first {
        EarlierStopIsSeen(stops, short, long, i, first);
      }
      FirstStopIsUnique(short, stops, first);
      assert short[..i] == long[..i];
    }
  }

  lemma TwoChunks(stops: seq<string>, head: string, tail: string)
    requires HasStop(head, stops)
    ensures Concat([head, tail]) == head + tail && Received(stops, [head, tail]) == head
    ensures Output(stops, [head, tail]) == BeforeStop(head, stops)
  {
    var none: seq<string> := [];
    assert [head, tail][..1] == [head] && [head][..0] == none;
    EmptyHasNoStop(Received(stops, none), stops);
    assert Concat([head]) == Concat(none) + head == head;
    assert Received(stops, [head]) == Received(stops, none) + head == head;
    OutputIsReceivedCut(stops, [head, tail]);
  }

  lemma EmptyHasNoStop(text: string, stops: seq<string>)
    requires |text| == 0
    ensures !HasStop(text, stops)
  {
  }

  lemma StopIsCutAway(stops: seq<string>, stop: string)
    requires stop in stops && |stop| > 0
    ensures |BeforeStop(stop, stops)| == 0
  {
    assert OccursAt(stop, stop, 0) && StopAt(stop, stops, 0);
    FirstStopIsUnique(stop, stops, 0);
  }

  lemma LateStopLeavesText(head: string, stops: seq<string>)
    requires HasStop(head, stops) && !StopAt(head, stops, 0)
    ensures |BeforeStop(head, stops)| > 0
  {
    assert StopAt(head, stops, FirstStop(head, stops));
  }

  /** What a client sees of a stop sequence that is split in two. */
  lemma SplitStopShows(stops: seq<string>, stop: string, head: string, tail: string)
    requires stop in stops && |stop| > 0 && stop == head + tail && HasStop(head, stops) && !StopAt(head, stops, 0)
    ensures Output(stops, [head, tail]) == BeforeStop(head, stops) && |BeforeStop(head, stops)| > 0
    ensures |BeforeStop(Concat([head, tail]), stops)| == 0
  {
    TwoChunks(stops, head, tail);
    LateStopLeavesText(head, stops);
    StopIsCutAway(stops, stop);
  }

  /** An interrupted stop sequence, split where the interruption completes, is not fully withheld. */
  lemma InterruptionShows(stops: seq<string>, k: nat, p: nat)
    requires k < |stops| && p < |stops[k]| && Interrupted(stops, k, p)
    ensures var head, tail := stops[k][..p], stops[k][p..];
      && Output(stops, [head, tail]) == BeforeStop(head, stops) && |BeforeStop(head, stops)| > 0
      && |BeforeStop(Concat([head, tail]), stops)| == 0
  {
    SplitStopShows(stops, stops[k], stops[k][..p], stops[k][p..]);
  }

  /** Streaming gives what truncating the whole text gives, for every chunking, exactly when no stop is interrupted. */
  lemma ChunkingIsInvisibleIff(stops: seq<string>)
    ensures ChunkingIsInvisible(stops) <==> Uninterrupted(stops)
  {
    if Uninterrupted(stops) {
      forall deltas: seq<string>
        ensures Output(stops, deltas) == BeforeStop(Concat(deltas), stops)
      {
        UninterruptedSuffices(stops, deltas);
      }
    } else {
      var k, p :| 0 <= k < |stops| && 0 <= p < |stops[k]| && Interrupted(stops, k, p);
      InterruptionShows(stops, k, p);
      var deltas := [stops[k][..p], stops[k][p..]];
      assert Output(stops, deltas) != BeforeStop(Concat(deltas), stops);
    }
  }

  /** Stop sequences of one length never interrupt each other. */
  lemma EqualLengthsSuffice(stops: seq<string>)
    requires forall k, m :: 0 <= k < |stops| && 0 <= m < |stops| && stops[k] != "" && stops[m] != "" ==>
      |stops[k]| == |stops[m]|
    ensures Uninterrupted(stops) && ChunkingIsInvisible(stops)
  {
    ChunkingIsInvisibleIff(stops);
  }

  lemma StopInside(stops: seq<string>, head: string)
    requires |stops| == 2 && head == "ab" && stops[0] == "abc" && stops[1] == "b"
    ensures HasStop(head, stops) && FirstStop(head, stops) == 1 && !StopAt(head, stops, 0)
  {
    assert OccursAt(head, stops[1], 1) && StopAt(head, stops, 1);
    assert head[0..1][0] != stops[1][0];
    assert !StopAt(head, stops, 0);
    FirstStopIsUnique(head, stops, 1);
  }

  /** A short stop inside a longer one: of "ab" and then "c" the stream shows "a", of "abc" at once nothing. */
  lemma UnequalLengthsCanShow(stops: seq<string>, head: string, tail: string)
    requires |stops| == 2 && stops[0] == "abc" && stops[1] == "b" && head == "ab" && tail == "c"
    ensures Output(stops, [head, tail]) == "a" && |BeforeStop(Concat([head, tail]), stops)| == 0
    ensures !ChunkingIsInvisible(stops)
  {
    StopInside(stops, head);
    SplitStopShows(stops, stops[0], head, tail);
    assert Output(stops, [head, tail]) != BeforeStop(Concat([head, tail]), stops);
  }
}
