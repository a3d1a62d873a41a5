// Streaming and aggregate processing of one event sequence end with the same answer.

module ChatModes {
  import opened Wrappers
  import opened ChatStream
  import StopFilter

  lemma {:induction false} ReplacedTools(s: State, items: seq<IndexedItem>)
    requires ToolsOk(s)
    ensures var s' := ReplaceTools(s, items);
      && s'.content == s.content
      && (items != [] ==> |s'.toolCalls| > 0)
      && (items == [] ==> s' == s)
  {
    if items != [] {
      ReplacedTools(s, items[..|items| - 1]);
    }
  }

  // ----- where the two modes put an item -----

  /** The events that ask for an output slot. */
  predicate Places(event: Event) {
    || (event.ItemDone? && event.item.Some?)
    || (event.ItemAdded? && event.item.Some? && event.item.value.kind.FunctionCall?)
  }

  predicate NamesSlot(event: Event)
    requires Places(event)
  {
    event.outputIndex.Some? && event.outputIndex.value >= 0
  }

  /** The slot that the tool tables have on record for an item. */
  function RecordedSlot(s: State, item: Item): Option<int>
    requires ToolsOk(s)
  {
    var tool := LookupTool(s, item);
    if tool >= 0 && s.toolCalls[tool].outputIndex >= 0 then Some(s.toolCalls[tool].outputIndex) else None
  }

  function SlotFor(s: State, event: Event): int
    requires ToolsOk(s) && Places(event)
  {
    OutputIndexFor(s, event.outputIndex, event.item.value).1
  }

  /** Until the run ends, every slot on record has been handed out. */
  predicate SlotsHandedOut(s: State) {
    forall i :: 0 <= i < |s.toolCalls| ==> 0 <= s.toolCalls[i].outputIndex < s.nextOutputIndex
  }

  /** Two states that would put the event's item in the same slot. */
  predicate SameSlot(s: State, w: State, event: Event)
    requires ToolsOk(s) && ToolsOk(w)
  {
    Places(event) ==> SlotFor(s, event) == SlotFor(w, event)
  }

  /** Two states whose tool tables agree on the event's item, if the event leaves the slot open. */
  predicate SameRecord(s: State, w: State, event: Event)
    requires ToolsOk(s) && ToolsOk(w)
  {
    Places(event) && !NamesSlot(event) ==> RecordedSlot(s, event.item.value) == RecordedSlot(w, event.item.value)
  }

  /** Two states that put a finished item in one slot, or in two that hold it already. */
  predicate PlacesAlike(s: State, w: State, event: Event)
    requires ToolsOk(s) && ToolsOk(w)
  {
    event.ItemDone? && event.item.Some? && SlotFor(s, event) != SlotFor(w, event) ==>
      Holds(s.outputItems, SlotFor(s, event), event.item.value) && Holds(s.outputItems, SlotFor(w, event), event.item.value)
  }

  predicate Holds(items: map<int, Item>, slot: int, item: Item) {
    slot in items && items[slot] == item
  }

  ghost predicate BothAccept(events: seq<Event>) {
    Process(events, true).Some? && Process(events, false).Some?
  }

  ghost function After(events: seq<Event>, streaming: bool): (s: State)
    requires Process(events, streaming).Some?
    ensures ToolsOk(s)
  {
    Process(events, streaming).value.0
  }

  /** At every event of the run the two modes hand out the same slot. */
  ghost predicate SameSlots(events: seq<Event>)
    requires BothAccept(events)
  {
    events != [] ==>
      var init := events[..|events| - 1];
      SameSlots(init) && SameSlot(After(init, true), After(init, false), events[|events| - 1])
  }

  /** At every event of the run that leaves the slot open, the two tool tables have the same on record. */
  ghost predicate SameRecords(events: seq<Event>)
    requires BothAccept(events)
  {
    events != [] ==>
      var init := events[..|events| - 1];
      SameRecords(init) && SameRecord(After(init, true), After(init, false), events[|events| - 1])
  }

  ghost predicate PlacedAlike(events: seq<Event>)
    requires BothAccept(events)
  {
    events != [] ==>
      var init := events[..|events| - 1];
      PlacedAlike(init) && PlacesAlike(After(init, true), After(init, false), events[|events| - 1])
  }

  /** After every event of the run the two modes hold the same finished items. */
  ghost predicate SameItemsThroughout(events: seq<Event>)
    requires BothAccept(events)
  {
    && After(events, true).outputItems == After(events, false).outputItems
    && (events != [] ==> SameItemsThroughout(events[..|events| - 1]))
  }

  lemma EnsureKeepsSlots(s: State, item: Item, slot: int)
    requires ToolsOk(s) && SlotsHandedOut(s) && 0 <= slot < s.nextOutputIndex
    ensures var s' := Ensure(s, item, slot).0; SlotsHandedOut(s') && s'.nextOutputIndex == s.nextOutputIndex
  {
  }

  lemma ReconcileItemKeepsSlots(s: State, item: Item, slot: int)
    requires ToolsOk(s) && SlotsHandedOut(s) && 0 <= slot < s.nextOutputIndex
    ensures var s' := ReconcileItem(s, item, slot).0; SlotsHandedOut(s') && s'.nextOutputIndex == s.nextOutputIndex
  {
    if item.kind.FunctionCall? {
      EnsureKeepsSlots(s, item, slot);
      var (s1, index, created) := Ensure(s, item, slot);
      SetKeepsSlots(s1, index, item.arguments);
      SetKeepsSlots(s1, index, s1.toolCalls[index].arguments + item.arguments);
    }
  }

  /** The next free slot is the one after the highest that was handed out or named. */
  lemma NextSlotIsAboveAll(s: State, explicit: Option<int>, item: Item)
    requires ToolsOk(s) && SlotsHandedOut(s) && s.nextOutputIndex >= 0
    ensures var (s', slot) := OutputIndexFor(s, explicit, item);
      s'.nextOutputIndex == if slot + 1 > s.nextOutputIndex then slot + 1 else s.nextOutputIndex
  {
  }

  lemma OutputIndexIsHandedOut(s: State, explicit: Option<int>, item: Item)
    requires ToolsOk(s) && SlotsHandedOut(s) && s.nextOutputIndex >= 0
    ensures var (s', slot) := OutputIndexFor(s, explicit, item);
      SlotsHandedOut(s') && ToolsOk(s') && 0 <= slot < s'.nextOutputIndex
  {
  }

  /** What an event that is not the last does to the slots and the stored items. */
  predicate StoresItems(s: State, event: Event, s': State)
    requires ToolsOk(s)
  {
    && !s'.terminal && SlotsHandedOut(s') && s'.nextOutputIndex >= 0
    && s'.nextOutputIndex ==
         (if Places(event) then OutputIndexFor(s, event.outputIndex, event.item.value).0.nextOutputIndex
          else s.nextOutputIndex)
    && s'.outputItems ==
         (if event.ItemDone? && event.item.Some? then s.outputItems[SlotFor(s, event) := event.item.value]
          else s.outputItems)
  }

  lemma ItemDonePlaces(s: State, item: Item, explicit: Option<int>, streaming: bool)
    requires ToolsOk(s) && SlotsHandedOut(s) && s.nextOutputIndex >= 0 && !s.terminal
    ensures StoresItems(s, ItemDone(Some(item), explicit), Apply(s, ItemDone(Some(item), explicit), streaming).0)
  {
    OutputIndexIsHandedOut(s, explicit, item);
    ApplyItemDone(s, item, explicit, streaming);
    var (s1, slot) := OutputIndexFor(s, explicit, item);
    var s2 := s1.(outputItems := s1.outputItems[slot := item]);
    OutputIndexStores(s, explicit, item);
    ReconcileItemKeepsSlots(s2, item, slot);
  }

  lemma ApplyItemDone(s: State, item: Item, explicit: Option<int>, streaming: bool)
    requires ToolsOk(s) && !s.terminal
    ensures var (s1, slot) := OutputIndexFor(s, explicit, item);
      var s2 := s1.(outputItems := s1.outputItems[slot := item]);
      ToolsOk(s2) &&
      Apply(s, ItemDone(Some(item), explicit), streaming).0 ==
        if streaming then ReconcileItem(s2, item, slot).0 else s2
  {
  }

  lemma ItemAddedPlaces(s: State, item: Item, explicit: Option<int>, streaming: bool)
    requires ToolsOk(s) && SlotsHandedOut(s) && s.nextOutputIndex >= 0 && !s.terminal
    ensures StoresItems(s, ItemAdded(Some(item), explicit), Apply(s, ItemAdded(Some(item), explicit), streaming).0)
  {
    if item.kind.FunctionCall? {
      OutputIndexIsHandedOut(s, explicit, item);
      var (s1, slot) := OutputIndexFor(s, explicit, item);
      EnsureKeepsSlots(s1, item, slot);
    }
  }

  lemma OtherEventPlaces(s: State, event: Event, streaming: bool)
    requires ToolsOk(s) && SlotsHandedOut(s) && s.nextOutputIndex >= 0
    requires !event.ItemDone? && !event.ItemAdded? && !event.Terminal? && Apply(s, event, streaming).1.Success?
    ensures StoresItems(s, event, Apply(s, event, streaming).0)
  {
    match event
    case ArgumentsDelta(target, delta) =>
      SetKeepsSlots(s, ToolFor(s, target), s.toolCalls[ToolFor(s, target)].arguments + delta.value);
    case ArgumentsDone(target, arguments) => SetKeepsSlots(s, ToolFor(s, target), arguments.value);
    case _ =>
  }

  lemma SetKeepsSlots(s: State, index: nat, arguments: string)
    requires ToolsOk(s) && SlotsHandedOut(s) && index < |s.toolCalls|
    ensures SlotsHandedOut(SetArguments(s, index, arguments))
  {
  }

  /** What an accepted event does to the slots and the stored items, in either mode. */
  lemma StepPlaces(s: State, event: Event, streaming: bool)
    requires ToolsOk(s) && SlotsHandedOut(s) && s.nextOutputIndex >= 0 && Apply(s, event, streaming).1.Success?
    ensures var s' := Apply(s, event, streaming).0;
      if event.Terminal? then s'.terminal && s'.outputItems == s.outputItems else StoresItems(s, event, s')
  {
    if event.Terminal? {
    } else if event.ItemDone? {
      ItemDonePlaces(s, event.item.value, event.outputIndex, streaming);
    } else if event.ItemAdded? {
      ItemAddedPlaces(s, event.item.value, event.outputIndex, streaming);
    } else {
      OtherEventPlaces(s, event, streaming);
    }
  }

  lemma {:induction false} RunHandsOutSlots(events: seq<Event>, streaming: bool)
    requires Process(events, streaming).Some?
    ensures var s := After(events, streaming);
      && (s.terminal <==> events != [] && events[|events| - 1].Terminal?)
      && (!s.terminal ==> SlotsHandedOut(s) && s.nextOutputIndex >= 0)
  {
    if events != [] {
      var init := events[..|events| - 1];
      RunHandsOutSlots(init, streaming);
      assert !After(init, streaming).terminal;
      StepPlaces(After(init, streaming), events[|events| - 1], streaming);
    }
  }

  lemma SlotMatchesRecord(s: State, w: State, event: Event)
    requires ToolsOk(s) && SlotsHandedOut(s) && ToolsOk(w) && SlotsHandedOut(w)
    requires s.nextOutputIndex == w.nextOutputIndex
    ensures SameSlot(s, w, event) <==> SameRecord(s, w, event)
    ensures SameSlot(s, w, event) && Places(event) ==>
      OutputIndexFor(s, event.outputIndex, event.item.value).0.nextOutputIndex ==
      OutputIndexFor(w, event.outputIndex, event.item.value).0.nextOutputIndex
  {
  }

  /** The modes hand out the same slots exactly when their tool tables agree on every item without a slot. */
  lemma {:induction false} SameSlotsIff(events: seq<Event>)
    requires BothAccept(events)
    ensures SameSlots(events) <==> SameRecords(events)
    ensures SameSlots(events) && !After(events, true).terminal ==>
      After(events, true).nextOutputIndex == After(events, false).nextOutputIndex
  {
    if events != [] {
      var init, last := events[..|events| - 1], events[|events| - 1];
      SameSlotsIff(init);
      RunHandsOutSlots(init, true);
      RunHandsOutSlots(init, false);
      if SameSlots(init) {
        SlotMatchesRecord(After(init, true), After(init, false), last);
      }
      StepPlaces(After(init, true), last, true);
      StepPlaces(After(init, false), last, false);
    }
  }

  lemma UpdatesAgreeIff(items: map<int, Item>, a: int, b: int, item: Item)
    ensures items[a := item] == items[b := item] <==>
      a == b || (Holds(items, a, item) && Holds(items, b, item))
  {
    if a != b && items[a := item] == items[b := item] {
      assert a in items[a := item] && b in items[b := item];
      assert items[a := item][a] == items[b := item][a] && items[a := item][b] == items[b := item][b];
    }
  }

  /**
   * The modes hold the same finished items throughout exactly when each item goes into the same slot in
   * both, or into two slots that hold it already.
   */
  lemma {:induction false} ModesAgreeOnItemsIff(events: seq<Event>)
    requires BothAccept(events)
    ensures SameItemsThroughout(events) <==> PlacedAlike(events)
  {
    if events != [] {
      var init, last := events[..|events| - 1], events[|events| - 1];
      ModesAgreeOnItemsIff(init);
      RunHandsOutSlots(init, true);
      RunHandsOutSlots(init, false);
      var s, w := After(init, true), After(init, false);
      StepPlaces(s, last, true);
      StepPlaces(w, last, false);
      if SameItemsThroughout(init) && last.ItemDone? {
        UpdatesAgreeIff(s.outputItems, SlotFor(s, last), SlotFor(w, last), last.item.value);
      }
    }
  }

  lemma {:induction false} SameSlotsPlaceAlike(events: seq<Event>)
    requires BothAccept(events) && SameSlots(events)
    ensures PlacedAlike(events)
  {
    if events != [] {
      SameSlotsPlaceAlike(events[..|events| - 1]);
    }
  }

  /** Tool tables that agree on every item without a slot leave both modes with the same items. */
  lemma ModesAgreeOnItems(events: seq<Event>)
    requires BothAccept(events) && SameRecords(events)
    ensures After(events, true).outputItems == After(events, false).outputItems
    ensures PlacedAlike(events)
  {
    SameSlotsIff(events);
    SameSlotsPlaceAlike(events);
    ModesAgreeOnItemsIff(events);
  }

  /** A run whose items all name their slots is of this kind. */
  lemma {:induction false} NamedSlotsSuffice(events: seq<Event>)
    requires BothAccept(events)
    requires forall i :: 0 <= i < |events| && Places(events[i]) ==> NamesSlot(events[i])
    ensures SameRecords(events)
  {
    if events != [] {
      NamedSlotsSuffice(events[..|events| - 1]);
    }
  }

  // ----- how the two modes end -----

  /** The run ended with a terminal event whose resolved output has a message or a tool call. */
  ghost predicate EndsWithOutput(events: seq<Event>)
    requires Process(events, true).Some?
  {
    && events != []
    && (var init, last := events[..|events| - 1], events[|events| - 1];
        && Process(init, true).Some?
        && last.Terminal? && last.response.Some?
        && HasOutput(Process(init, true).value.0, last.response.value))
  }

  /** The resolved output of a terminal event has a message or a tool call. */
  ghost predicate HasOutput(s: State, response: Response) {
    && ListedItems(response.output).Some?
    && var items := Resolved(ListedItems(response.output).value, s.outputItems);
       HasMessage(items) || ToolItems(items) != []
  }

  lemma StreamedTerminal(s: State, incomplete: bool, response: Response, items: seq<IndexedItem>)
    requires ToolsOk(s) && ListedItems(response.output).Some?
    requires items == Resolved(ListedItems(response.output).value, s.outputItems)
    requires HasMessage(items) || ToolItems(items) != []
    requires ApplyTerminal(s, incomplete, response, true).1.Success?
    ensures var s' := ApplyTerminal(s, incomplete, response, true).0;
      && s'.content == MessageText(items)
      && s'.finishReason == FinishReason(incomplete, response, s'.toolCalls)
      && (|s'.toolCalls| > 0 <==> ToolItems(items) != [])
  {
    AcceptedTerminalMatchesSnapshot(s, incomplete, response);
    var tools := ToolItems(items);
    SettledCount(CallsOf(s.(content := MessageText(items)), tools),
                 ApplyTerminal(s, incomplete, response, true).0.toolCalls, tools);
  }

  lemma SettledCount(owners: seq<nat>, calls: seq<ToolCall>, items: seq<IndexedItem>)
    requires |owners| == |items| && AllSettled(owners, calls, items)
    ensures |calls| > 0 <==> items != []
  {
    if items != [] {
      assert owners[0] < |calls|;
    }
  }

  lemma AggregatedTerminal(s: State, incomplete: bool, response: Response, items: seq<IndexedItem>)
    requires ToolsOk(s) && ListedItems(response.output).Some?
    requires items == Resolved(ListedItems(response.output).value, s.outputItems)
    requires HasMessage(items) || ToolItems(items) != []
    ensures var s' := ApplyTerminal(s, incomplete, response, false).0;
      && s'.content == MessageText(items)
      && s'.finishReason == FinishReason(incomplete, response, s'.toolCalls)
      && (|s'.toolCalls| > 0 <==> ToolItems(items) != [])
  {
    NoMessageNoText(items);
    var content := if HasMessage(items) then MessageText(items) else "";
    ReplacedTools(ResetTools(s.(content := content)), ToolItems(items));
  }

  /** From states that store the same items, a terminal event with output ends both modes alike. */
  lemma TerminalsAgree(s: State, w: State, incomplete: bool, response: Response)
    requires ToolsOk(s) && ToolsOk(w) && s.outputItems == w.outputItems
    ensures HasOutput(s, response) && ApplyTerminal(s, incomplete, response, true).1.Success? ==>
      var streamed := ApplyTerminal(s, incomplete, response, true).0;
      var whole := ApplyTerminal(w, incomplete, response, false).0;
      streamed.content == whole.content && streamed.finishReason == whole.finishReason
  {
    if HasOutput(s, response) && ApplyTerminal(s, incomplete, response, true).1.Success? {
      var items := Resolved(ListedItems(response.output).value, s.outputItems);
      StreamedTerminal(s, incomplete, response, items);
      AggregatedTerminal(w, incomplete, response, items);
    }
  }

  lemma EndedBy(events: seq<Event>, streaming: bool, incomplete: bool, response: Response)
    requires Process(events, streaming).Some?
    requires events != [] && events[|events| - 1] == Terminal(incomplete, Some(response))
    ensures var before := Process(events[..|events| - 1], streaming);
      && before.Some?
      && ApplyTerminal(before.value.0, incomplete, response, streaming).1.Success?
      && Process(events, streaming).value.0 == ApplyTerminal(before.value.0, incomplete, response, streaming).0
      && Process(events, streaming).value.0.terminal
  {
  }

  /** Both modes end with the same text and the same finish reason, on every run that both accept. */
  lemma ModesAgree(events: seq<Event>)
    ensures BothComplete(events) ==>
      var streamed, whole := Process(events, true).value.0, Process(events, false).value.0;
      && streamed.terminal && whole.terminal
      && streamed.content == whole.content && streamed.finishReason == whole.finishReason
  {
    if BothComplete(events) {
      var init, last := events[..|events| - 1], events[|events| - 1];
      ModesAgreeOnItemsIff(init);
      EndedBy(events, true, last.incomplete, last.response.value);
      EndedBy(events, false, last.incomplete, last.response.value);
      TerminalsAgree(
        Process(init, true).value.0, Process(init, false).value.0, last.incomplete, last.response.value);
    }
  }

  /** Both modes accept the run and place its items alike, and it ends with output. */
  ghost predicate BothComplete(events: seq<Event>) {
    BothAccept(events) && PlacedAlike(events) && EndsWithOutput(events)
  }

  // ----- what the client sees, stop sequences included -----

  /** finalFinishReason. */
  function FinalFinishReason(s: State, stopped: bool): string {
    if stopped then "stop"
    else if s.finishReason != "" then s.finishReason
    else if |s.toolCalls| > 0 then "tool_calls"
    else "stop"
  }

  /** Whether the filter stopped the stream. */
  ghost function StreamStopped(stops: seq<string>, deltas: seq<string>): bool {
    StopFilter.Pushes(stops, deltas).0.stopped
  }

  lemma StoppedIffTextHasStop(stops: seq<string>, deltas: seq<string>)
    ensures StreamStopped(stops, deltas) <==> StopFilter.HasStop(StopFilter.Concat(deltas), stops)
  {
    StopFilter.PushesTrack(stops, deltas);
    StopFilter.ReceivedIsPrefix(stops, deltas);
    var short, long := StopFilter.Received(stops, deltas), StopFilter.Concat(deltas);
    if StopFilter.HasStop(short, stops) {
      StopFilter.StopStaysInLonger(stops, short, long, StopFilter.FirstStop(short, stops));
    }
  }

  /**
   * With stop sequences that do not interrupt each other, a streaming client assembles the very text
   * that an aggregate client is sent, and both are told the same finish reason: the run's, or a stop.
   */
  lemma ClientsAgree(events: seq<Event>, stops: seq<string>)
    ensures BothComplete(events) && StopFilter.Uninterrupted(stops) ==>
      var (streamed, updates) := Process(events, true).value;
      var whole := Process(events, false).value.0;
      var deltas := Contents(updates);
      && StopFilter.Output(stops, deltas) == StopFilter.BeforeStop(whole.content, stops)
      && FinalFinishReason(streamed, StreamStopped(stops, deltas))
           == FinalFinishReason(whole, StopFilter.HasStop(whole.content, stops))
           == (if StopFilter.HasStop(whole.content, stops) then "stop" else whole.finishReason)
  {
    if BothComplete(events) && StopFilter.Uninterrupted(stops) {
      ModesAgree(events);
      StreamedIsStored(events);
      var (streamed, updates) := Process(events, true).value;
      var deltas := Contents(updates);
      StopFilter.UninterruptedSuffices(stops, deltas);
      StoppedIffTextHasStop(stops, deltas);
      var whole := Process(events, false).value.0;
      EndedRunsHaveReason(events, true);
      EndedRunsHaveReason(events, false);
      assert streamed.finishReason == whole.finishReason != "";
    }
  }

  lemma EndedRunsHaveReason(events: seq<Event>, streaming: bool)
    requires Process(events, streaming).Some? && Process(events, streaming).value.0.terminal
    requires events != [] && events[|events| - 1].Terminal?
    ensures Process(events, streaming).value.0.finishReason != ""
  {
  }

  // ----- a run on which the modes differ -----

  lemma ProcessNext(init: seq<Event>, last: Event, streaming: bool)
    requires Process(init, streaming).Some? && Apply(After(init, streaming), last, streaming).1.Success?
    ensures Process(init + [last], streaming).Some?
    ensures After(init + [last], streaming) == Apply(After(init, streaming), last, streaming).0
  {
    assert (init + [last])[..|init|] == init;
  }

  /** A function call that its tool table can find again, and a message that names nothing. */
  predicate CallAndText(call: Item, message: Item) {
    && call.kind.FunctionCall? && call.id != ""
    && message.kind.Message? && message.id == "" && message.callId == "" && message.outputIndex.None?
    && message.text != ""
  }

  /** The streaming machine after the call was reported done in slot 0. */
  predicate StreamedCall(s: State, call: Item) {
    && ToolsOk(s) && !s.terminal && s.content == "" && s.nextOutputIndex == 1 && s.outputItems == map[0 := call]
    && |s.toolCalls| == 1 && s.toolCalls[0].outputIndex == 0 && s.toolCalls[0].arguments == call.arguments
    && call.id in s.byItem && s.byItem[call.id] == 0
  }

  lemma FirstStreamedCall(call: Item)
    requires call.kind.FunctionCall? && call.id != ""
    ensures var (s, update) := Apply(INITIAL, ItemDone(Some(call), None), true);
      update.Success? && StreamedCall(s, call)
  {
    assert LookupTool(INITIAL, call) == -1;
    ApplyItemDone(INITIAL, call, None, true);
  }

  lemma AgainStreamedCall(s: State, call: Item)
    requires call.kind.FunctionCall? && call.id != "" && StreamedCall(s, call)
    ensures var (s', update) := Apply(s, ItemDone(Some(call), None), true);
      update.Success? && StreamedCall(s', call)
  {
    assert LookupTool(s, call) == 0;
    assert OutputIndexFor(s, None, call) == (s, 0);
    var s2 := s.(outputItems := s.outputItems[0 := call]);
    assert Ensure(s2, call, 0).1 == 0 && !Ensure(s2, call, 0).2;
  }

  lemma StreamedText(s: State, call: Item, message: Item)
    requires CallAndText(call, message) && StreamedCall(s, call)
    ensures var (s', update) := Apply(s, ItemDone(Some(message), None), true);
      && update.Success?
      && s' == s.(content := message.text, nextOutputIndex := 2, outputItems := map[0 := call, 1 := message])
  {
    assert LookupTool(s, message) == -1;
  }

  /** What a terminal event that lists the call and the message resolves to. */
  lemma ResolvedPair(call: Item, message: Item, stored: map<int, Item>)
    requires CallAndText(call, message) && stored == map[0 := call, 1 := message]
    ensures var items := Resolved([call, message], stored);
      HasMessage(items) && MessageText(items) == message.text && ToolItems(items) == [IndexedItem(0, call)]
  {
    ResolvedIs(2, [call, message], stored);
    var first, second := IndexedItem(0, call), IndexedItem(1, message);
    assert ResolvedUpTo(1, [call, message], stored) == [first];
    assert ResolvedUpTo(2, [call, message], stored) == [first, second];
    assert [first, second][1].item.kind.Message?;
    assert [first, second][..1] == [first] && [first][..0] == [];
    assert MessageText([first]) == "" && ToolItems([first][..0]) + [first] == [first];
  }

  lemma ResolvedTriple(call: Item, message: Item, stored: map<int, Item>)
    requires CallAndText(call, message) && stored == map[0 := call, 1 := call, 2 := message]
    ensures var items := Resolved([call, message], stored);
      HasMessage(items) && MessageText(items) == message.text + message.text
  {
    ResolvedIs(3, [call, message], stored);
    var first, second, third := IndexedItem(0, call), IndexedItem(1, message), IndexedItem(2, message);
    assert ResolvedUpTo(1, [call, message], stored) == [first];
    assert ResolvedUpTo(2, [call, message], stored) == [first, second];
    assert ResolvedUpTo(3, [call, message], stored) == [first, second, third];
    assert [first, second, third][1].item.kind.Message?;
    assert [first, second, third][..2] == [first, second];
    assert [first, second][..1] == [first] && [first][..0] == [];
    assert MessageText([first]) == "" && MessageText([first, second]) == message.text;
  }

  lemma ReconcileOneCall(s: State, call: Item)
    requires call.kind.FunctionCall? && call.id != "" && ToolsOk(s)
    requires |s.toolCalls| == 1 && s.toolCalls[0].arguments == call.arguments
    requires call.id in s.byItem && s.byItem[call.id] == 0
    ensures var (s', r) := ReconcileTools(s, [IndexedItem(0, call)]);
      r.Success? && r.value.settled == {0} && |s'.toolCalls| == 1 && s'.content == s.content
  {
    var last := IndexedItem(0, call);
    assert [last][..0] == [];
    assert LookupTool(s, call) == 0;
    SettledIsEnsured(s, last);
  }

  function EndListing(call: Item, message: Item): Response {
    Response(Listed([Some(call), Some(message)]), "")
  }

  lemma StreamedEnd(s: State, call: Item, message: Item)
    requires CallAndText(call, message) && ToolsOk(s) && !s.terminal && s.content == message.text
    requires s.outputItems == map[0 := call, 1 := message]
    requires |s.toolCalls| == 1 && s.toolCalls[0].arguments == call.arguments
    requires call.id in s.byItem && s.byItem[call.id] == 0
    ensures var (s', update) := Apply(s, Terminal(false, Some(EndListing(call, message))), true);
      update.Success? && s'.content == message.text
  {
    ListedPair(call, message);
    ResolvedPair(call, message, s.outputItems);
    ReconcileOneCall(s, call);
    var items := Resolved([call, message], s.outputItems);
    assert ReconcileMessage(s, items).0 == s;
  }

  lemma ListedPair(call: Item, message: Item)
    ensures ListedItems(EndListing(call, message).output) == Some([call, message])
  {
    var items := [Some(call), Some(message)];
    assert forall i :: 0 <= i < |items| ==> items[i].Some?;
    assert ListedItems(Listed(items)).value == [call, message];
  }

  lemma AggregatedItem(w: State, item: Item)
    requires ToolsOk(w) && !w.terminal && w.byItem == map[] && w.byCall == map[] && w.byOutput == map[]
    ensures Apply(w, ItemDone(Some(item), None), false) ==
      (w.(outputItems := w.outputItems[w.nextOutputIndex := item], nextOutputIndex := w.nextOutputIndex + 1),
       Success(SILENT))
  {
    assert LookupTool(w, item) == -1;
  }

  /** Aggregate mode refuses no terminal event whose output it can decode. */
  lemma AggregateAccepts(w: State, incomplete: bool, response: Response)
    requires ToolsOk(w) && !w.terminal && ListedItems(response.output).Some?
    ensures Apply(w, Terminal(incomplete, Some(response)), false) == ApplyTerminal(w, incomplete, response, false)
    ensures ApplyTerminal(w, incomplete, response, false).1.Success?
  {
  }

  lemma AggregatedEnd(w: State, call: Item, message: Item)
    requires CallAndText(call, message) && ToolsOk(w) && !w.terminal
    requires w.outputItems == map[0 := call, 1 := call, 2 := message]
    ensures var (w', update) := Apply(w, Terminal(false, Some(EndListing(call, message))), false);
      update.Success? && w'.content == message.text + message.text
  {
    ListedPair(call, message);
    ResolvedTriple(call, message, w.outputItems);
    AggregateAccepts(w, false, EndListing(call, message));
    AggregatedTerminal(w, false, EndListing(call, message), Resolved([call, message], w.outputItems));
  }

  lemma StreamedRun(call: Item, message: Item)
    requires CallAndText(call, message)
    ensures var done, said := ItemDone(Some(call), None), ItemDone(Some(message), None);
      var events := [done, done, said, Terminal(false, Some(EndListing(call, message)))];
      Process(events, true).Some? && After(events, true).content == message.text
  {
    var done, said := ItemDone(Some(call), None), ItemDone(Some(message), None);
    var end := Terminal(false, Some(EndListing(call, message)));
    assert Process([], true).Some? && After([], true) == INITIAL;
    FirstStreamedCall(call);
    ProcessNext([], done, true);
    AgainStreamedCall(After([] + [done], true), call);
    ProcessNext([] + [done], done, true);
    StreamedText(After([] + [done] + [done], true), call, message);
    ProcessNext([] + [done] + [done], said, true);
    StreamedEnd(After([] + [done] + [done] + [said], true), call, message);
    ProcessNext([] + [done] + [done] + [said], end, true);
    assert [] + [done] + [done] + [said] + [end] == [done, done, said, end];
  }

  lemma AggregatedRun(call: Item, message: Item)
    requires CallAndText(call, message)
    ensures var done, said := ItemDone(Some(call), None), ItemDone(Some(message), None);
      var events := [done, done, said, Terminal(false, Some(EndListing(call, message)))];
      Process(events, false).Some? && After(events, false).content == message.text + message.text
  {
    var done, said := ItemDone(Some(call), None), ItemDone(Some(message), None);
    var end := Terminal(false, Some(EndListing(call, message)));
    assert Process([], false).Some? && After([], false) == INITIAL;
    AggregatedItem(INITIAL, call);
    ProcessNext([], done, false);
    AggregatedItem(After([] + [done], false), call);
    ProcessNext([] + [done], done, false);
    AggregatedItem(After([] + [done] + [done], false), message);
    ProcessNext([] + [done] + [done], said, false);
    AggregatedEnd(After([] + [done] + [done] + [said], false), call, message);
    ProcessNext([] + [done] + [done] + [said], end, false);
    assert [] + [done] + [done] + [said] + [end] == [done, done, said, end];
  }

  /**
   * A call reported done twice without a slot, then a message: both modes accept the run, streaming ends
   * with the message's text, and aggregate mode with that text twice.
   */
  lemma ImplicitSlotsDiffer(call: Item, message: Item)
    requires CallAndText(call, message)
    ensures var done, said := ItemDone(Some(call), None), ItemDone(Some(message), None);
      var events := [done, done, said, Terminal(false, Some(EndListing(call, message)))];
      && BothAccept(events)
      && After(events, true).content == message.text && After(events, false).content == message.text + message.text
      && After(events, true).content != After(events, false).content
  {
    StreamedRun(call, message);
    AggregatedRun(call, message);
    assert |message.text + message.text| > |message.text|;
  }

  lemma AddedCall(call: Item, slot: nat, streaming: bool)
    requires call.kind.FunctionCall? && call.id != ""
    ensures var (s, update) := Apply(INITIAL, ItemAdded(Some(call), Some(slot)), streaming);
      && update.Success? && ToolsOk(s) && !s.terminal && |s.toolCalls| == 1
      && s.toolCalls[0].outputIndex == slot && s.toolCalls[0].arguments == ""
      && call.id in s.byItem && s.byItem[call.id] == 0
  {
    var s1 := OutputIndexFor(INITIAL, Some(slot), call).0;
    assert LookupTool(s1, call) == -1;
  }

  lemma DoneCall(s: State, call: Item, slot: nat, streaming: bool)
    requires call.kind.FunctionCall? && call.id != ""
    requires ToolsOk(s) && !s.terminal && |s.toolCalls| == 1 && s.toolCalls[0].arguments == ""
    requires call.id in s.byItem && s.byItem[call.id] == 0 && s.toolCalls[0].outputIndex >= 0
    ensures var (s', update) := Apply(s, ItemDone(Some(call), Some(slot)), streaming);
      update.Success? && RecordedSlot(s', call) == if streaming then Some(slot) else Some(s.toolCalls[0].outputIndex)
  {
    ApplyItemDone(s, call, Some(slot), streaming);
    var s1 := OutputIndexFor(s, Some(slot), call).0;
    var s2 := s1.(outputItems := s1.outputItems[slot := call]);
    if streaming {
      KnownCallIsMoved(s2, call, slot);
    }
  }

  lemma KnownCallIsMoved(s: State, call: Item, slot: nat)
    requires call.kind.FunctionCall? && call.id != ""
    requires ToolsOk(s) && |s.toolCalls| == 1 && s.toolCalls[0].arguments == ""
    requires call.id in s.byItem && s.byItem[call.id] == 0
    ensures var (s', update) := ReconcileItem(s, call, slot);
      update.Success? && RecordedSlot(s', call) == Some(slot)
  {
    assert LookupTool(s, call) == 0;
    var s1 := Ensure(s, call, slot).0;
    assert Ensure(s, call, slot).1 == 0 && !Ensure(s, call, slot).2 && s1.toolCalls[0].arguments == "";
  }

  /** Being known to both tool tables is not enough: an item added in one slot and done in another. */
  lemma KnownToBothCanDiffer(call: Item, added: nat, done: nat)
    requires call.kind.FunctionCall? && call.id != "" && added != done
    ensures var events := [ItemAdded(Some(call), Some(added)), ItemDone(Some(call), Some(done))];
      && BothAccept(events)
      && RecordedSlot(After(events, true), call) == Some(done)
      && RecordedSlot(After(events, false), call) == Some(added)
  {
    var first, second := ItemAdded(Some(call), Some(added)), ItemDone(Some(call), Some(done));
    assert [] + [first] + [second] == [first, second];
    AddedCall(call, added, true);
    ProcessNext([], first, true);
    DoneCall(After([] + [first], true), call, done, true);
    ProcessNext([] + [first], second, true);
    AddedCall(call, added, false);
    ProcessNext([], first, false);
    DoneCall(After([] + [first], false), call, done, false);
    ProcessNext([] + [first], second, false);
  }
}
