// What the events of a chat run say, told from the events alone: the text they add up to, the call an
// argument belongs to, the reason a run ends with, and which runs are accepted at all
// (internal/codexonly/chat_completions.go).

module ChatEvents {
  import opened Wrappers
  import opened ChatStream

  // ----- text -----

  /** The text that the events of an unfinished run add up to. Aggregate mode looks at items only at the end. */
  function SpokenText(events: seq<Event>, streaming: bool): string {
    if events == [] then []
    else
      var before := SpokenText(events[..|events| - 1], streaming);
      match events[|events| - 1]
      case TextDelta(Some(delta)) => before + delta
      case TextDone(text) => text
      case ItemDone(Some(item), _) => if streaming && item.kind.Message? then item.text else before
      case _ => before
  }

  lemma ReconciledTextIsSnapshot(s: State, snapshot: string, streaming: bool)
    requires ToolsOk(s)
    ensures var (s', delta) := ReconcileText(s, snapshot, streaming);
      delta.Success? ==> s'.content == snapshot
    ensures ReconcileText(s, snapshot, true).1.Success? <==> s.content <= snapshot
  {
  }

  lemma StepSpeaks(s: State, event: Event, streaming: bool)
    requires ToolsOk(s) && Apply(s, event, streaming).1.Success? && !event.Terminal?
    ensures Apply(s, event, streaming).0.content ==
      match event
      case TextDelta(delta) => s.content + delta.value
      case TextDone(text) => text
      case ItemDone(item, _) => if streaming && item.value.kind.Message? then item.value.text else s.content
      case _ => s.content
  {
    match event
    case ItemAdded(Some(item), explicit) =>
      if item.kind.FunctionCall? {
        OutputIndexStores(s, explicit, item);
      }
    case ItemDone(Some(item), explicit) => ItemDoneSpeaks(s, item, explicit, streaming);
    case _ =>
  }

  lemma ItemDoneSpeaks(s: State, item: Item, explicit: Option<int>, streaming: bool)
    requires ToolsOk(s) && !s.terminal
    ensures var (s', update) := Apply(s, ItemDone(Some(item), explicit), streaming);
      update.Success? ==> s'.content == if streaming && item.kind.Message? then item.text else s.content
  {
    OutputIndexStores(s, explicit, item);
    if item.kind.FunctionCall? {
      var (s1, slot) := OutputIndexFor(s, explicit, item);
      ToolKeepsContent(s1.(outputItems := s1.outputItems[slot := item]), item, slot);
    }
  }

  lemma ToolKeepsContent(s: State, item: Item, slot: int)
    requires ToolsOk(s)
    ensures ReconcileTool(s, item, slot).0.content == s.content
  {
  }

  /** Until it ends, a run's content is the text that its events add up to. */
  lemma {:induction false} ContentIsSpoken(events: seq<Event>, streaming: bool)
    requires Process(events, streaming).Some?
    ensures var s := Process(events, streaming).value.0;
      !s.terminal ==> s.content == SpokenText(events, streaming)
  {
    if events != [] {
      var init, last := events[..|events| - 1], events[|events| - 1];
      ContentIsSpoken(init, streaming);
      var s := Process(init, streaming).value.0;
      if !last.Terminal? {
        StepSpeaks(s, last, streaming);
      }
    }
  }

  /** A text event of a kind that repeats what was said. */
  predicate RepeatsText(event: Event, streaming: bool) {
    event.TextDone? || (streaming && event.ItemDone? && event.item.Some? && event.item.value.kind.Message?)
  }

  /** All text deltas, in order. */
  function TextDeltas(events: seq<Event>): string {
    if events == [] then []
    else
      TextDeltas(events[..|events| - 1]) + TextOf(events[|events| - 1])
  }

  lemma {:induction false} OnlyDeltasSpeak(events: seq<Event>, streaming: bool)
    requires forall i :: 0 <= i < |events| ==> !RepeatsText(events[i], streaming)
    ensures SpokenText(events, streaming) == TextDeltas(events)
  {
    if events != [] {
      assert !RepeatsText(events[|events| - 1], streaming);
      OnlyDeltasSpeak(events[..|events| - 1], streaming);
    }
  }

  /** The text that an event brings by itself. */
  function TextOf(event: Event): string {
    if event.TextDelta? && event.delta.Some? then event.delta.value else []
  }

  /** Update `i` of a run is exactly the text of event `i`, unless that repeats text or ends the run. */
  predicate PassedOn(events: seq<Event>, updates: seq<Update>, i: nat, streaming: bool)
    requires i < |events| == |updates|
  {
    !RepeatsText(events[i], streaming) && !events[i].Terminal? ==>
      updates[i].content == TextOf(events[i]) && (events[i].TextDelta? ==> updates[i].tools == [])
  }

  lemma LastStep(events: seq<Event>, streaming: bool)
    requires events != [] && Process(events, streaming).Some?
    ensures Process(events[..|events| - 1], streaming).Some?
    ensures var (s, updates) := Process(events[..|events| - 1], streaming).value;
      var (s', update) := Apply(s, events[|events| - 1], streaming);
      update.Success? && Process(events, streaming).value == (s', updates + [update.value])
  {
  }

  lemma TextIsSent(s: State, event: Event, streaming: bool)
    requires ToolsOk(s) && Apply(s, event, streaming).1.Success?
    requires !RepeatsText(event, streaming) && !event.Terminal?
    ensures Apply(s, event, streaming).1.value.content == TextOf(event)
    ensures event.TextDelta? ==> Apply(s, event, streaming).1.value.tools == []
  {
  }

  /** An accepted run answers each event with one update, which carries the event's own text. */
  lemma {:induction false} DeltasAreSent(events: seq<Event>, streaming: bool)
    requires Process(events, streaming).Some?
    ensures var updates := Process(events, streaming).value.1;
      |updates| == |events| && forall i :: 0 <= i < |events| ==> PassedOn(events, updates, i, streaming)
  {
    if events != [] {
      var n := |events| - 1;
      LastStep(events, streaming);
      DeltasAreSent(events[..n], streaming);
      var (s, before) := Process(events[..n], streaming).value;
      var updates := Process(events, streaming).value.1;
      forall i | 0 <= i < |events|
        ensures PassedOn(events, updates, i, streaming)
      {
        if i < n {
          assert PassedOn(events[..n], before, i, streaming);
        } else if !RepeatsText(events[n], streaming) && !events[n].Terminal? {
          TextIsSent(s, events[n], streaming);
        }
      }
    }
  }

  // ----- arguments -----

  /** The deltas among the events whose target names call `i`. */
  function ArgumentsFor(s: State, events: seq<Event>, i: nat): string
    requires ToolsOk(s)
  {
    if events == [] then []
    else
      ArgumentsFor(s, events[..|events| - 1], i) +
      match events[|events| - 1]
      case ArgumentsDelta(target, Some(delta)) => if ToolFor(s, target) == i then delta else []
      case _ => []
  }

  /** Only the content and the arguments of the calls may differ. */
  predicate SameCallNames(s: State, s': State) {
    && s'.byItem == s.byItem && s'.byCall == s.byCall && s'.byOutput == s.byOutput && s'.current == s.current
    && |s'.toolCalls| == |s.toolCalls|
    && forall i :: 0 <= i < |s.toolCalls| ==> s'.toolCalls[i].(arguments := s.toolCalls[i].arguments) == s.toolCalls[i]
  }

  lemma SameNamesSameTool(s: State, s': State, target: Target)
    requires ToolsOk(s) && ToolsOk(s') && SameCallNames(s, s')
    ensures ToolFor(s', target) == ToolFor(s, target)
  {
    SameNamesSameIds(s, s', target.ids);
  }

  lemma {:induction false} SameNamesSameIds(s: State, s': State, ids: seq<string>)
    requires ToolsOk(s) && ToolsOk(s') && SameCallNames(s, s')
    ensures ToolForIds(s', ids) == ToolForIds(s, ids)
  {
    if ids != [] {
      SameNamesSameIds(s, s', ids[1..]);
    }
  }

  lemma DeltaExtendsItsCall(s: State, target: Target, delta: Option<string>, streaming: bool)
    requires ToolsOk(s) && !s.terminal
    ensures var (s', update) := Apply(s, Event.ArgumentsDelta(target, delta), streaming);
      var i := ToolFor(s, target);
      && (update.Success? <==> delta.Some? && i >= 0)
      && (update.Success? ==>
            && s'.content == s.content && SameCallNames(s, s')
            && s'.toolCalls[i].arguments == s.toolCalls[i].arguments + delta.value
            && (forall j :: 0 <= j < |s.toolCalls| && j != i ==> s'.toolCalls[j] == s.toolCalls[j])
            && update.value == Update("", [ToolDelta.ArgumentsDelta(i, delta.value)]))
  {
  }

  predicate IsDelta(event: Event) {
    event.TextDelta? || event.ArgumentsDelta?
  }

  /** From `s` to `s'`, the deltas were added to the content and to the calls that they name. */
  ghost predicate AddedUp(s: State, s': State, deltas: seq<Event>)
    requires ToolsOk(s)
  {
    && s'.content == s.content + TextDeltas(deltas) && SameCallNames(s, s')
    && forall i :: 0 <= i < |s.toolCalls| ==>
         s'.toolCalls[i].arguments == s.toolCalls[i].arguments + ArgumentsFor(s, deltas, i)
  }

  lemma OneMoreText(s: State, mid: State, deltas: seq<Event>, delta: string)
    requires ToolsOk(s) && ToolsOk(mid) && AddedUp(s, mid, deltas)
    ensures AddedUp(s, mid.(content := mid.content + delta), deltas + [TextDelta(Some(delta))])
  {
    var more := deltas + [TextDelta(Some(delta))];
    assert more[..|more| - 1] == deltas;
    assert s.content + TextDeltas(deltas) + delta == s.content + (TextDeltas(deltas) + delta);
  }

  lemma OneMoreArgument(s: State, mid: State, deltas: seq<Event>, target: Target, delta: string)
    requires ToolsOk(s) && ToolsOk(mid) && AddedUp(s, mid, deltas) && ToolFor(mid, target) >= 0
    ensures var i := ToolFor(mid, target);
      AddedUp(s, SetArguments(mid, i, mid.toolCalls[i].arguments + delta),
              deltas + [Event.ArgumentsDelta(target, Some(delta))])
  {
    var more := deltas + [Event.ArgumentsDelta(target, Some(delta))];
    assert more[..|more| - 1] == deltas;
    SameNamesSameTool(s, mid, target);
    var k := ToolFor(mid, target);
    var s' := SetArguments(mid, k, mid.toolCalls[k].arguments + delta);
    SetKeepsNames(s, mid, k, mid.toolCalls[k].arguments + delta);
    forall i | 0 <= i < |s.toolCalls|
      ensures s'.toolCalls[i].arguments == s.toolCalls[i].arguments + ArgumentsFor(s, more, i)
    {
      assert ArgumentsFor(s, more, i) == ArgumentsFor(s, deltas, i) + if i == k then delta else [];
    }
  }

  lemma SetKeepsNames(s: State, mid: State, k: nat, arguments: string)
    requires ToolsOk(mid) && k < |mid.toolCalls| && SameCallNames(s, mid)
    ensures var s' := SetArguments(mid, k, arguments);
      && SameCallNames(s, s') && s'.content == mid.content && s'.toolCalls[k].arguments == arguments
      && forall i :: 0 <= i < |s.toolCalls| && i != k ==> s'.toolCalls[i] == mid.toolCalls[i]
  {
  }

  lemma DeltaAppends(s: State, event: Event, streaming: bool)
    requires ToolsOk(s) && IsDelta(event) && Apply(s, event, streaming).1.Success?
    ensures event.delta.Some?
    ensures event.ArgumentsDelta? ==> ToolFor(s, event.target) >= 0
    ensures Apply(s, event, streaming).0 ==
      if event.TextDelta? then s.(content := s.content + event.delta.value)
      else
        var i := ToolFor(s, event.target);
        SetArguments(s, i, s.toolCalls[i].arguments + event.delta.value)
  {
  }

  /**
   * A run goes on with deltas only: each adds to the content, or to the arguments of the call that its
   * target names and to no other's.
   */
  lemma {:induction false} DeltasAddUp(first: seq<Event>, deltas: seq<Event>, streaming: bool)
    requires forall i :: 0 <= i < |deltas| ==> IsDelta(deltas[i])
    requires Process(first + deltas, streaming).Some?
    ensures Process(first, streaming).Some?
    ensures AddedUp(Process(first, streaming).value.0, Process(first + deltas, streaming).value.0, deltas)
  {
    if deltas == [] {
      assert first + deltas == first;
    } else {
      var init, last := deltas[..|deltas| - 1], deltas[|deltas| - 1];
      assert (first + deltas)[..|first + deltas| - 1] == first + init && deltas == init + [last];
      LastStep(first + deltas, streaming);
      DeltasAddUp(first, init, streaming);
      var s, mid := Process(first, streaming).value.0, Process(first + init, streaming).value.0;
      assert IsDelta(last);
      DeltaAppends(mid, last, streaming);
      if last.ArgumentsDelta? {
        OneMoreArgument(s, mid, init, last.target, last.delta.value);
      } else {
        OneMoreText(s, mid, init, last.delta.value);
      }
    }
  }

  // ----- names -----

  /** Targets that name a call by its item ID, else by its call ID, else by its slot, else by being the last. */
  predicate Names(target: Target, item: Item, slot: int) {
    || (target.ids != [] && target.ids[0] == item.id != "")
    || (target.ids == [] && target.callId == CallIdOf(item) != "")
    || (target.ids == [] && target.callId == "" && (target.outputIndex == Some(slot) || target.outputIndex.None?))
  }

  lemma EnsuredIsNamed(s: State, item: Item, slot: int, target: Target)
    requires ToolsOk(s) && slot >= 0 && Names(target, item, slot)
    ensures var (s', index, _) := Ensure(s, item, slot); ToolFor(s', target) == index
  {
  }

  /** The call ID that a client is told for an item: its own, else the item's ID, else one made up. */
  function ToldId(item: Item, index: nat): string {
    if item.callId != "" then item.callId else if item.id != "" then item.id else FallbackId(index)
  }

  /** An item that no table knows opens a call at the end of the list. */
  lemma UnknownItemOpensCall(s: State, item: Item, slot: int)
    requires ToolsOk(s) && slot >= 0 && LookupTool(s, item) < 0 && slot !in s.byOutput
    ensures var (s', index, created) := Ensure(s, item, slot);
      && created && index == |s.toolCalls| && s'.toolCalls[..index] == s.toolCalls && |s'.toolCalls| == index + 1
      && s'.toolCalls[index] == ToolCall(ToldId(item, index), item.id, item.name, slot, "")
  {
  }

  /**
   * An added function call that is not known yet opens a call with the item's ID, name and slot, which the
   * client is told at once; from then on targets with any of its names name it.
   */
  lemma AddedCallIsNamed(s: State, item: Item, explicit: Option<int>, streaming: bool, target: Target)
    requires ToolsOk(s) && !s.terminal && item.kind.FunctionCall? && s.nextOutputIndex >= 0
    requires var slot := OutputIndexFor(s, explicit, item).1;
      LookupTool(s, item) < 0 && slot !in s.byOutput && Names(target, item, slot)
    ensures var (s', update) := Apply(s, ItemAdded(Some(item), explicit), streaming);
      var index, slot := |s.toolCalls|, OutputIndexFor(s, explicit, item).1;
      && update == Success(Update("", [InitialDelta(index, ToldId(item, index), item.name, "")]))
      && s'.toolCalls == s.toolCalls + [ToolCall(ToldId(item, index), item.id, item.name, slot, "")]
      && ToolFor(s', target) == index && s'.content == s.content
  {
    ApplyItemAdded(s, item, explicit, streaming);
    var (s1, slot) := OutputIndexFor(s, explicit, item);
    EnsuredIsNamed(s1, item, slot, target);
    UnknownItemOpensCall(s1, item, slot);
    var s2 := Ensure(s1, item, slot).0;
    assert s2.toolCalls == s2.toolCalls[..|s.toolCalls|] + [s2.toolCalls[|s.toolCalls|]];
  }

  lemma ApplyItemAdded(s: State, item: Item, explicit: Option<int>, streaming: bool)
    requires ToolsOk(s) && !s.terminal && item.kind.FunctionCall? && s.nextOutputIndex >= 0
    ensures var (s1, slot) := OutputIndexFor(s, explicit, item);
      && ToolsOk(s1) && s1 == s.(nextOutputIndex := s1.nextOutputIndex)
      && LookupTool(s1, item) == LookupTool(s, item) && (LookupTool(s, item) < 0 ==> slot >= 0)
      && var (s2, index, created) := Ensure(s1, item, slot);
         Apply(s, ItemAdded(Some(item), explicit), streaming) ==
           (s2, Success(if created then Update("", [InitialDeltaOf(s2, index)]) else SILENT))
         && s2.content == s.content
  {
    OutputIndexStores(s, explicit, item);
  }

  /** An item that is on record under its ID is that call, whatever its call ID and slot are on record for. */
  lemma ItemIdComesFirst(s: State, item: Item, slot: int)
    requires ToolsOk(s) && item.id != "" && item.id in s.byItem
    ensures var (_, index, created) := Ensure(s, item, slot); index == s.byItem[item.id] && !created
  {
  }

  /** Two items in one slot are one call, unless the second is on record as another. */
  lemma OneCallPerSlot(s: State, item: Item, other: Item, slot: int)
    requires ToolsOk(s) && slot >= 0 && LookupTool(Ensure(s, item, slot).0, other) < 0
    ensures var (s', index, _) := Ensure(s, item, slot);
      Ensure(s', other, slot).1 == index && !Ensure(s', other, slot).2
  {
  }

  /** Of the item IDs that a target names, the first one on record counts. */
  lemma {:induction false} FirstKnownIdCounts(s: State, ids: seq<string>, k: nat)
    requires ToolsOk(s) && k < |ids| && ids[k] != "" && ids[k] in s.byItem
    requires forall j :: 0 <= j < k ==> ids[j] == "" || ids[j] !in s.byItem
    ensures ToolForIds(s, ids) == s.byItem[ids[k]]
  {
    if k > 0 {
      FirstKnownIdCounts(s, ids[1..], k - 1);
    }
  }

  /** What a number's digits stand for. */
  function ValueOf(digits: string): int {
    if |digits| == 0 then 0
    else ValueOf(digits[..|digits| - 1]) * 10 + (digits[|digits| - 1] as int - '0' as int)
  }

  lemma {:induction false} DecimalReadsBack(n: nat)
    ensures ValueOf(Decimal(n)) == n
  {
    var digits := Decimal(n);
    if n < 10 {
      assert digits[..0] == [];
    } else {
      DecimalReadsBack(n / 10);
      assert digits[..|digits| - 1] == Decimal(n / 10);
    }
  }

  /** Calls without any ID are told apart by their number. */
  lemma FallbackIdsDiffer(m: nat, n: nat)
    ensures FallbackId(n)[..5] == "call_" && (FallbackId(m) == FallbackId(n) ==> m == n)
  {
    DecimalReadsBack(m);
    DecimalReadsBack(n);
    assert FallbackId(m)[5..] == Decimal(m) && FallbackId(n)[5..] == Decimal(n);
  }

  // ----- accepted runs -----

  /** Events that no state accepts. */
  predicate NeverAccepted(event: Event) {
    match event
    case Malformed => true
    case Failed => true
    case Created(hasResponse) => !hasResponse
    case TextDelta(delta) => delta.None?
    case ItemAdded(item, _) => item.None?
    case ItemDone(item, _) => item.None?
    case ArgumentsDelta(_, delta) => delta.None?
    case ArgumentsDone(_, arguments) => arguments.None?
    case Terminal(_, response) => response.None? || ListedItems(response.value.output).None?
    case _ => false
  }

  /** Why a state refuses an event, if it does. */
  predicate IsCause(error: ChatStream.Failure, s: State, event: Event, streaming: bool)
    requires ToolsOk(s)
  {
    match error
    case MalformedEvent =>
      event.Malformed? || (!s.terminal && NeverAccepted(event) && !event.Failed?) || (!s.terminal && NamesNoCall(s, event))
    case DataAfterTerminal => s.terminal && !event.Malformed?
    case UpstreamFailed => !s.terminal && event.Failed?
    case OutputConflict =>
      !s.terminal && streaming && (event.TextDone? || event.ItemDone? || event.ArgumentsDone? || event.Terminal?)
  }

  lemma RefusalHasCause(s: State, event: Event, streaming: bool)
    requires ToolsOk(s) && Apply(s, event, streaming).1.Failure?
    ensures IsCause(Apply(s, event, streaming).1.error, s, event, streaming)
  {
    if !s.terminal && event.ItemDone? && event.item.Some? {
      ItemDoneConflicts(s, event.item.value, event.outputIndex, streaming);
    } else if !s.terminal && event.Terminal? && event.response.Some? {
      TerminalConflicts(s, event.incomplete, event.response.value, streaming);
    }
  }

  lemma ItemDoneConflicts(s: State, item: Item, explicit: Option<int>, streaming: bool)
    requires ToolsOk(s) && !s.terminal
    ensures var (_, update) := Apply(s, ItemDone(Some(item), explicit), streaming);
      update.Failure? ==> streaming && update.error.OutputConflict?
  {
    OutputIndexStores(s, explicit, item);
    var (s1, slot) := OutputIndexFor(s, explicit, item);
    ReconcileItemConflicts(s1.(outputItems := s1.outputItems[slot := item]), item, slot);
  }

  lemma TerminalConflicts(s: State, incomplete: bool, response: Response, streaming: bool)
    requires ToolsOk(s)
    ensures var (_, update) := ApplyTerminal(s, incomplete, response, streaming);
      update.Failure? ==>
        if ListedItems(response.output).None? then update.error.MalformedEvent?
        else streaming && update.error.OutputConflict?
  {
    if ListedItems(response.output).Some? {
      ReconcileOutputConflicts(s, Resolved(ListedItems(response.output).value, s.outputItems), streaming);
    }
  }

  predicate NamesNoCall(s: State, event: Event)
    requires ToolsOk(s)
  {
    (event.ArgumentsDelta? || event.ArgumentsDone?) && ToolFor(s, event.target) < 0
  }

  lemma ReconcileItemConflicts(s: State, item: Item, slot: int)
    requires ToolsOk(s)
    ensures var (_, update) := ReconcileItem(s, item, slot); update.Failure? ==> update.error.OutputConflict?
  {
  }

  lemma ReconcileToolConflicts(s: State, item: Item, slot: int)
    requires ToolsOk(s)
    ensures var (_, deltas) := ReconcileTool(s, item, slot); deltas.Failure? ==> deltas.error.OutputConflict?
  {
  }

  lemma {:induction false} ReconcileToolsConflicts(s: State, items: seq<IndexedItem>)
    requires ToolsOk(s)
    ensures var (_, r) := ReconcileTools(s, items); r.Failure? ==> r.error.OutputConflict?
  {
    if items != [] {
      var last := items[|items| - 1];
      ReconcileToolsConflicts(s, items[..|items| - 1]);
      ReconcileToolConflicts(ReconcileTools(s, items[..|items| - 1]).0, last.item, last.index);
    }
  }

  lemma ReconcileOutputConflicts(s: State, items: seq<IndexedItem>, streaming: bool)
    requires ToolsOk(s)
    ensures var (_, update) := ReconcileOutput(s, items, streaming);
      update.Failure? ==> streaming && update.error.OutputConflict?
  {
    ReconcileToolsConflicts(ReconcileMessage(s, items).0, ToolItems(items));
  }

  /** A run is accepted only without broken events, with nothing after its terminal event. */
  lemma {:induction false} AcceptedRunsAreClean(events: seq<Event>, streaming: bool, i: nat)
    requires Process(events, streaming).Some? && i < |events|
    ensures !NeverAccepted(events[i]) && (events[i].Terminal? ==> i == |events| - 1)
  {
    var n := |events| - 1;
    LastIsClean(events, streaming);
    if i < n {
      AcceptedRunsAreClean(events[..n], streaming, i);
    }
  }

  lemma LastIsClean(events: seq<Event>, streaming: bool)
    requires Process(events, streaming).Some? && events != []
    ensures Process(events[..|events| - 1], streaming).Some? && !NeverAccepted(events[|events| - 1])
    ensures |events| > 1 ==> !events[|events| - 2].Terminal?
  {
    var n := |events| - 1;
    LastStep(events, streaming);
    StepEnds(Process(events[..n], streaming).value.0, events[n], streaming);
    EndedByTerminal(events[..n], streaming);
  }

  lemma EndedByTerminal(events: seq<Event>, streaming: bool)
    requires Process(events, streaming).Some?
    ensures Process(events, streaming).value.0.terminal <==> events != [] && events[|events| - 1].Terminal?
  {
    if events != [] {
      LastStep(events, streaming);
      StepEnds(Process(events[..|events| - 1], streaming).value.0, events[|events| - 1], streaming);
    }
  }

  lemma StepEnds(s: State, event: Event, streaming: bool)
    requires ToolsOk(s) && Apply(s, event, streaming).1.Success?
    ensures !s.terminal && !NeverAccepted(event) && Apply(s, event, streaming).0.terminal == event.Terminal?
  {
    match event
    case ItemDone(Some(item), explicit) => OutputIndexStores(s, explicit, item);
    case ItemAdded(Some(item), explicit) => OutputIndexStores(s, explicit, item);
    case _ =>
  }

  /** A text snapshot in a stream is accepted exactly when it goes on with what was said. */
  lemma TextDoneIsAcceptedIff(events: seq<Event>, text: string)
    requires Process(events, true).Some? && !Process(events, true).value.0.terminal
    ensures Process(events + [TextDone(text)], true).Some? <==> SpokenText(events, true) <= text
  {
    assert (events + [TextDone(text)])[..|events|] == events;
    ContentIsSpoken(events, true);
    ReconciledTextIsSnapshot(Process(events, true).value.0, text, true);
  }

  // ----- how a run ends -----

  lemma {:induction false} MessageTextConcat(a: seq<IndexedItem>, b: seq<IndexedItem>)
    ensures MessageText(a + b) == MessageText(a) + MessageText(b)
  {
    if b == [] {
      assert a + b == a;
    } else {
      assert (a + b)[..|a + b| - 1] == a + b[..|b| - 1];
      MessageTextConcat(a, b[..|b| - 1]);
    }
  }

  /** Message texts follow each other in the order of the items. */
  lemma MessageTextFirst(first: IndexedItem, rest: seq<IndexedItem>)
    ensures MessageText([first] + rest) == (if first.item.kind.Message? then first.item.text else []) + MessageText(rest)
  {
    MessageTextConcat([first], rest);
    assert [first][..0] == [];
  }

  /** Why an ended run ended: cut off, with calls for the client to make, or simply finished. */
  lemma ReasonIs(s: State, incomplete: bool, response: Response, streaming: bool)
    requires ToolsOk(s) && ApplyTerminal(s, incomplete, response, streaming).1.Success?
    ensures var s' := ApplyTerminal(s, incomplete, response, streaming).0;
      && (s'.finishReason == "content_filter" <==> incomplete && response.incompleteReason == "content_filter")
      && (s'.finishReason == "length" <==> incomplete && response.incompleteReason != "content_filter")
      && (s'.finishReason == "tool_calls" <==> !incomplete && s'.toolCalls != [])
      && (s'.finishReason == "stop" <==> !incomplete && s'.toolCalls == [])
  {
    var reasons := ["content_filter", "length", "tool_calls", "stop"];
    assert |reasons[0]| == 14 && |reasons[1]| == 6 && |reasons[2]| == 10 && |reasons[3]| == 4;
  }

  // ----- the calls of an aggregate answer -----

  /** The calls that the snapshot items replace, each when its turn comes. */
  function ReplacedBy(s: State, items: seq<IndexedItem>): (owners: seq<nat>)
    requires ToolsOk(s)
    ensures |owners| == |items|
  {
    if items == [] then []
    else
      var init, last := items[..|items| - 1], items[|items| - 1];
      ReplacedBy(s, init) + [Ensure(ReplaceTools(s, init), last.item, last.index).1]
  }

  lemma ReplacedIsCallOf(s: State, last: IndexedItem)
    requires ToolsOk(s)
    ensures var (s1, index, _) := Ensure(s, last.item, last.index);
      var s' := SetArguments(s1, index, last.item.arguments);
      OnlyChanges(s, s', index) && IsCallOf(s'.toolCalls[index], last)
  {
  }

  lemma AllSettledOneMore(
    calls: seq<ToolCall>, calls': seq<ToolCall>, owners: seq<nat>, init: seq<IndexedItem>, last: IndexedItem, index: nat)
    requires |owners| == |init| && AllSettled(owners, calls, init)
    requires |calls| <= |calls'| <= |calls| + 1 && index < |calls'| && (|calls'| > |calls| ==> index == |calls|)
    requires forall j :: 0 <= j < |calls| && j != index ==> calls'[j] == calls[j]
    requires IsCallOf(calls'[index], last)
    ensures AllSettled(owners + [index], calls', init + [last])
  {
    var items, owners' := init + [last], owners + [index];
    forall i | 0 <= i < |calls'|
      ensures SettledBy(calls'[i], i, owners', items)
    {
      if i == index {
        assert owners'[|init|] == i && IsCallOf(calls'[i], items[|init|]);
      } else {
        assert SettledBy(calls[i], i, owners, init);
        var k :| 0 <= k < |init| && owners[k] == i && IsCallOf(calls[i], init[k]);
        assert owners'[k] == i && IsCallOf(calls'[i], items[k]);
      }
    }
  }

  /** The calls of an aggregate answer are those of its snapshot: none is missing, none is added. */
  lemma {:induction false} AggregateSettlesAll(s: State, items: seq<IndexedItem>)
    requires ToolsOk(s) && s.toolCalls == []
    ensures AllSettled(ReplacedBy(s, items), ReplaceTools(s, items).toolCalls, items)
  {
    if items != [] {
      var init, last := items[..|items| - 1], items[|items| - 1];
      assert items == init + [last];
      AggregateSettlesAll(s, init);
      var before := ReplaceTools(s, init);
      ReplacedIsCallOf(before, last);
      AllSettledOneMore(
        before.toolCalls, ReplaceTools(s, items).toolCalls, ReplacedBy(s, init), init, last,
        Ensure(before, last.item, last.index).1);
    }
  }

  /** The aggregate answer `s'` that a snapshot makes of `s` has the snapshot's text and its calls. */
  ghost predicate MatchesSnapshot(s: State, s': State, items: seq<IndexedItem>)
    requires ToolsOk(s)
  {
    HasMessage(items) || ToolItems(items) != [] ==>
      && s'.content == MessageText(items)
      && AllSettled(
           ReplacedBy(ResetTools(s.(content := MessageText(items))), ToolItems(items)), s'.toolCalls, ToolItems(items))
  }

  lemma AggregateReconciles(s: State, items: seq<IndexedItem>)
    requires ToolsOk(s)
    ensures MatchesSnapshot(s, ReconcileOutput(s, items, false).0, items)
  {
    var reset := ResetTools(s.(content := MessageText(items)));
    AggregateReplaces(s, items);
    AggregateSettlesAll(reset, ToolItems(items));
    ReplaceKeepsContent(reset, ToolItems(items));
  }

  /** Aggregate mode accepts every terminal event that it can decode, and answers with its snapshot. */
  lemma AggregateMatchesSnapshot(s: State, incomplete: bool, response: Response)
    requires ToolsOk(s) && ListedItems(response.output).Some?
    ensures var (s', update) := ApplyTerminal(s, incomplete, response, false);
      update.Success? && MatchesSnapshot(s, s', Resolved(ListedItems(response.output).value, s.outputItems))
  {
    var items := Resolved(ListedItems(response.output).value, s.outputItems);
    AggregateReplaces(s, items);
    AggregateReconciles(s, items);
  }

  lemma AggregateReplaces(s: State, items: seq<IndexedItem>)
    requires ToolsOk(s)
    ensures ReconcileOutput(s, items, false).1.Success?
    ensures HasMessage(items) || ToolItems(items) != [] ==>
      ReconcileOutput(s, items, false).0 == ReplaceTools(ResetTools(s.(content := MessageText(items))), ToolItems(items))
  {
    NoMessageNoText(items);
  }

  lemma {:induction false} ReplaceKeepsContent(s: State, items: seq<IndexedItem>)
    requires ToolsOk(s)
    ensures ReplaceTools(s, items).content == s.content
  {
    if items != [] {
      ReplaceKeepsContent(s, items[..|items| - 1]);
    }
  }

  /** A terminal event whose snapshot has neither text nor calls ends the run as it stands. */
  lemma EmptySnapshotKeepsAll(s: State, incomplete: bool, response: Response, streaming: bool)
    requires ToolsOk(s) && !s.terminal && ListedItems(response.output).Some?
    requires var items := Resolved(ListedItems(response.output).value, s.outputItems);
      forall i :: 0 <= i < |items| ==> items[i].item.kind.OtherKind?
    ensures var (s', update) := Apply(s, Terminal(incomplete, Some(response)), streaming);
      && update == Success(SILENT) && s'.terminal
      && s'.content == s.content && s'.toolCalls == s.toolCalls
  {
    OthersAreNoTools(Resolved(ListedItems(response.output).value, s.outputItems));
  }

  lemma {:induction false} OthersAreNoTools(items: seq<IndexedItem>)
    requires forall i :: 0 <= i < |items| ==> items[i].item.kind.OtherKind?
    ensures ToolItems(items) == []
  {
    if items != [] {
      OthersAreNoTools(items[..|items| - 1]);
    }
  }

  /** A snapshot that says nothing new sends nothing and changes nothing. */
  lemma RepeatedSnapshotIsSilent(s: State, event: Event, streaming: bool)
    requires ToolsOk(s) && !s.terminal
    requires match event
      case TextDone(text) => text == s.content
      case ArgumentsDone(target, arguments) =>
        ToolFor(s, target) >= 0 && arguments == Some(s.toolCalls[ToolFor(s, target)].arguments)
      case _ => false
    ensures Apply(s, event, streaming) == (s, Success(SILENT))
  {
    match event
    case TextDone(text) => assert text[|text|..] == SILENT.content;
    case ArgumentsDone(target, arguments) =>
      var i := ToolFor(s, target);
      assert s.toolCalls[i].(arguments := arguments.value) == s.toolCalls[i];
      assert s.toolCalls[i := s.toolCalls[i]] == s.toolCalls;
    case _ =>
  }
}
