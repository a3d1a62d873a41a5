// chatCompletionState in the source's own form: one object that each event updates in place.
// Every method is tied to the function of ChatStream that gives its meaning.

module ChatCompletion {
  import opened Wrappers
  import opened ChatStream

  class ChatCompletionState {
    var content: string
    var toolCalls: seq<ToolCall>
    var toolIndexByItem: map<string, nat>
    var toolIndexByCall: map<string, nat>
    var toolIndexByOutput: map<int, nat>
    var currentToolIndex: int
    var outputItems: map<int, Item>
    var nextOutputIndex: int
    var finishReason: string
    var terminal: bool

    ghost function Abs(): State
      reads this
    {
      State(content, toolCalls, toolIndexByItem, toolIndexByCall, toolIndexByOutput, currentToolIndex,
            outputItems, nextOutputIndex, finishReason, terminal)
    }

    ghost predicate Valid()
      reads this
    {
      ToolsOk(Abs())
    }

    /** newChatCompletionState. */
    constructor ()
      ensures Valid() && Abs() == INITIAL
    {
      content, toolCalls := "", [];
      toolIndexByItem, toolIndexByCall, toolIndexByOutput, currentToolIndex := map[], map[], map[], -1;
      outputItems, nextOutputIndex, finishReason, terminal := map[], 0, "", false;
    }

    method LookupToolCallIndex(item: Item) returns (index: int)
      requires Valid()
      ensures index == LookupTool(Abs(), item)
    {
      var callId := FirstNonEmpty(item.callId, item.id);
      if item.id != "" && item.id in toolIndexByItem {
        return toolIndexByItem[item.id];
      }
      if callId != "" && callId in toolIndexByCall {
        return toolIndexByCall[callId];
      }
      if item.outputIndex.Some? {
        var slot: int := item.outputIndex.value;
        if slot in toolIndexByOutput {
          return toolIndexByOutput[slot];
        }
      }
      return -1;
    }

    method OutputIndexForEvent(explicit: Option<int>, item: Item) returns (index: int)
      requires Valid()
      modifies this
      ensures Valid() && (Abs(), index) == OutputIndexFor(old(Abs()), explicit, item)
    {
      if explicit.Some? && explicit.value >= 0 {
        index := explicit.value;
        if index >= nextOutputIndex {
          nextOutputIndex := index + 1;
        }
        return;
      }
      var toolIndex := LookupToolCallIndex(item);
      if toolIndex >= 0 {
        var outputIndex := toolCalls[toolIndex].outputIndex;
        if outputIndex >= 0 {
          return outputIndex;
        }
      }
      index := nextOutputIndex;
      nextOutputIndex := nextOutputIndex + 1;
    }

    method ToolIndexForPayload(target: Target) returns (index: int)
      requires Valid()
      ensures index == ToolFor(Abs(), target)
    {
      for k := 0 to |target.ids|
        invariant ToolForIds(Abs(), target.ids) == ToolForIds(Abs(), target.ids[k..])
      {
        var id := target.ids[k];
        if id != "" && id in toolIndexByItem {
          return toolIndexByItem[id];
        }
      }
      if target.callId != "" && target.callId in toolIndexByCall {
        return toolIndexByCall[target.callId];
      }
      if target.outputIndex.Some? {
        var slot: int := target.outputIndex.value;
        if slot in toolIndexByOutput {
          return toolIndexByOutput[slot];
        }
      }
      if currentToolIndex >= 0 && currentToolIndex < |toolCalls| {
        return currentToolIndex;
      }
      return -1;
    }

    /** ensureToolCall. */
    method EnsureToolCall(item: Item, outputIndex: int) returns (index: nat, created: bool)
      requires Valid()
      modifies this
      ensures Valid() && (Abs(), index, created) == Ensure(old(Abs()), item, outputIndex)
    {
      index, created := OpenToolCall(item, outputIndex);
      NameToolCall(item, outputIndex, index);
    }

    method OpenToolCall(item: Item, outputIndex: int) returns (index: nat, created: bool)
      requires Valid()
      modifies this`toolCalls
      ensures Valid() && (Abs(), index, created) == OpenTool(old(Abs()), item, outputIndex)
    {
      var callId := FirstNonEmpty(item.callId, item.id);
      var found := LookupToolCallIndex(item);
      if found < 0 && outputIndex >= 0 && outputIndex in toolIndexByOutput {
        found := toolIndexByOutput[outputIndex];
      }
      created := found < 0;
      if created {
        index := |toolCalls|;
        toolCalls := toolCalls +
          [ToolCall(FirstNonEmpty(callId, FallbackId(index)), item.id, item.name, outputIndex, "")];
      } else {
        index := found;
      }
    }

    method NameToolCall(item: Item, outputIndex: int, index: nat)
      requires Valid() && index < |toolCalls|
      modifies this
      ensures Valid() && Abs() == NameTool(old(Abs()), item, outputIndex, index)
    {
      var callId := FirstNonEmpty(item.callId, item.id);
      var call := toolCalls[index];
      if item.id != "" {
        call := call.(itemId := item.id);
        toolIndexByItem := toolIndexByItem[item.id := index];
      }
      if callId != "" {
        call := call.(id := callId);
        toolIndexByCall := toolIndexByCall[callId := index];
      }
      if item.name != "" {
        call := call.(name := item.name);
      }
      if outputIndex >= 0 {
        call := call.(outputIndex := outputIndex);
        toolIndexByOutput := toolIndexByOutput[outputIndex := index];
      }
      assert call.arguments == toolCalls[index].arguments;
      toolCalls := toolCalls[index := call];
      currentToolIndex := index;
    }

    method ReconcileTextSnapshot(snapshot: string, streaming: bool) returns (delta: Result<string, Failure>)
      requires Valid()
      modifies this
      ensures Valid() && (Abs(), delta) == ReconcileText(old(Abs()), snapshot, streaming)
    {
      var current := content;
      if !(current <= snapshot) {
        if streaming {
          return Failure(OutputConflict);
        }
        content := snapshot;
        return Success("");
      }
      var suffix := snapshot[|current|..];
      assert current + suffix == snapshot;
      content := content + suffix;
      return Success(suffix);
    }

    method WriteArguments(index: nat, arguments: string)
      requires Valid() && index < |toolCalls|
      modifies this
      ensures Valid() && Abs() == SetArguments(old(Abs()), index, arguments)
    {
      toolCalls := toolCalls[index := toolCalls[index].(arguments := arguments)];
    }

    method ReconcileToolArguments(index: nat, full: string, streaming: bool) returns (delta: Result<string, Failure>)
      requires Valid() && index < |toolCalls|
      modifies this
      ensures Valid() && (Abs(), delta) == ReconcileArguments(old(Abs()), index, full, streaming)
    {
      var current := toolCalls[index].arguments;
      if !(current <= full) {
        if streaming {
          return Failure(OutputConflict);
        }
        WriteArguments(index, full);
        return Success("");
      }
      var suffix := full[|current|..];
      assert current + suffix == full;
      WriteArguments(index, current + suffix);
      return Success(suffix);
    }

    function InitialToolCallDelta(index: nat): (delta: ToolDelta)
      requires index < |toolCalls|
      reads this
      ensures delta == InitialDeltaOf(Abs(), index)
    {
      var call := toolCalls[index];
      InitialDelta(index, call.id, call.name, call.arguments)
    }

    method ReconcileToolSnapshot(item: Item, outputIndex: int) returns (deltas: Result<seq<ToolDelta>, Failure>)
      requires Valid()
      modifies this
      ensures Valid() && (Abs(), deltas) == ReconcileTool(old(Abs()), item, outputIndex)
    {
      var index, created := EnsureToolCall(item, outputIndex);
      if created {
        WriteArguments(index, toolCalls[index].arguments + item.arguments);
        return Success([InitialToolCallDelta(index)]);
      }
      var delta := ReconcileToolArguments(index, item.arguments, true);
      match delta
      case Failure(e) => return Failure(e);
      case Success(d) =>
        if d == "" {
          return Success([]);
        }
        return Success([ToolDelta.ArgumentsDelta(index, d)]);
    }

    method ReconcileStreamingOutputItem(item: Item, outputIndex: int) returns (update: Result<Update, Failure>)
      requires Valid()
      modifies this
      ensures Valid() && (Abs(), update) == ReconcileItem(old(Abs()), item, outputIndex)
    {
      match item.kind
      case Message =>
        var delta := ReconcileTextSnapshot(item.text, true);
        update := if delta.Failure? then Result.Failure(delta.error) else Success(Update(delta.value, []));
      case FunctionCall =>
        var deltas := ReconcileToolSnapshot(item, outputIndex);
        update := if deltas.Failure? then Result.Failure(deltas.error) else Success(Update("", deltas.value));
      case OtherKind =>
        update := Success(SILENT);
    }

    /** resolvedResponseOutput. */
    method ResolvedResponseOutput(output: Output) returns (items: Result<seq<IndexedItem>, Failure>)
      ensures match ListedItems(output)
        case None => items == Result.Failure(MalformedEvent)
        case Some(listed) => items == Success(Resolved(listed, outputItems))
    {
      var listed: seq<Item> := [];
      match output {
        case Absent =>
        case NotAList => return Result.Failure(MalformedEvent);
        case Listed(entries) =>
          for k := 0 to |entries|
            invariant |listed| == k
            invariant forall j :: 0 <= j < k ==> entries[j] == Some(listed[j])
          {
            if entries[k].None? {
              return Result.Failure(MalformedEvent);
            }
            listed := listed + [entries[k].value];
          }
      }
      ListedAre(output, listed);
      var maxIndex := |listed| - 1;
      var rest := outputItems.Keys;
      while rest != {}
        invariant rest <= outputItems.Keys
        invariant maxIndex >= |listed| - 1
        invariant forall k: int :: k in outputItems && k !in rest ==> k <= maxIndex
      {
        var index := AnyKey(rest);
        if index > maxIndex {
          maxIndex := index;
        }
        rest := rest - {index};
      }
      var resolved: seq<IndexedItem> := [];
      for index := 0 to maxIndex + 1
        invariant resolved == ResolvedUpTo(index, listed, outputItems)
      {
        if index < |listed| {
          resolved := resolved + [IndexedItem(index, listed[index])];
        } else if index in outputItems {
          resolved := resolved + [IndexedItem(index, outputItems[index])];
        }
      }
      ResolvedIs(maxIndex + 1, listed, outputItems);
      return Success(resolved);
    }

    method ReconcileTerminalOutput(response: Response, streaming: bool) returns (update: Result<Update, Failure>)
      requires Valid()
      modifies this
      ensures Valid() && (Abs(), update) == ReconcileTerminal(old(Abs()), response, streaming)
    {
      var resolved := ResolvedResponseOutput(response.output);
      if resolved.Failure? {
        return Result.Failure(resolved.error);
      }
      var items := resolved.value;
      var messageText, tools, hasMessage := Sort(items);
      if !hasMessage && |tools| == 0 {
        return Success(SILENT);
      }
      if !streaming {
        AggregateOutput(if hasMessage then messageText else "", tools);
        return Success(SILENT);
      }
      ghost var s := Abs();
      var content' := "";
      if hasMessage {
        var delta := ReconcileTextSnapshot(messageText, true);
        if delta.Failure? {
          return Result.Failure(delta.error);
        }
        content' := delta.value;
      } else if |content| > 0 {
        return Result.Failure(OutputConflict);
      }
      assert (Abs(), Success(content')) == ReconcileMessage(s, items);
      var reconciled := ReconcileToolItems(tools);
      if reconciled.Failure? {
        return Result.Failure(reconciled.error);
      }
      if |reconciled.value.settled| != |toolCalls| {
        return Result.Failure(OutputConflict);
      }
      return Success(Update(content', reconciled.value.deltas));
    }

    /** The first loop of reconcileTerminalOutput: message text and tool items, each in order. */
    method Sort(items: seq<IndexedItem>) returns (text: string, tools: seq<IndexedItem>, hasMessage: bool)
      ensures text == MessageText(items) && tools == ToolItems(items) && hasMessage == HasMessage(items)
    {
      text, tools, hasMessage := "", [], false;
      for k := 0 to |items|
        invariant text == MessageText(items[..k]) && tools == ToolItems(items[..k])
        invariant hasMessage == exists j :: 0 <= j < k && items[j].item.kind.Message?
      {
        assert items[..k + 1][..k] == items[..k];
        match items[k].item.kind
        case Message => hasMessage, text := true, text + items[k].item.text;
        case FunctionCall => tools := tools + [items[k]];
        case OtherKind =>
      }
      assert items[..|items|] == items;
    }

    /** The aggregate branch of reconcileTerminalOutput. */
    method AggregateOutput(text: string, tools: seq<IndexedItem>)
      requires Valid()
      modifies this
      ensures Valid() && Abs() == ReplaceTools(ResetTools(old(Abs()).(content := text)), tools)
    {
      content := text;
      ResetToolCalls();
      ReplaceToolItems(tools);
    }

    method ResetToolCalls()
      requires Valid()
      modifies this
      ensures Valid() && Abs() == ResetTools(old(Abs()))
    {
      toolCalls, currentToolIndex := [], -1;
      toolIndexByItem, toolIndexByCall, toolIndexByOutput := map[], map[], map[];
    }

    method ReplaceToolItems(tools: seq<IndexedItem>)
      requires Valid()
      modifies this
      ensures Valid() && Abs() == ReplaceTools(old(Abs()), tools)
    {
      for k := 0 to |tools|
        invariant Valid() && Abs() == ReplaceTools(old(Abs()), tools[..k])
      {
        assert tools[..k + 1][..k] == tools[..k];
        var index, _ := EnsureToolCall(tools[k].item, tools[k].index);
        WriteArguments(index, tools[k].item.arguments);
      }
      assert tools[..|tools|] == tools;
    }

    /** The streaming loop of reconcileTerminalOutput. */
    method ReconcileToolItems(tools: seq<IndexedItem>) returns (r: Result<Reconciled, Failure>)
      requires Valid()
      modifies this
      ensures Valid() && (Abs(), r) == ReconcileTools(old(Abs()), tools)
    {
      var deltas: seq<ToolDelta> := [];
      var finalTools: set<int> := {};
      for k := 0 to |tools|
        invariant Valid()
        invariant (Abs(), Success(Reconciled(deltas, finalTools))) == ReconcileTools(old(Abs()), tools[..k])
      {
        assert tools[..k + 1][..k] == tools[..k];
        var more := ReconcileToolSnapshot(tools[k].item, tools[k].index);
        if more.Failure? {
          FailureStops(old(Abs()), tools, k + 1);
          return Result.Failure(more.error);
        }
        deltas := deltas + more.value;
        var index := LookupToolCallIndex(tools[k].item);
        if index < 0 {
          index := if tools[k].index in toolIndexByOutput then toolIndexByOutput[tools[k].index] else 0;
        }
        finalTools := finalTools + {index};
      }
      assert tools[..|tools|] == tools;
      return Success(Reconciled(deltas, finalTools));
    }

    method ApplyTerminalResponse(incomplete: bool, response: Response, streaming: bool)
      returns (update: Result<Update, Failure>)
      requires Valid()
      modifies this
      ensures Valid() && (Abs(), update) == ApplyTerminal(old(Abs()), incomplete, response, streaming)
    {
      update := ReconcileTerminalOutput(response, streaming);
      if update.Failure? {
        return;
      }
      if incomplete {
        finishReason := IncompleteReason(response.incompleteReason);
      } else if |toolCalls| > 0 {
        finishReason := "tool_calls";
      } else {
        finishReason := "stop";
      }
      terminal := true;
    }

    /** applyResponsesEvent: the new state and the answer are those of ChatStream.Apply. */
    method ApplyResponsesEvent(event: Event, streaming: bool) returns (update: Result<Update, Failure>)
      requires Valid()
      modifies this
      ensures Valid() && (Abs(), update) == Apply(old(Abs()), event, streaming)
    {
      if event.Malformed? {
        return Result.Failure(MalformedEvent);
      }
      if terminal {
        return Result.Failure(DataAfterTerminal);
      }
      update := Success(SILENT);
      match event
      case Created(hasResponse) =>
        if !hasResponse {
          return Result.Failure(MalformedEvent);
        }
      case TextDelta(delta) =>
        if delta.None? {
          return Result.Failure(MalformedEvent);
        }
        content := content + delta.value;
        return Success(Update(delta.value, []));
      case TextDone(text) =>
        var delta := ReconcileTextSnapshot(text, streaming);
        return if delta.Failure? then Result.Failure(delta.error) else Success(Update(delta.value, []));
      case ItemAdded(item, explicit) =>
        if item.None? {
          return Result.Failure(MalformedEvent);
        }
        if item.value.kind.FunctionCall? {
          var outputIndex := OutputIndexForEvent(explicit, item.value);
          var index, created := EnsureToolCall(item.value, outputIndex);
          if created {
            return Success(Update("", [InitialToolCallDelta(index)]));
          }
        }
      case ItemDone(item, explicit) =>
        if item.None? {
          return Result.Failure(MalformedEvent);
        }
        var outputIndex := OutputIndexForEvent(explicit, item.value);
        outputItems := outputItems[outputIndex := item.value];
        if streaming {
          update := ReconcileStreamingOutputItem(item.value, outputIndex);
        }
      case ArgumentsDelta(target, delta) =>
        var index := ToolIndexForPayload(target);
        if index < 0 || delta.None? {
          return Result.Failure(MalformedEvent);
        }
        WriteArguments(index, toolCalls[index].arguments + delta.value);
        return Success(Update("", [ToolDelta.ArgumentsDelta(index, delta.value)]));
      case ArgumentsDone(target, arguments) =>
        var index := ToolIndexForPayload(target);
        if index < 0 || arguments.None? {
          return Result.Failure(MalformedEvent);
        }
        var delta := ReconcileToolArguments(index, arguments.value, streaming);
        if delta.Failure? {
          return Result.Failure(delta.error);
        }
        if delta.value != "" {
          return Success(Update("", [ToolDelta.ArgumentsDelta(index, delta.value)]));
        }
      case Terminal(incomplete, response) =>
        if response.None? {
          return Result.Failure(MalformedEvent);
        }
        update := ApplyTerminalResponse(incomplete, response.value, streaming);
      case Failed =>
        return Result.Failure(UpstreamFailed);
      case Unrecognized =>
    }
  }

  lemma ListedAre(output: Output, listed: seq<Item>)
    requires output.Absent? ==> listed == []
    requires !output.NotAList?
    requires output.Listed? ==>
      |listed| == |output.items| && forall j :: 0 <= j < |listed| ==> output.items[j] == Some(listed[j])
    ensures ListedItems(output) == Some(listed)
  {
    if output.Listed? {
      assert ListedItems(output).value == listed;
    }
  }

  /** The next key of a range over a map. */
  method AnyKey<T>(keys: set<T>) returns (key: T)
    requires keys != {}
    ensures key in keys
  {
    key :| key in keys;
  }

  lemma {:induction false} FailureStops(s: State, tools: seq<IndexedItem>, k: nat)
    requires ToolsOk(s) && k <= |tools| && ReconcileTools(s, tools[..k]).1.Failure?
    ensures ReconcileTools(s, tools) == ReconcileTools(s, tools[..k])
  {
    if k < |tools| {
      assert tools[..|tools| - 1][..k] == tools[..k];
      FailureStops(s, tools[..|tools| - 1], k);
    } else {
      assert tools[..k] == tools;
    }
  }
}
