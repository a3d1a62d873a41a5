// The chat-completion state machine as a value: one Responses event at a time, in streaming or
// aggregate mode (internal/codexonly/chat_completions.go). JSON payloads are reduced to the
// fields the machine reads; anything it cannot decode is Malformed.

module ChatStream {
  import opened Wrappers
  import IntSets
  import StopFilter

  datatype ItemKind = Message | FunctionCall | OtherKind

  /** An output item. `text` is the concatenated text of a message's parts. */
  datatype Item = Item(
    kind: ItemKind, id: string, callId: string, name: string, arguments: string, text: string,
    outputIndex: Option<int>)

  /** The keys by which an arguments event names its tool call, in the order they are tried. */
  datatype Target = Target(ids: seq<string>, callId: string, outputIndex: Option<int>)

  datatype Output = Absent | NotAList | Listed(items: seq<Option<Item>>)

  datatype Response = Response(output: Output, incompleteReason: string)

  datatype Event =
    | Malformed
    | Created(hasResponse: bool)
    | TextDelta(delta: Option<string>)
    | TextDone(text: string)
    | ItemAdded(item: Option<Item>, outputIndex: Option<int>)
    | ItemDone(item: Option<Item>, outputIndex: Option<int>)
    | ArgumentsDelta(target: Target, delta: Option<string>)
    | ArgumentsDone(target: Target, arguments: Option<string>)
    | Terminal(incomplete: bool, response: Option<Response>)
    | Failed
    | Unrecognized

  datatype Failure = MalformedEvent | DataAfterTerminal | OutputConflict | UpstreamFailed

  datatype ToolCall = ToolCall(id: string, itemId: string, name: string, outputIndex: int, arguments: string)

  datatype ToolDelta =
    | InitialDelta(index: nat, id: string, name: string, arguments: string)
    | ArgumentsDelta(index: nat, delta: string)

  datatype Update = Update(content: string, tools: seq<ToolDelta>)

  const SILENT := Update("", [])

  datatype State = State(
    content: string, toolCalls: seq<ToolCall>,
    byItem: map<string, nat>, byCall: map<string, nat>, byOutput: map<int, nat>, current: int,
    outputItems: map<int, Item>, nextOutputIndex: int, finishReason: string, terminal: bool)

  const INITIAL := State("", [], map[], map[], map[], -1, map[], 0, "", false)

  /** Every index the machine stores names an existing tool call. */
  predicate ToolsOk(s: State) {
    && (forall k :: k in s.byItem ==> s.byItem[k] < |s.toolCalls|)
    && (forall k :: k in s.byCall ==> s.byCall[k] < |s.toolCalls|)
    && (forall k: int :: k in s.byOutput ==> s.byOutput[k] < |s.toolCalls|)
    && -1 <= s.current < |s.toolCalls|
  }

  /** The parts of the state that no reconciliation touches. */
  predicate SameItems(s: State, s': State) {
    s'.outputItems == s.outputItems && s'.terminal == s.terminal
  }

  // ----- tool lookup -----

  function FirstNonEmpty(a: string, b: string): string {
    if a != "" then a else b
  }

  function CallIdOf(item: Item): string {
    FirstNonEmpty(item.callId, item.id)
  }

  function ToolAtOutput(s: State, outputIndex: Option<int>, otherwise: int): (i: int)
    requires ToolsOk(s) && -1 <= otherwise < |s.toolCalls|
    ensures -1 <= i < |s.toolCalls|
  {
    match outputIndex
    case None => otherwise
    case Some(k) => var key: int := k; if key in s.byOutput then s.byOutput[key] else otherwise
  }

  function LookupTool(s: State, item: Item): (i: int)
    requires ToolsOk(s)
    ensures -1 <= i < |s.toolCalls|
  {
    if item.id != "" && item.id in s.byItem then s.byItem[item.id]
    else if CallIdOf(item) != "" && CallIdOf(item) in s.byCall then s.byCall[CallIdOf(item)]
    else ToolAtOutput(s, item.outputIndex, -1)
  }

  function ToolForIds(s: State, ids: seq<string>): (i: int)
    requires ToolsOk(s)
    ensures -1 <= i < |s.toolCalls|
  {
    if ids == [] then -1
    else if ids[0] != "" && ids[0] in s.byItem then s.byItem[ids[0]]
    else ToolForIds(s, ids[1..])
  }

  function ToolFor(s: State, target: Target): (i: int)
    requires ToolsOk(s)
    ensures -1 <= i < |s.toolCalls|
  {
    if ToolForIds(s, target.ids) >= 0 then ToolForIds(s, target.ids)
    else if target.callId != "" && target.callId in s.byCall then s.byCall[target.callId]
    else ToolAtOutput(s, target.outputIndex, s.current)
  }

  function OutputIndexFor(s: State, explicit: Option<int>, item: Item): (State, int)
    requires ToolsOk(s)
  {
    if explicit.Some? && explicit.value >= 0 then
      (if explicit.value >= s.nextOutputIndex then s.(nextOutputIndex := explicit.value + 1) else s, explicit.value)
    else
      var tool := LookupTool(s, item);
      if tool >= 0 && s.toolCalls[tool].outputIndex >= 0 then (s, s.toolCalls[tool].outputIndex)
      else (s.(nextOutputIndex := s.nextOutputIndex + 1), s.nextOutputIndex)
  }

  function FoundTool(s: State, item: Item, outputIndex: int): (i: int)
    requires ToolsOk(s)
    ensures -1 <= i < |s.toolCalls|
  {
    var found := LookupTool(s, item);
    if found < 0 && outputIndex >= 0 && outputIndex in s.byOutput then s.byOutput[outputIndex] else found
  }

  /** call_<n> with n in decimal. */
  function FallbackId(n: nat): string {
    "call_" + Decimal(n)
  }

  function Decimal(n: nat): string {
    var digit := ['0' + (n % 10) as char];
    if n < 10 then digit else Decimal(n / 10) + digit
  }

  /** The tool call an item belongs to, appended if there is none yet. */
  function OpenTool(s: State, item: Item, outputIndex: int): (r: (State, nat, bool))
    requires ToolsOk(s)
    ensures ToolsOk(r.0) && r.1 < |r.0.toolCalls| && SameItems(s, r.0)
  {
    var found := FoundTool(s, item, outputIndex);
    if found >= 0 then (s, found, false)
    else
      var index := |s.toolCalls|;
      var id := FirstNonEmpty(CallIdOf(item), FallbackId(index));
      (s.(toolCalls := s.toolCalls + [ToolCall(id, item.id, item.name, outputIndex, "")]), index, true)
  }

  /** Files a tool call under every name the item gives it. */
  function NameTool(s: State, item: Item, outputIndex: int, index: nat): (s': State)
    requires ToolsOk(s) && index < |s.toolCalls|
    ensures ToolsOk(s') && |s'.toolCalls| == |s.toolCalls| && SameItems(s, s')
  {
    var callId := CallIdOf(item);
    var call := s.toolCalls[index];
    var call' := ToolCall(
      if callId != "" then callId else call.id,
      if item.id != "" then item.id else call.itemId,
      if item.name != "" then item.name else call.name,
      if outputIndex >= 0 then outputIndex else call.outputIndex,
      call.arguments);
    s.(toolCalls := s.toolCalls[index := call'],
       byItem := if item.id != "" then s.byItem[item.id := index] else s.byItem,
       byCall := if callId != "" then s.byCall[callId := index] else s.byCall,
       byOutput := if outputIndex >= 0 then s.byOutput[outputIndex := index] else s.byOutput,
       current := index)
  }

  /** ensureToolCall: finds or appends the tool call of an item and indexes it under all its names. */
  function Ensure(s: State, item: Item, outputIndex: int): (r: (State, nat, bool))
    requires ToolsOk(s)
    ensures ToolsOk(r.0) && r.1 < |r.0.toolCalls| && SameItems(s, r.0)
  {
    var (s1, index, created) := OpenTool(s, item, outputIndex);
    (NameTool(s1, item, outputIndex, index), index, created)
  }

  function SetArguments(s: State, index: nat, arguments: string): (s': State)
    requires ToolsOk(s) && index < |s.toolCalls|
    ensures ToolsOk(s') && SameItems(s, s')
  {
    s.(toolCalls := s.toolCalls[index := s.toolCalls[index].(arguments := arguments)])
  }

  function InitialDeltaOf(s: State, index: nat): ToolDelta
    requires index < |s.toolCalls|
  {
    InitialDelta(index, s.toolCalls[index].id, s.toolCalls[index].name, s.toolCalls[index].arguments)
  }

  // ----- reconciling with snapshots -----

  function ReconcileText(s: State, snapshot: string, streaming: bool): (r: (State, Result<string, Failure>))
    requires ToolsOk(s)
    ensures ToolsOk(r.0) && SameItems(s, r.0)
  {
    if s.content <= snapshot then (s.(content := snapshot), Success(snapshot[|s.content|..]))
    else if streaming then (s, Result.Failure(OutputConflict))
    else (s.(content := snapshot), Success(""))
  }

  function ReconcileArguments(s: State, index: nat, full: string, streaming: bool): (r: (State, Result<string, Failure>))
    requires ToolsOk(s) && index < |s.toolCalls|
    ensures ToolsOk(r.0) && SameItems(s, r.0)
  {
    var current := s.toolCalls[index].arguments;
    if current <= full then (SetArguments(s, index, full), Success(full[|current|..]))
    else if streaming then (s, Result.Failure(OutputConflict))
    else (SetArguments(s, index, full), Success(""))
  }

  function ArgumentsUpdate(index: nat, delta: string): seq<ToolDelta> {
    if delta == "" then [] else [ToolDelta.ArgumentsDelta(index, delta)]
  }

  function ReconcileTool(s: State, item: Item, outputIndex: int): (r: (State, Result<seq<ToolDelta>, Failure>))
    requires ToolsOk(s)
    ensures ToolsOk(r.0) && SameItems(s, r.0)
  {
    var (s1, index, created) := Ensure(s, item, outputIndex);
    if created then
      var s2 := SetArguments(s1, index, s1.toolCalls[index].arguments + item.arguments);
      (s2, Success([InitialDeltaOf(s2, index)]))
    else
      var (s2, delta) := ReconcileArguments(s1, index, item.arguments, true);
      match delta
      case Failure(e) => (s2, Result.Failure(e))
      case Success(d) => (s2, Success(ArgumentsUpdate(index, d)))
  }

  function ReconcileItem(s: State, item: Item, outputIndex: int): (r: (State, Result<Update, Failure>))
    requires ToolsOk(s)
    ensures ToolsOk(r.0) && SameItems(s, r.0)
  {
    match item.kind
    case Message =>
      var (s1, delta) := ReconcileText(s, item.text, true);
      (s1, TextUpdate(delta))
    case FunctionCall =>
      var (s1, deltas) := ReconcileTool(s, item, outputIndex);
      (s1, match deltas case Failure(e) => Result.Failure(e) case Success(ds) => Success(Update("", ds)))
    case OtherKind => (s, Success(SILENT))
  }

  function TextUpdate(delta: Result<string, Failure>): Result<Update, Failure> {
    match delta
    case Failure(e) => Result.Failure(e)
    case Success(d) => Success(Update(d, []))
  }

  // ----- the terminal response -----

  datatype IndexedItem = IndexedItem(index: nat, item: Item)

  ghost predicate CoversItems(bound: nat, terminal: seq<Item>, stored: map<int, Item>) {
    |terminal| <= bound && forall k: int :: k in stored ==> k < bound
  }

  function ResolvedUpTo(bound: nat, terminal: seq<Item>, stored: map<int, Item>): seq<IndexedItem> {
    if bound == 0 then []
    else
      var i := bound - 1;
      ResolvedUpTo(i, terminal, stored) +
        if i < |terminal| then [IndexedItem(i, terminal[i])]
        else if i in stored then [IndexedItem(i, stored[i])]
        else []
  }

  lemma {:induction false} ResolvedIsStable(small: nat, large: nat, terminal: seq<Item>, stored: map<int, Item>)
    requires CoversItems(small, terminal, stored) && small <= large
    ensures ResolvedUpTo(small, terminal, stored) == ResolvedUpTo(large, terminal, stored)
  {
    if small < large {
      ResolvedIsStable(small, large - 1, terminal, stored);
    }
  }

  /** resolvedResponseOutput: the listed items, and where none is listed the items seen done, in index order. */
  ghost function Resolved(terminal: seq<Item>, stored: map<int, Item>): seq<IndexedItem> {
    assert exists bound :: CoversItems(bound, terminal, stored) by {
      var bound := IntSets.BoundExists(stored.Keys, |terminal|);
      assert CoversItems(bound, terminal, stored);
    }
    var bound :| CoversItems(bound, terminal, stored);
    ResolvedUpTo(bound, terminal, stored)
  }

  lemma ResolvedIs(bound: nat, terminal: seq<Item>, stored: map<int, Item>)
    requires CoversItems(bound, terminal, stored)
    ensures Resolved(terminal, stored) == ResolvedUpTo(bound, terminal, stored)
  {
    var other: nat :| CoversItems(other, terminal, stored) && Resolved(terminal, stored) == ResolvedUpTo(other, terminal, stored);
    if other <= bound {
      ResolvedIsStable(other, bound, terminal, stored);
    } else {
      ResolvedIsStable(bound, other, terminal, stored);
    }
  }

  /** The items of response.output, or nothing when one of them cannot be decoded. */
  function ListedItems(output: Output): Option<seq<Item>> {
    match output
    case Absent => Some([])
    case NotAList => None
    case Listed(items) =>
      if exists i :: 0 <= i < |items| && items[i].None? then None
      else Some(seq(|items|, i requires 0 <= i < |items| && items[i].Some? => items[i].value))
  }

  function MessageText(items: seq<IndexedItem>): string {
    if items == [] then ""
    else
      var last := items[|items| - 1].item;
      MessageText(items[..|items| - 1]) + if last.kind.Message? then last.text else ""
  }

  predicate HasMessage(items: seq<IndexedItem>) {
    exists i :: 0 <= i < |items| && items[i].item.kind.Message?
  }

  function ToolItems(items: seq<IndexedItem>): seq<IndexedItem> {
    if items == [] then []
    else
      var last := items[|items| - 1];
      ToolItems(items[..|items| - 1]) + if last.item.kind.FunctionCall? then [last] else []
  }

  function ResetTools(s: State): State {
    s.(toolCalls := [], byItem := map[], byCall := map[], byOutput := map[], current := -1)
  }

  /** Aggregate mode: each snapshot item overwrites the arguments of its tool call. */
  function ReplaceTools(s: State, items: seq<IndexedItem>): (s': State)
    requires ToolsOk(s)
    ensures ToolsOk(s') && SameItems(s, s')
  {
    if items == [] then s
    else
      var before := ReplaceTools(s, items[..|items| - 1]);
      var last := items[|items| - 1];
      var (s1, index, _) := Ensure(before, last.item, last.index);
      SetArguments(s1, index, last.item.arguments)
  }

  /** The tool call that a snapshot item settles on, once reconciled. */
  function SettledTool(s: State, last: IndexedItem): int
    requires ToolsOk(s)
  {
    var found := LookupTool(s, last.item);
    if found >= 0 then found else if last.index in s.byOutput then s.byOutput[last.index] else 0
  }

  datatype Reconciled = Reconciled(deltas: seq<ToolDelta>, settled: set<int>)

  /** Streaming mode: each snapshot item must extend what its tool call already streamed. */
  function ReconcileTools(s: State, items: seq<IndexedItem>): (r: (State, Result<Reconciled, Failure>))
    requires ToolsOk(s)
    ensures ToolsOk(r.0) && SameItems(s, r.0)
  {
    if items == [] then (s, Success(Reconciled([], {})))
    else
      var (s1, before) := ReconcileTools(s, items[..|items| - 1]);
      match before
      case Failure(e) => (s1, Result.Failure(e))
      case Success(sofar) =>
        var last := items[|items| - 1];
        var (s2, deltas) := ReconcileTool(s1, last.item, last.index);
        match deltas
        case Failure(e) => (s2, Result.Failure(e))
        case Success(ds) => (s2, Success(Reconciled(sofar.deltas + ds, sofar.settled + {SettledTool(s2, last)})))
  }

  /** The text half of the terminal reconciliation, in streaming mode. */
  function ReconcileMessage(s: State, items: seq<IndexedItem>): (r: (State, Result<string, Failure>))
    requires ToolsOk(s)
    ensures ToolsOk(r.0) && SameItems(s, r.0)
  {
    if HasMessage(items) then ReconcileText(s, MessageText(items), true)
    else if |s.content| > 0 then (s, Result.Failure(OutputConflict))
    else (s, Success(""))
  }

  /** Reconciling the resolved items of a terminal response. */
  function ReconcileOutput(s: State, items: seq<IndexedItem>, streaming: bool): (r: (State, Result<Update, Failure>))
    requires ToolsOk(s)
    ensures ToolsOk(r.0) && SameItems(s, r.0)
  {
    var tools := ToolItems(items);
    if !HasMessage(items) && tools == [] then (s, Success(SILENT))
    else if !streaming then
      var content := if HasMessage(items) then MessageText(items) else "";
      (ReplaceTools(ResetTools(s.(content := content)), tools), Success(SILENT))
    else
      var (s1, text) := ReconcileMessage(s, items);
      match text
      case Failure(e) => (s1, Result.Failure(e))
      case Success(delta) =>
        var (s2, reconciled) := ReconcileTools(s1, tools);
        match reconciled
        case Failure(e) => (s2, Result.Failure(e))
        case Success(r) =>
          if |r.settled| != |s2.toolCalls| then (s2, Result.Failure(OutputConflict))
          else (s2, Success(Update(delta, r.deltas)))
  }

  /** reconcileTerminalOutput. */
  ghost function ReconcileTerminal(s: State, response: Response, streaming: bool): (r: (State, Result<Update, Failure>))
    requires ToolsOk(s)
    ensures ToolsOk(r.0)
  {
    match ListedItems(response.output)
    case None => (s, Result.Failure(MalformedEvent))
    case Some(listed) => ReconcileOutput(s, Resolved(listed, s.outputItems), streaming)
  }

  function IncompleteReason(reason: string): string {
    if reason == "content_filter" then "content_filter" else "length"
  }

  function FinishReason(incomplete: bool, response: Response, tools: seq<ToolCall>): string {
    if incomplete then IncompleteReason(response.incompleteReason)
    else if |tools| > 0 then "tool_calls"
    else "stop"
  }

  ghost function ApplyTerminal(s: State, incomplete: bool, response: Response, streaming: bool)
    : (r: (State, Result<Update, Failure>))
    requires ToolsOk(s)
    ensures ToolsOk(r.0)
  {
    var (s1, update) := ReconcileTerminal(s, response, streaming);
    if update.Failure? then (s1, update)
    else (s1.(finishReason := FinishReason(incomplete, response, s1.toolCalls), terminal := true), update)
  }

  // ----- one event -----

  /** applyResponsesEvent. */
  ghost function Apply(s: State, event: Event, streaming: bool): (r: (State, Result<Update, Failure>))
    requires ToolsOk(s)
    ensures ToolsOk(r.0)
  {
    if event.Malformed? then (s, Result.Failure(MalformedEvent))
    else if s.terminal then (s, Result.Failure(DataAfterTerminal))
    else
      match event
      case Malformed => (s, Result.Failure(MalformedEvent))
      case Created(hasResponse) => (s, if hasResponse then Success(SILENT) else Result.Failure(MalformedEvent))
      case TextDelta(None) => (s, Result.Failure(MalformedEvent))
      case TextDelta(Some(delta)) => (s.(content := s.content + delta), Success(Update(delta, [])))
      case TextDone(text) =>
        var (s1, delta) := ReconcileText(s, text, streaming);
        (s1, TextUpdate(delta))
      case ItemAdded(None, _) => (s, Result.Failure(MalformedEvent))
      case ItemAdded(Some(item), explicit) =>
        if !item.kind.FunctionCall? then (s, Success(SILENT))
        else
          var (s1, outputIndex) := OutputIndexFor(s, explicit, item);
          var (s2, index, created) := Ensure(s1, item, outputIndex);
          (s2, Success(if created then Update("", [InitialDeltaOf(s2, index)]) else SILENT))
      case ItemDone(None, _) => (s, Result.Failure(MalformedEvent))
      case ItemDone(Some(item), explicit) =>
        var (s1, outputIndex) := OutputIndexFor(s, explicit, item);
        var s2 := s1.(outputItems := s1.outputItems[outputIndex := item]);
        if streaming then ReconcileItem(s2, item, outputIndex) else (s2, Success(SILENT))
      case ArgumentsDelta(target, delta) =>
        var index := ToolFor(s, target);
        if index < 0 || delta.None? then (s, Result.Failure(MalformedEvent))
        else
          (SetArguments(s, index, s.toolCalls[index].arguments + delta.value),
           Success(Update("", [ToolDelta.ArgumentsDelta(index, delta.value)])))
      case ArgumentsDone(target, arguments) =>
        var index := ToolFor(s, target);
        if index < 0 || arguments.None? then (s, Result.Failure(MalformedEvent))
        else
          var (s1, delta) := ReconcileArguments(s, index, arguments.value, streaming);
          (s1, match delta
               case Failure(e) => Result.Failure(e)
               case Success(d) => Success(Update("", ArgumentsUpdate(index, d))))
      case Terminal(_, None) => (s, Result.Failure(MalformedEvent))
      case Terminal(incomplete, Some(response)) => ApplyTerminal(s, incomplete, response, streaming)
      case Failed => (s, Result.Failure(UpstreamFailed))
      case Unrecognized => (s, Success(SILENT))
  }

  // ----- runs of events -----

  /** The state and the updates after a run, or nothing if an event was refused. */
  ghost function Process(events: seq<Event>, streaming: bool): (r: Option<(State, seq<Update>)>)
    ensures r.Some? ==> ToolsOk(r.value.0)
  {
    if events == [] then Some((INITIAL, []))
    else
      match Process(events[..|events| - 1], streaming)
      case None => None
      case Some((s, updates)) =>
        var (s', update) := Apply(s, events[|events| - 1], streaming);
        if update.Failure? then None else Some((s', updates + [update.value]))
  }

  function Contents(updates: seq<Update>): seq<string> {
    seq(|updates|, i requires 0 <= i < |updates| => updates[i].content)
  }

  function ToolDeltas(updates: seq<Update>): seq<ToolDelta> {
    if updates == [] then [] else ToolDeltas(updates[..|updates| - 1]) + updates[|updates| - 1].tools
  }

  /** What a client rebuilds from tool deltas: one argument string for each tool call. */
  function Replay(args: seq<string>, deltas: seq<ToolDelta>): Option<seq<string>> {
    if deltas == [] then Some(args)
    else
      match Replay(args, deltas[..|deltas| - 1])
      case None => None
      case Some(before) =>
        match deltas[|deltas| - 1]
        case InitialDelta(index, _, _, arguments) =>
          if index == |before| then Some(before + [arguments]) else None
        case ArgumentsDelta(index, delta) =>
          if index < |before| then Some(before[index := before[index] + delta]) else None
  }

  lemma {:induction false} ReplayConcat(args: seq<string>, first: seq<ToolDelta>, second: seq<ToolDelta>)
    requires Replay(args, first).Some?
    ensures Replay(args, first + second) == Replay(Replay(args, first).value, second)
  {
    if second == [] {
      assert first + second == first;
    } else {
      ReplayConcat(args, first, second[..|second| - 1]);
      assert (first + second)[..|first + second| - 1] == first + second[..|second| - 1];
    }
  }

  function StoredArguments(s: State): seq<string> {
    seq(|s.toolCalls|, i requires 0 <= i < |s.toolCalls| => s.toolCalls[i].arguments)
  }

  // ----- what streaming sends is what the machine stores -----

  /** One step's updates, applied by a client, take it from the old state to the new one. */
  ghost predicate Sends(s: State, s': State, content: string, tools: seq<ToolDelta>) {
    && s'.content == s.content + content
    && Replay(StoredArguments(s), tools) == Some(StoredArguments(s'))
  }

  lemma SendsCompose(s: State, mid: State, s': State, c1: string, c2: string, t1: seq<ToolDelta>, t2: seq<ToolDelta>)
    requires Sends(s, mid, c1, t1) && Sends(mid, s', c2, t2)
    ensures Sends(s, s', c1 + c2, t1 + t2)
  {
    ReplayConcat(StoredArguments(s), t1, t2);
  }

  lemma EnsureStores(s: State, item: Item, outputIndex: int)
    requires ToolsOk(s)
    ensures var (s', index, created) := Ensure(s, item, outputIndex);
      && s'.content == s.content
      && (!created ==> StoredArguments(s') == StoredArguments(s))
      && (created ==> index == |s.toolCalls| && StoredArguments(s') == StoredArguments(s) + [""])
  {
  }

  lemma SetStores(s: State, index: nat, arguments: string)
    requires ToolsOk(s) && index < |s.toolCalls|
    ensures StoredArguments(SetArguments(s, index, arguments)) == StoredArguments(s)[index := arguments]
    ensures s.toolCalls[index].arguments == arguments ==> SetArguments(s, index, arguments) == s
  {
    if s.toolCalls[index].arguments == arguments {
      assert s.toolCalls[index].(arguments := arguments) == s.toolCalls[index];
      assert s.toolCalls[index := s.toolCalls[index]] == s.toolCalls;
    }
  }

  lemma ExtendSends(s: State, index: nat, delta: string)
    requires ToolsOk(s) && index < |s.toolCalls|
    ensures var s' := SetArguments(s, index, s.toolCalls[index].arguments + delta);
      Sends(s, s', "", [ToolDelta.ArgumentsDelta(index, delta)])
  {
    var deltas := [ToolDelta.ArgumentsDelta(index, delta)];
    assert deltas[..0] == [];
    SetStores(s, index, s.toolCalls[index].arguments + delta);
  }

  lemma CreateSends(s: State, s1: State, index: nat, arguments: string)
    requires ToolsOk(s1) && index == |s.toolCalls| < |s1.toolCalls|
    requires s1.content == s.content && StoredArguments(s1) == StoredArguments(s) + [""]
    ensures var s2 := SetArguments(s1, index, s1.toolCalls[index].arguments + arguments);
      Sends(s, s2, "", [InitialDeltaOf(s2, index)])
  {
    var s2 := SetArguments(s1, index, s1.toolCalls[index].arguments + arguments);
    var deltas := [InitialDeltaOf(s2, index)];
    assert deltas[..0] == [];
    assert StoredArguments(s1)[index] == "" && "" + arguments == arguments;
    SetStores(s1, index, s1.toolCalls[index].arguments + arguments);
    assert (StoredArguments(s) + [""])[index := arguments] == StoredArguments(s) + [arguments];
  }

  lemma ReconcileArgumentsSends(s: State, index: nat, full: string)
    requires ToolsOk(s) && index < |s.toolCalls|
    ensures var (s', delta) := ReconcileArguments(s, index, full, true);
      delta.Success? ==> Sends(s, s', "", ArgumentsUpdate(index, delta.value)) && s'.toolCalls[index].arguments == full
  {
    var current := s.toolCalls[index].arguments;
    if current <= full {
      var delta := full[|current|..];
      assert current + delta == full;
      if delta == "" {
        assert current == full;
        SetStores(s, index, full);
      } else {
        ExtendSends(s, index, delta);
      }
    }
  }

  lemma ReconcileToolSends(s: State, item: Item, outputIndex: int)
    requires ToolsOk(s)
    ensures var (s', deltas) := ReconcileTool(s, item, outputIndex);
      deltas.Success? ==> Sends(s, s', "", deltas.value)
  {
    EnsureStores(s, item, outputIndex);
    var (s1, index, created) := Ensure(s, item, outputIndex);
    if created {
      CreateSends(s, s1, index, item.arguments);
    } else {
      ReconcileArgumentsSends(s1, index, item.arguments);
      var (s2, delta) := ReconcileArguments(s1, index, item.arguments, true);
      if delta.Success? {
        SendsCompose(s, s1, s2, "", "", [], ArgumentsUpdate(index, delta.value));
        assert [] + ArgumentsUpdate(index, delta.value) == ArgumentsUpdate(index, delta.value);
      }
    }
  }

  lemma ReconcileTextSends(s: State, snapshot: string)
    requires ToolsOk(s)
    ensures var (s', delta) := ReconcileText(s, snapshot, true);
      delta.Success? ==> Sends(s, s', delta.value, []) && s'.content == snapshot
  {
  }

  lemma {:induction false} ReconcileToolsSends(s: State, items: seq<IndexedItem>)
    requires ToolsOk(s)
    ensures var (s', r) := ReconcileTools(s, items);
      r.Success? ==> Sends(s, s', "", r.value.deltas)
  {
    if items == [] {
    } else {
      var init, last := items[..|items| - 1], items[|items| - 1];
      ReconcileToolsSends(s, init);
      var (s1, before) := ReconcileTools(s, init);
      if before.Success? {
        ReconcileToolSends(s1, last.item, last.index);
        var (s2, deltas) := ReconcileTool(s1, last.item, last.index);
        if deltas.Success? {
          SendsCompose(s, s1, s2, "", "", before.value.deltas, deltas.value);
          assert "" + "" == "";
        }
      }
    }
  }

  lemma ReconcileOutputSends(s: State, items: seq<IndexedItem>)
    requires ToolsOk(s)
    ensures var (s', update) := ReconcileOutput(s, items, true);
      update.Success? ==> Sends(s, s', update.value.content, update.value.tools)
  {
    var tools := ToolItems(items);
    ReconcileTextSends(s, MessageText(items));
    var (s1, text) := ReconcileMessage(s, items);
    if text.Success? {
      ReconcileToolsSends(s1, tools);
      var (s2, r) := ReconcileTools(s1, tools);
      if r.Success? {
        assert Sends(s, s1, text.value, []);
        SendsCompose(s, s1, s2, text.value, "", [], r.value.deltas);
        assert [] + r.value.deltas == r.value.deltas && text.value + "" == text.value;
      }
    }
  }

  lemma OpenSends(s: State, item: Item, outputIndex: int)
    requires ToolsOk(s)
    ensures var (s', index, created) := Ensure(s, item, outputIndex);
      Sends(s, s', "", if created then [InitialDeltaOf(s', index)] else [])
  {
    EnsureStores(s, item, outputIndex);
    var (s', index, created) := Ensure(s, item, outputIndex);
    if created {
      CreateSends(s, s', index, "");
      assert StoredArguments(s')[index] == "";
      assert s'.toolCalls[index].arguments + "" == s'.toolCalls[index].arguments;
      SetStores(s', index, s'.toolCalls[index].arguments + "");
    } else {
    }
  }

  lemma OutputIndexStores(s: State, explicit: Option<int>, item: Item)
    requires ToolsOk(s)
    ensures var s1 := OutputIndexFor(s, explicit, item).0;
      s1 == s.(nextOutputIndex := s1.nextOutputIndex) && StoredArguments(s1) == StoredArguments(s)
  {
  }

  lemma ItemAddedSends(s: State, item: Item, explicit: Option<int>)
    requires ToolsOk(s) && !s.terminal
    ensures var (s', update) := Apply(s, ItemAdded(Some(item), explicit), true);
      update.Success? ==> Sends(s, s', update.value.content, update.value.tools)
  {
    if item.kind.FunctionCall? {
      OutputIndexStores(s, explicit, item);
      var (s1, outputIndex) := OutputIndexFor(s, explicit, item);
      OpenSends(s1, item, outputIndex);
    } else {
    }
  }

  lemma ReconcileItemSends(s: State, item: Item, outputIndex: int)
    requires ToolsOk(s)
    ensures var (s', update) := ReconcileItem(s, item, outputIndex);
      update.Success? ==> Sends(s, s', update.value.content, update.value.tools)
  {
    match item.kind
    case Message => ReconcileTextSends(s, item.text);
    case FunctionCall => ReconcileToolSends(s, item, outputIndex);
    case OtherKind =>
  }

  lemma ItemDoneSends(s: State, item: Item, explicit: Option<int>)
    requires ToolsOk(s) && !s.terminal
    ensures var (s', update) := Apply(s, ItemDone(Some(item), explicit), true);
      update.Success? ==> Sends(s, s', update.value.content, update.value.tools)
  {
    OutputIndexStores(s, explicit, item);
    var (s1, outputIndex) := OutputIndexFor(s, explicit, item);
    var s2 := s1.(outputItems := s1.outputItems[outputIndex := item]);
    assert StoredArguments(s2) == StoredArguments(s1);
    ReconcileItemSends(s2, item, outputIndex);
  }

  /** Every accepted event keeps the client in step. */
  lemma ApplySends(s: State, event: Event)
    requires ToolsOk(s)
    ensures var (s', update) := Apply(s, event, true);
      update.Success? ==> Sends(s, s', update.value.content, update.value.tools)
  {
    if !s.terminal {
      match event
      case ItemAdded(Some(item), explicit) => ItemAddedSends(s, item, explicit);
      case ItemDone(Some(item), explicit) => ItemDoneSends(s, item, explicit);
      case TextDone(text) => ReconcileTextSends(s, text);
      case ArgumentsDelta(target, delta) =>
        if ToolFor(s, target) >= 0 && delta.Some? {
          ExtendSends(s, ToolFor(s, target), delta.value);
        }
      case ArgumentsDone(target, arguments) =>
        if ToolFor(s, target) >= 0 && arguments.Some? {
          ReconcileArgumentsSends(s, ToolFor(s, target), arguments.value);
        }
      case Terminal(_, response) =>
        if response.Some? {
          var listed := ListedItems(response.value.output);
          if listed.Some? {
            ReconcileOutputSends(s, Resolved(listed.value, s.outputItems));
          }
        }
      case _ =>
    }
  }

  /**
   * After every accepted run in streaming mode the content deltas add up to the stored content, and the
   * tool deltas rebuild the stored calls: each index opened once, in creation order, before it is extended.
   */
  lemma {:induction false} StreamedIsStored(events: seq<Event>)
    ensures var r := Process(events, true);
      r.Some? ==>
        && StopFilter.Concat(Contents(r.value.1)) == r.value.0.content
        && Replay([], ToolDeltas(r.value.1)) == Some(StoredArguments(r.value.0))
  {
    if events != [] && Process(events, true).Some? {
      var init := events[..|events| - 1];
      StreamedIsStored(init);
      var (s, updates) := Process(init, true).value;
      ApplySends(s, events[|events| - 1]);
      var (s', updates') := Process(events, true).value;
      var contents := Contents(updates');
      assert contents[..|contents| - 1] == Contents(updates);
      assert updates'[..|updates'| - 1] == updates;
      ReplayConcat([], ToolDeltas(updates), updates'[|updates|].tools);
    } else {
      assert StoredArguments(INITIAL) == [];
    }
  }

  // ----- the terminal snapshot in streaming mode -----

  lemma EnsuredIsFound(s: State, last: IndexedItem)
    requires ToolsOk(s)
    ensures var (s', index, created) := Ensure(s, last.item, last.index); SettledTool(s', last) == index
  {
  }

  lemma SetKeepsLookup(s: State, index: nat, arguments: string, last: IndexedItem)
    requires ToolsOk(s) && index < |s.toolCalls|
    ensures SettledTool(SetArguments(s, index, arguments), last) == SettledTool(s, last)
  {
  }

  /** Only call `index`, old or just appended, may differ. */
  ghost predicate OnlyChanges(s: State, s': State, index: nat) {
    && |s.toolCalls| <= |s'.toolCalls| <= |s.toolCalls| + 1 && index < |s'.toolCalls|
    && (|s'.toolCalls| > |s.toolCalls| ==> index == |s.toolCalls|)
    && forall j :: 0 <= j < |s.toolCalls| && j != index ==> s'.toolCalls[j] == s.toolCalls[j]
  }

  /** The call is the item's: its call ID and name, if the item has them, its slot and its arguments. */
  ghost predicate IsCallOf(call: ToolCall, last: IndexedItem) {
    && (CallIdOf(last.item) != "" ==> call.id == CallIdOf(last.item))
    && (last.item.name != "" ==> call.name == last.item.name)
    && call.outputIndex == last.index && call.arguments == last.item.arguments
  }

  /** A snapshot item settles on the very tool call it was reconciled with. */
  lemma SettledIsEnsured(s: State, last: IndexedItem)
    requires ToolsOk(s)
    ensures var (s', deltas) := ReconcileTool(s, last.item, last.index);
      var index := Ensure(s, last.item, last.index).1;
      deltas.Success? ==>
        && SettledTool(s', last) == index && OnlyChanges(s, s', index) && IsCallOf(s'.toolCalls[index], last)
  {
    var (s1, index, created) := Ensure(s, last.item, last.index);
    EnsuredIsFound(s, last);
    if created {
      assert s1.toolCalls[index].arguments == "" && "" + last.item.arguments == last.item.arguments;
      SetKeepsLookup(s1, index, s1.toolCalls[index].arguments + last.item.arguments, last);
    } else {
      SetKeepsLookup(s1, index, last.item.arguments, last);
    }
  }

  /** The calls that the snapshot items are reconciled with, each when its turn comes. */
  function CallsOf(s: State, items: seq<IndexedItem>): (owners: seq<nat>)
    requires ToolsOk(s)
    ensures |owners| == |items|
  {
    if items == [] then []
    else
      var init, last := items[..|items| - 1], items[|items| - 1];
      CallsOf(s, init) + [Ensure(ReconcileTools(s, init).0, last.item, last.index).1]
  }

  /** One of the items reconciled with call `i` left the call as it is. */
  ghost predicate SettledBy(call: ToolCall, i: nat, owners: seq<nat>, items: seq<IndexedItem>)
    requires |owners| == |items|
  {
    exists k :: 0 <= k < |items| && owners[k] == i && IsCallOf(call, items[k])
  }

  function Below(n: nat): (below: set<int>)
    ensures forall i: int :: i in below <==> 0 <= i < n
    ensures |below| == n
  {
    if n == 0 then {} else Below(n - 1) + {n - 1}
  }

  /** The items' calls are the settled ones, and each settled call is one of its items'. */
  ghost predicate SettledOk(owners: seq<nat>, calls: seq<ToolCall>, settled: set<int>, items: seq<IndexedItem>)
    requires |owners| == |items|
  {
    && settled <= Below(|calls|) && |settled| <= |items|
    && (forall i :: 0 <= i < |calls| && i in settled ==> SettledBy(calls[i], i, owners, items))
    && forall k :: 0 <= k < |items| ==> owners[k] in settled
  }

  lemma SettleOneMore(
    calls: seq<ToolCall>, calls': seq<ToolCall>, settled: set<int>, owners: seq<nat>, init: seq<IndexedItem>,
    last: IndexedItem, index: nat)
    requires |owners| == |init| && SettledOk(owners, calls, settled, init)
    requires |calls| <= |calls'| <= |calls| + 1 && index < |calls'| && (|calls'| > |calls| ==> index == |calls|)
    requires forall j :: 0 <= j < |calls| && j != index ==> calls'[j] == calls[j]
    requires IsCallOf(calls'[index], last)
    ensures SettledOk(owners + [index], calls', settled + {index}, init + [last])
  {
    var items, owners' := init + [last], owners + [index];
    forall i | 0 <= i < |calls'| && i in settled + {index}
      ensures SettledBy(calls'[i], i, owners', items)
    {
      if i == index {
        assert owners'[|init|] == i && IsCallOf(calls'[i], items[|init|]);
      } else {
        assert i in Below(|calls|) && SettledBy(calls[i], i, owners, init);
        var k :| 0 <= k < |init| && owners[k] == i && IsCallOf(calls[i], init[k]);
        assert owners'[k] == i && IsCallOf(calls'[i], items[k]);
      }
    }
  }

  lemma {:induction false} SettledToolsMatch(s: State, items: seq<IndexedItem>)
    requires ToolsOk(s)
    ensures var (s', r) := ReconcileTools(s, items);
      r.Success? ==> SettledOk(CallsOf(s, items), s'.toolCalls, r.value.settled, items)
  {
    if items != [] {
      var init, last := items[..|items| - 1], items[|items| - 1];
      assert items == init + [last];
      SettledToolsMatch(s, init);
      var (s1, before) := ReconcileTools(s, init);
      if before.Success? {
        SettledIsEnsured(s1, last);
        var (s2, deltas) := ReconcileTool(s1, last.item, last.index);
        if deltas.Success? {
          var index := Ensure(s1, last.item, last.index).1;
          SettleOneMore(s1.toolCalls, s2.toolCalls, before.value.settled, CallsOf(s, init), init, last, index);
        }
      }
    }
  }

  lemma FullSetHasAll(settled: set<int>, n: nat)
    requires settled <= Below(n) && |settled| == n
    ensures settled == Below(n)
  {
    assert Below(n) == settled + (Below(n) - settled);
    assert |Below(n) - settled| == 0;
  }

  /** The items' calls are all calls, and each call has the identity and the arguments of one of its items. */
  ghost predicate AllSettled(owners: seq<nat>, calls: seq<ToolCall>, items: seq<IndexedItem>)
    requires |owners| == |items|
  {
    && |calls| <= |items|
    && (forall i :: 0 <= i < |calls| ==> SettledBy(calls[i], i, owners, items))
    && forall k :: 0 <= k < |items| ==> owners[k] < |calls|
  }

  lemma SizeDecides(owners: seq<nat>, calls: seq<ToolCall>, settled: set<int>, items: seq<IndexedItem>)
    requires |owners| == |items| && SettledOk(owners, calls, settled, items)
    ensures |settled| == |calls| <==> AllSettled(owners, calls, items)
  {
    if |settled| == |calls| {
      FullSetHasAll(settled, |calls|);
    }
    if AllSettled(owners, calls, items) {
      forall i | 0 <= i < |calls|
        ensures i in settled
      {
        assert SettledBy(calls[i], i, owners, items);
      }
      assert settled == Below(|calls|);
    }
  }

  /** The size check of the terminal event lets a snapshot pass exactly when it settles every call. */
  lemma SnapshotSettlesAll(s: State, tools: seq<IndexedItem>)
    requires ToolsOk(s)
    ensures var (s', r) := ReconcileTools(s, tools);
      r.Success? ==>
        && s'.content == s.content
        && (|r.value.settled| == |s'.toolCalls| <==> AllSettled(CallsOf(s, tools), s'.toolCalls, tools))
  {
    var (s', r) := ReconcileTools(s, tools);
    if r.Success? {
      ReconcileToolsSends(s, tools);
      SettledToolsMatch(s, tools);
      SizeDecides(CallsOf(s, tools), s'.toolCalls, r.value.settled, tools);
    }
  }

  lemma ReconciledMessage(s: State, items: seq<IndexedItem>)
    requires ToolsOk(s)
    ensures var (s', text) := ReconcileMessage(s, items);
      text.Success? ==> s' == s.(content := MessageText(items))
  {
    NoMessageNoText(items);
  }

  /**
   * When streaming accepts a terminal event whose resolved output has a message or a tool call, the
   * content is exactly the snapshot's text in order, and the snapshot's tool items map onto the streamed
   * calls: there are at least as many, and each call has the identity and arguments of one of its own.
   */
  lemma AcceptedTerminalMatchesSnapshot(s: State, incomplete: bool, response: Response)
    requires ToolsOk(s) && ListedItems(response.output).Some?
    requires ApplyTerminal(s, incomplete, response, true).1.Success?
    ensures var s' := ApplyTerminal(s, incomplete, response, true).0;
      var items := Resolved(ListedItems(response.output).value, s.outputItems);
      HasMessage(items) || ToolItems(items) != [] ==>
        && s'.content == MessageText(items)
        && AllSettled(CallsOf(s.(content := MessageText(items)), ToolItems(items)), s'.toolCalls, ToolItems(items))
  {
    var items := Resolved(ListedItems(response.output).value, s.outputItems);
    var tools := ToolItems(items);
    if HasMessage(items) || tools != [] {
      ReconciledMessage(s, items);
      SnapshotSettlesAll(ReconcileMessage(s, items).0, tools);
    }
  }

  lemma {:induction false} NoMessageNoText(items: seq<IndexedItem>)
    ensures !HasMessage(items) ==> MessageText(items) == ""
  {
    if items != [] && !HasMessage(items) {
      NoMessageNoText(items[..|items| - 1]);
    }
  }
}
