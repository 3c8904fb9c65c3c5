/**
 Agent-trace exports: events build messages that carry nested lists of tool calls. Flattened, those lists are
 one chronological call list, and results resolve calls as a stack does.
 */
module TraceParse {
  import opened JsStrings
  import opened Wrappers

  /** `Inherited` is what the alias table, a plain object, answers for a property of every object. */
  datatype Role = System | User | Assistant | Tool | Inherited(property: string)

  datatype ToolCall = ToolCall(name: string, ok: Option<bool>)

  datatype Message = Message(role: Role, text: string, toolCalls: seq<ToolCall>)

  const MAX_MESSAGES: nat := 20_000

  // ------------------------------------------------------------- the flat call list

  function Flat(ms: seq<Message>): seq<ToolCall> {
    if ms == [] then [] else Flat(ms[..|ms| - 1]) + ms[|ms| - 1].toolCalls
  }

  datatype CallOp = Open(name: string) | Close(ok: bool)

  predicate Unresolved(c: ToolCall) {
    c.ok.None?
  }

  /** The latest unresolved call gets the result; without one nothing changes. */
  function ResolveLast(calls: seq<ToolCall>, ok: bool): (r: seq<ToolCall>)
    ensures |r| == |calls|
  {
    if calls == [] then [] else
      var last := calls[|calls| - 1];
      if Unresolved(last) then calls[..|calls| - 1] + [last.(ok := Some(ok))]
      else ResolveLast(calls[..|calls| - 1], ok) + [last]
  }

  function CallStep(calls: seq<ToolCall>, op: CallOp): seq<ToolCall> {
    match op
    case Open(name) => calls + [ToolCall(name, None)]
    case Close(ok) => ResolveLast(calls, ok)
  }

  function CallRun(calls: seq<ToolCall>, ops: seq<CallOp>): seq<ToolCall> {
    if ops == [] then calls else CallStep(CallRun(calls, ops[..|ops| - 1]), ops[|ops| - 1])
  }

  // ------------------------------------------------------------- an independent reading: a stack of open calls

  /** Names in call order, the result each call got, and the stack of calls still open. */
  datatype Matching = Matching(names: seq<string>, results: map<nat, bool>, open: seq<nat>)

  const UNMATCHED: Matching := Matching([], map[], [])

  function MatchStep(m: Matching, op: CallOp): Matching {
    match op
    case Open(name) => m.(names := m.names + [name], open := m.open + [|m.names|])
    case Close(ok) =>
      if m.open == [] then m
      else m.(results := m.results[m.open[|m.open| - 1] := ok], open := m.open[..|m.open| - 1])
  }

  function MatchRun(ops: seq<CallOp>): Matching {
    if ops == [] then UNMATCHED else MatchStep(MatchRun(ops[..|ops| - 1]), ops[|ops| - 1])
  }

  /** The stack lists the calls without a result, in order. */
  ghost predicate StackOk(m: Matching) {
    && (forall i :: 0 <= i < |m.open| ==> m.open[i] < |m.names| && m.open[i] !in m.results)
    && (forall i, j :: 0 <= i < j < |m.open| ==> m.open[i] < m.open[j])
    && (forall i :: 0 <= i < |m.names| && i !in m.results ==> i in m.open)
    && (forall i :: i in m.results ==> i < |m.names|)
  }

  /** The list and the matching say the same of every call. */
  ghost predicate Agrees(calls: seq<ToolCall>, m: Matching) {
    && |calls| == |m.names|
    && (forall i :: 0 <= i < |calls| ==>
          calls[i] == ToolCall(m.names[i], if i in m.results then Some(m.results[i]) else None))
  }

  ghost predicate Matches(calls: seq<ToolCall>, m: Matching) {
    Agrees(calls, m) && StackOk(m)
  }

  lemma {:induction false} ResolveLastIs(calls: seq<ToolCall>, ok: bool, k: nat)
    requires k < |calls| && Unresolved(calls[k])
    requires forall i :: k < i < |calls| ==> !Unresolved(calls[i])
    ensures ResolveLast(calls, ok) == calls[k := calls[k].(ok := Some(ok))]
  {
    if k < |calls| - 1 {
      ResolveLastIs(calls[..|calls| - 1], ok, k);
    }
  }

  lemma {:induction false} ResolveLastNone(calls: seq<ToolCall>, ok: bool)
    requires forall i :: 0 <= i < |calls| ==> !Unresolved(calls[i])
    ensures ResolveLast(calls, ok) == calls
  {
    if calls != [] { ResolveLastNone(calls[..|calls| - 1], ok); }
  }

  /** Everything after the top of the stack has its result. */
  lemma TopIsLatest(m: Matching, i: nat)
    requires StackOk(m) && m.open != [] && m.open[|m.open| - 1] < i < |m.names|
    ensures i in m.results
  {
    assert forall j :: 0 <= j < |m.open| ==> m.open[j] <= m.open[|m.open| - 1];
    assert i !in m.open;
  }

  lemma StackStep(m: Matching, op: CallOp)
    requires StackOk(m)
    ensures StackOk(MatchStep(m, op))
  {
    var m' := MatchStep(m, op);
    forall i | 0 <= i < |m'.names| && i !in m'.results
      ensures i in m'.open
    {
      if i == |m.names| {
        assert m'.open[|m.open|] == i;
      } else {
        var j :| 0 <= j < |m.open| && m.open[j] == i;
        assert m'.open[j] == i;
      }
    }
  }

  lemma CloseAgrees(calls: seq<ToolCall>, m: Matching, ok: bool)
    requires Agrees(calls, m) && StackOk(m)
    ensures Agrees(ResolveLast(calls, ok), MatchStep(m, Close(ok)))
  {
    if m.open == [] {
      ResolveLastNone(calls, ok);
    } else {
      var k := m.open[|m.open| - 1];
      forall i | k < i < |calls|
        ensures !Unresolved(calls[i])
      {
        TopIsLatest(m, i);
      }
      ResolveLastIs(calls, ok, k);
    }
  }

  lemma MatchStepMatches(calls: seq<ToolCall>, m: Matching, op: CallOp)
    requires Matches(calls, m)
    ensures Matches(CallStep(calls, op), MatchStep(m, op))
  {
    hide StackOk, ResolveLast;
    StackStep(m, op);
    if op.Close? {
      hide Agrees;
      CloseAgrees(calls, m, op.ok);
    } else {
      hide StackOk;
      OpenResults(m);
    }
  }

  lemma OpenResults(m: Matching)
    requires StackOk(m)
    ensures |m.names| !in m.results
  {
  }

  /** For every run of calls and results, each result goes to the call on top of the stack. */
  lemma {:induction false} ResultsFollowTheStack(ops: seq<CallOp>)
    ensures Matches(CallRun([], ops), MatchRun(ops))
  {
    hide Matches, CallStep, MatchStep;
    if ops == [] {
      NothingMatches();
    } else {
      ResultsFollowTheStack(ops[..|ops| - 1]);
      MatchStepMatches(CallRun([], ops[..|ops| - 1]), MatchRun(ops[..|ops| - 1]), ops[|ops| - 1]);
    }
  }

  lemma NothingMatches()
    ensures Matches([], UNMATCHED)
  {
  }

  // ------------------------------------------------------------- counting

  function OpenCount(calls: seq<ToolCall>): nat {
    if calls == [] then 0
    else OpenCount(calls[..|calls| - 1]) + if Unresolved(calls[|calls| - 1]) then 1 else 0
  }

  function FailedCount(calls: seq<ToolCall>): nat {
    if calls == [] then 0
    else FailedCount(calls[..|calls| - 1]) + if calls[|calls| - 1].ok == Some(false) then 1 else 0
  }

  /** A counter of open calls that stops at zero, and the error results that met an open call. */
  function BalanceStep(b: (nat, nat), op: CallOp): (nat, nat) {
    match op
    case Open(_) => (b.0 + 1, b.1)
    case Close(ok) => if b.0 == 0 then b else (b.0 - 1, if ok then b.1 else b.1 + 1)
  }

  function Balance(ops: seq<CallOp>): (nat, nat) {
    if ops == [] then (0, 0) else BalanceStep(Balance(ops[..|ops| - 1]), ops[|ops| - 1])
  }

  lemma {:induction false} ResolveCounts(calls: seq<ToolCall>, ok: bool)
    ensures OpenCount(ResolveLast(calls, ok)) == if OpenCount(calls) == 0 then 0 else OpenCount(calls) - 1
    ensures FailedCount(ResolveLast(calls, ok))
            == FailedCount(calls) + if OpenCount(calls) > 0 && !ok then 1 else 0
  {
    if calls != [] {
      var n, r := |calls| - 1, ResolveLast(calls, ok);
      ResolveCounts(calls[..n], ok);
      assert r[..n] == if Unresolved(calls[n]) then calls[..n] else ResolveLast(calls[..n], ok);
    }
  }

  lemma OpenCounts(calls: seq<ToolCall>, name: string)
    ensures OpenCount(calls + [ToolCall(name, None)]) == OpenCount(calls) + 1
    ensures FailedCount(calls + [ToolCall(name, None)]) == FailedCount(calls)
  {
    assert (calls + [ToolCall(name, None)])[..|calls|] == calls;
  }

  lemma StepCounts(calls: seq<ToolCall>, op: CallOp)
    ensures (OpenCount(CallStep(calls, op)), FailedCount(CallStep(calls, op)))
            == BalanceStep((OpenCount(calls), FailedCount(calls)), op)
  {
    hide OpenCount, FailedCount, ResolveLast;
    match op
    case Open(name) => OpenCounts(calls, name);
    case Close(ok) => ResolveCounts(calls, ok);
  }

  lemma {:induction false} CountsFollowBalance(ops: seq<CallOp>)
    ensures (OpenCount(CallRun([], ops)), FailedCount(CallRun([], ops))) == Balance(ops)
  {
    hide CallStep, BalanceStep;
    if ops != [] {
      CountsFollowBalance(ops[..|ops| - 1]);
      StepCounts(CallRun([], ops[..|ops| - 1]), ops[|ops| - 1]);
    }
  }

  // ------------------------------------------------------------- messages

  predicate HasAssistant(ms: seq<Message>) {
    exists m :: m in ms && m.role == Assistant
  }

  /** The last assistant message gets the call. */
  function Appended(ms: seq<Message>, call: ToolCall): seq<Message> {
    if ms == [] then [] else
      var front, last := ms[..|ms| - 1], ms[|ms| - 1];
      if last.role == Assistant then front + [last.(toolCalls := last.toolCalls + [call])]
      else Appended(front, call) + [last]
  }

  function Attached(ms: seq<Message>, call: ToolCall): seq<Message> {
    if HasAssistant(ms) then Appended(ms, call) else ms + [Message(Assistant, "", [call])]
  }

  predicate AnyUnresolved(calls: seq<ToolCall>) {
    exists c :: c in calls && Unresolved(c)
  }

  /** The last message with an unresolved call gets the result. */
  function Marked(ms: seq<Message>, ok: bool): seq<Message> {
    if ms == [] then [] else
      var front, last := ms[..|ms| - 1], ms[|ms| - 1];
      if AnyUnresolved(last.toolCalls) then front + [last.(toolCalls := ResolveLast(last.toolCalls, ok))]
      else Marked(front, ok) + [last]
  }

  /** Only assistant messages carry calls. */
  ghost predicate CallsOnAssistants(ms: seq<Message>) {
    forall i :: 0 <= i < |ms| && ms[i].role != Assistant ==> ms[i].toolCalls == []
  }

  /** What was said, without the calls. */
  function Lines(ms: seq<Message>): seq<(Role, string)> {
    seq(|ms|, i requires 0 <= i < |ms| => (ms[i].role, ms[i].text))
  }

  lemma FlatAppends(ms: seq<Message>, m: Message)
    ensures Flat(ms + [m]) == Flat(ms) + m.toolCalls
  {
    assert (ms + [m])[..|ms|] == ms;
  }

  lemma {:induction false} AppendedFlat(ms: seq<Message>, call: ToolCall)
    requires HasAssistant(ms) && CallsOnAssistants(ms)
    ensures Flat(Appended(ms, call)) == Flat(ms) + [call]
    ensures Lines(Appended(ms, call)) == Lines(ms) && CallsOnAssistants(Appended(ms, call))
  {
    var front, last := ms[..|ms| - 1], ms[|ms| - 1];
    assert ms == front + [last];
    if last.role == Assistant {
      FlatAppends(front, last.(toolCalls := last.toolCalls + [call]));
    } else {
      AppendedFlat(front, call);
      FlatAppends(Appended(front, call), last);
      LinesAppend(front, last);
      LinesAppend(Appended(front, call), last);
    }
  }

  lemma LinesAppend(ms: seq<Message>, m: Message)
    ensures Lines(ms + [m]) == Lines(ms) + [(m.role, m.text)]
  {
  }

  /** Attaching a call appends it to the flat list. */
  lemma AttachedFlat(ms: seq<Message>, call: ToolCall)
    requires CallsOnAssistants(ms)
    ensures Flat(Attached(ms, call)) == Flat(ms) + [call] && CallsOnAssistants(Attached(ms, call))
    ensures Lines(Attached(ms, call)) == if HasAssistant(ms) then Lines(ms) else Lines(ms) + [(Assistant, "")]
  {
    hide Flat, Appended;
    if HasAssistant(ms) {
      AppendedFlat(ms, call);
    } else {
      FlatAppends(ms, Message(Assistant, "", [call]));
      LinesAppend(ms, Message(Assistant, "", [call]));
    }
  }

  lemma {:induction false} ResolveLastJoins(a: seq<ToolCall>, b: seq<ToolCall>, ok: bool)
    ensures ResolveLast(a + b, ok) == if AnyUnresolved(b) then a + ResolveLast(b, ok) else ResolveLast(a, ok) + b
  {
    if b == [] {
      assert a + b == a;
    } else {
      var front, last := b[..|b| - 1], b[|b| - 1];
      assert b == front + [last] && (a + b)[..|a + b| - 1] == a + front;
      if !Unresolved(last) {
        ResolveLastJoins(a, front, ok);
        assert AnyUnresolved(b) <==> AnyUnresolved(front);
      } else {
        assert last in b;
      }
    }
  }

  /** Marking the latest open call, over nested lists, is marking it in the flat one. */
  lemma {:induction false} MarkedFlat(ms: seq<Message>, ok: bool)
    ensures Flat(Marked(ms, ok)) == ResolveLast(Flat(ms), ok)
    ensures Lines(Marked(ms, ok)) == Lines(ms) && (CallsOnAssistants(ms) ==> CallsOnAssistants(Marked(ms, ok)))
  {
    hide ResolveLast, AnyUnresolved, CallsOnAssistants;
    if ms == [] {
      ResolveLastNone([], ok);
    } else {
      var front, last := ms[..|ms| - 1], ms[|ms| - 1];
      assert ms == front + [last];
      ResolveLastJoins(Flat(front), last.toolCalls, ok);
      if AnyUnresolved(last.toolCalls) {
        FlatAppends(front, last.(toolCalls := ResolveLast(last.toolCalls, ok)));
      } else {
        MarkedFlat(front, ok);
        FlatAppends(Marked(front, ok), last);
        LinesAppend(front, last);
        LinesAppend(Marked(front, ok), last);
      }
      CallsStayOnAssistants(front, last, ok);
    }
  }

  lemma CallsStayOnAssistants(front: seq<Message>, last: Message, ok: bool)
    ensures CallsOnAssistants(front + [last]) <==> CallsOnAssistants(front) && CallsOnAssistants([last])
    ensures
      var resolved := last.(toolCalls := ResolveLast(last.toolCalls, ok));
      CallsOnAssistants(front + [last]) ==> CallsOnAssistants(front + [resolved])
    ensures
      var marked := Marked(front, ok);
      CallsOnAssistants(marked) && CallsOnAssistants([last]) ==> CallsOnAssistants(marked + [last])
  {
    hide Marked;
    var all := front + [last];
    assert all[|front|] == last && [last][0] == last;
    if CallsOnAssistants(all) {
      forall i | 0 <= i < |front| && front[i].role != Assistant
        ensures front[i].toolCalls == []
      {
        assert all[i] == front[i];
      }
    }
  }

  // ------------------------------------------------------------- building messages in place

  class TraceBuilder {
    var messages: seq<Message>

    constructor ()
      ensures messages == []
    {
      messages := [];
    }

    method Push(m: Message)
      modifies this
      ensures messages == old(messages) + [m]
    {
      messages := messages + [m];
    }

    /** Searches back for an assistant message; opens an empty one when there is none. */
    method AttachToolCall(call: ToolCall)
      modifies this
      ensures messages == Attached(old(messages), call)
    {
      hide Appended;
      var index := |messages| - 1;
      while index >= 0
        invariant -1 <= index < |messages|
        invariant forall i :: index < i < |messages| ==> messages[i].role != Assistant
        invariant messages == old(messages)
      {
        if messages[index].role == Assistant {
          AppendedAt(messages, call, index);
          var m := messages[index];
          messages := messages[index := m.(toolCalls := m.toolCalls + [call])];
          return;
        }
        index := index - 1;
      }
      messages := messages + [Message(Assistant, "", [call])];
    }

    /** Searches back through messages, and through the calls of each, for one without a result. */
    method MarkLastToolCall(ok: bool)
      modifies this
      ensures messages == Marked(old(messages), ok)
    {
      hide Marked, ResolveLast;
      var index := |messages| - 1;
      while index >= 0
        invariant -1 <= index < |messages|
        invariant forall i :: index < i < |messages| ==> !AnyUnresolved(messages[i].toolCalls)
        invariant messages == old(messages)
      {
        var calls := messages[index].toolCalls;
        var call := |calls| - 1;
        while call >= 0
          invariant -1 <= call < |calls|
          invariant forall i :: call < i < |calls| ==> !Unresolved(calls[i])
          invariant messages == old(messages)
        {
          if calls[call].ok == None {
            ResolveLastIs(calls, ok, call);
            assert Unresolved(calls[call]) && calls[call] in calls;
            MarkedAt(messages, ok, index);
            messages := messages[index := messages[index].(toolCalls := calls[call := calls[call].(ok := Some(ok))])];
            return;
          }
          call := call - 1;
        }
        index := index - 1;
      }
      MarkedNone(messages, ok);
    }
  }

  lemma {:induction false} AppendedAt(ms: seq<Message>, call: ToolCall, k: nat)
    requires k < |ms| && ms[k].role == Assistant
    requires forall i :: k < i < |ms| ==> ms[i].role != Assistant
    ensures HasAssistant(ms)
    ensures Appended(ms, call) == ms[k := ms[k].(toolCalls := ms[k].toolCalls + [call])]
  {
    assert ms[k] in ms;
    if k < |ms| - 1 { AppendedAt(ms[..|ms| - 1], call, k); }
  }

  lemma {:induction false} MarkedAt(ms: seq<Message>, ok: bool, k: nat)
    requires k < |ms| && AnyUnresolved(ms[k].toolCalls)
    requires forall i :: k < i < |ms| ==> !AnyUnresolved(ms[i].toolCalls)
    ensures Marked(ms, ok) == ms[k := ms[k].(toolCalls := ResolveLast(ms[k].toolCalls, ok))]
  {
    hide AnyUnresolved, ResolveLast;
    if k < |ms| - 1 { MarkedAt(ms[..|ms| - 1], ok, k); }
  }

  lemma {:induction false} MarkedNone(ms: seq<Message>, ok: bool)
    requires forall i :: 0 <= i < |ms| ==> !AnyUnresolved(ms[i].toolCalls)
    ensures Marked(ms, ok) == ms
  {
    hide AnyUnresolved, ResolveLast;
    if ms != [] { MarkedNone(ms[..|ms| - 1], ok); }
  }

  // ------------------------------------------------------------- the OpenClaw and Codex loops

  datatype Outcome = Success | Failure | Unknown

  /** A JSON value as the normalizers look at it. */
  datatype Value = Missing | NullValue | BoolValue(b: bool) | StringValue(s: string) | Zero | OtherValue

  const MAX_TOOL_NAME_CHARS: nat := 128

  /** The value is one of these words, in any case. */
  predicate Says(v: Value, words: set<string>) {
    v.StringValue? && ToLower(v.s) in words
  }

  function NormalizeRole(v: Value): (r: Option<Role>)
    ensures r == Some(System) <==> Says(v, {"system"})
    ensures r == Some(User) <==> Says(v, {"user", "human"})
    ensures r == Some(Assistant) <==> Says(v, {"assistant", "gpt", "model"})
    ensures r == Some(Tool) <==> Says(v, {"tool", "function", "observation", "tool_result"})
    ensures (r.Some? && r.value.Inherited?) <==> Says(v, {"constructor", "__proto__"})
  {
    if !v.StringValue? then None else
      var name := ToLower(v.s);
      if name == "system" then Some(System)
      else if name in {"user", "human"} then Some(User)
      else if name in {"assistant", "gpt", "model"} then Some(Assistant)
      else if name in {"tool", "function", "observation", "tool_result"} then Some(Tool)
      else if name in {"constructor", "__proto__"} then Some(Inherited(name))
      else None
  }

  function ToolName(v: Value): (r: Option<string>)
    ensures r.Some? <==> v.StringValue? && Trim(v.s) != "" && Utf16Length(Trim(v.s)) <= 128
    ensures r.Some? ==> r.value == Trim(v.s)
  {
    if !v.StringValue? then None else
      var name := Trim(v.s);
      if name == "" || Utf16Length(name) > MAX_TOOL_NAME_CHARS then None else Some(name)
  }

  function OutcomeOf(v: Value): (o: Outcome)
    ensures o == Success
       <==> v == BoolValue(true) || Says(v, {"success", "succeeded", "ok", "completed", "done", "pass"})
    ensures o == Failure
       <==> v == BoolValue(false)
            || Says(v, {"failure", "failed", "error", "aborted", "cancelled", "canceled", "timeout"})
  {
    match v
    case BoolValue(b) => if b then Success else Failure
    case StringValue(s) =>
      if ToLower(s) in {"success", "succeeded", "ok", "completed", "done", "pass"} then Success
      else if ToLower(s) in {"failure", "failed", "error", "aborted", "cancelled", "canceled", "timeout"} then Failure
      else Unknown
    case _ => Unknown
  }

  /** `a ?? b`. */
  function OrElse(a: Value, b: Value): Value {
    if a.Missing? || a.NullValue? then b else a
  }

  predicate Truthy(v: Value): (t: bool)
    ensures !t <==> v in {Missing, NullValue, BoolValue(false), StringValue(""), Zero}
  {
    match v
    case Missing => false
    case NullValue => false
    case BoolValue(b) => b
    case StringValue(s) => s != ""
    case Zero => false
    case OtherValue => true
  }

  /** What one event does, once its fields have been read. */
  datatype Event =
    | Say(role: Role, text: string)
    | Invoke(name: string)
    | Settle(ok: bool, text: string)
    | End(outcome: Outcome)
    | Ignored
    | Malformed

  /** An OpenClaw record; `content` is its text. */
  datatype ClawRecord = ClawRecord(event: string, role: Value, tool: Value, name: Value, error: Value,
                                   status: Value, outcome: Value, content: string)

  function ClawEvent(r: ClawRecord): Event {
    if r.event == "message" then
      match NormalizeRole(r.role)
      case None => Malformed
      case Some(role) => Say(role, r.content)
    else if r.event == "tool_call" then
      match ToolName(OrElse(r.tool, r.name))
      case None => Malformed
      case Some(name) => Invoke(name)
    else if r.event == "tool_result" then
      Settle(if Truthy(r.error) then false else r.status.Missing? || r.status == StringValue("ok"), r.content)
    else if r.event == "run_end" then End(OutcomeOf(OrElse(r.status, r.outcome)))
    else Ignored
  }

  /** A Codex record's payload; `success` is read only when the output is an object. */
  datatype CodexPayload = CodexPayload(kind: string, role: Value, name: Value, outputIsObject: bool,
                                       success: Value, status: Value, content: string)

  function CodexEvent(p: Option<CodexPayload>): Event {
    match p
    case None => Ignored
    case Some(r) =>
      if r.kind == "message" then
        match NormalizeRole(r.role)
        case None => Malformed
        case Some(role) => Say(role, r.content)
      else if r.kind == "function_call" then
        match ToolName(r.name)
        case None => Malformed
        case Some(name) => Invoke(name)
      else if r.kind == "function_call_output" then
        Settle(if r.outputIsObject then r.success != BoolValue(false) else true, r.content)
      else if r.kind == "task_complete" then End(OutcomeOf(OrElse(r.status, StringValue("success"))))
      else Ignored
  }

  // what a run of events says, calls and ends with

  function CallsOf(events: seq<Event>): seq<CallOp> {
    if events == [] then [] else
      var front := CallsOf(events[..|events| - 1]);
      match events[|events| - 1]
      case Invoke(name) => front + [Open(name)]
      case Settle(ok, _) => front + [Close(ok)]
      case _ => front
  }

  /** The lines in order: what was said, each result, and an empty assistant line for a call that comes first. */
  function LinesOf(events: seq<Event>): seq<(Role, string)> {
    if events == [] then [] else
      var front := LinesOf(events[..|events| - 1]);
      match events[|events| - 1]
      case Say(role, text) => front + [(role, text)]
      case Settle(_, text) => front + [(Tool, text)]
      case Invoke(_) => if exists l :: l in front && l.0 == Assistant then front else front + [(Assistant, "")]
      case _ => front
  }

  function OutcomeOfRun(events: seq<Event>): Outcome {
    if events == [] then Unknown
    else if events[|events| - 1].End? then events[|events| - 1].outcome
    else OutcomeOfRun(events[..|events| - 1])
  }

  datatype CanonicalTrace = CanonicalTrace(
    messages: seq<Message>, turnCount: nat, toolCallsCount: nat, outcome: Outcome)

  function AssistantCount(lines: seq<(Role, string)>): nat {
    if lines == [] then 0
    else AssistantCount(lines[..|lines| - 1]) + if lines[|lines| - 1].0 == Assistant then 1 else 0
  }

  /** The shared tail: message limits and counts. */
  method Finalize(messages: seq<Message>, outcome: Outcome) returns (r: Option<CanonicalTrace>)
    ensures r.Some? <==> 0 < |messages| <= MAX_MESSAGES
    ensures r.Some? ==>
      r.value == CanonicalTrace(messages, AssistantCount(Lines(messages)), |Flat(messages)|, outcome)
  {
    if messages == [] || |messages| > MAX_MESSAGES { return None; }
    var turns, calls := 0, 0;
    for i := 0 to |messages|
      invariant turns == AssistantCount(Lines(messages[..i])) && calls == |Flat(messages[..i])|
    {
      assert messages[..i + 1] == messages[..i] + [messages[i]];
      LinesAppend(messages[..i], messages[i]);
      FlatAppends(messages[..i], messages[i]);
      assert Lines(messages[..i + 1])[..i] == Lines(messages[..i]);
      if messages[i].role == Assistant { turns := turns + 1; }
      calls := calls + |messages[i].toolCalls|;
    }
    assert messages[..|messages|] == messages;
    r := Some(CanonicalTrace(messages, turns, calls, outcome));
  }

  /** The state the event loop keeps. */
  ghost predicate Follows(ms: seq<Message>, events: seq<Event>) {
    CallsOnAssistants(ms) && Flat(ms) == CallRun([], CallsOf(events)) && Lines(ms) == LinesOf(events)
  }

  /**
   The loop of both event formats: every line kept in order, the nested calls one chronological list, and the
   counts those of the flat list. Only a malformed event, no message or too many messages is refused.
   */
  method FromEvents(events: seq<Event>) returns (r: Option<CanonicalTrace>)
    ensures r.Some? <==> Malformed !in events && 0 < |LinesOf(events)| <= MAX_MESSAGES
    ensures r.Some? ==>
      && Follows(r.value.messages, events)
      && r.value.toolCallsCount == |CallRun([], CallsOf(events))|
      && r.value.turnCount == AssistantCount(LinesOf(events))
      && r.value.outcome == OutcomeOfRun(events)
  {
    hide CallRun, Attached, Marked, Flat;
    var builder := new TraceBuilder();
    var outcome := Unknown;
    StartFollows();
    for i := 0 to |events|
      invariant fresh(builder)
      invariant Malformed !in events[..i]
      invariant Follows(builder.messages, events[..i])
      invariant outcome == OutcomeOfRun(events[..i])
    {
      var e := events[i];
      assert events[..i + 1] == events[..i] + [e];
      if e == Malformed { return None; }
      EventFollows(builder.messages, events[..i], e);
      match e
      case Say(role, text) => builder.Push(Message(role, text, []));
      case Invoke(name) => builder.AttachToolCall(ToolCall(name, None));
      case Settle(ok, text) =>
        builder.MarkLastToolCall(ok);
        builder.Push(Message(Tool, text, []));
      case End(o) => outcome := o;
      case Ignored =>
    }
    assert events[..|events|] == events;
    assert |Lines(builder.messages)| == |builder.messages|;
    r := Finalize(builder.messages, outcome);
  }

  lemma StartFollows()
    ensures Follows([], [])
  {
  }

  lemma CallRunStep(ops: seq<CallOp>, op: CallOp)
    ensures CallRun([], ops + [op]) == CallStep(CallRun([], ops), op)
  {
    assert (ops + [op])[..|ops|] == ops;
  }

  lemma InvokeFollows(ms: seq<Message>, events: seq<Event>, name: string)
    requires Follows(ms, events)
    ensures Follows(Attached(ms, ToolCall(name, None)), events + [Invoke(name)])
  {
    hide Attached, Flat, CallRun, CallsOnAssistants, Lines;
    assert (events + [Invoke(name)])[..|events|] == events;
    AttachedFlat(ms, ToolCall(name, None));
    CallRunStep(CallsOf(events), Open(name));
    AssistantLine(ms);
  }

  lemma SettleFollows(ms: seq<Message>, events: seq<Event>, ok: bool, text: string)
    requires Follows(ms, events)
    ensures Follows(Marked(ms, ok) + [Message(Tool, text, [])], events + [Settle(ok, text)])
  {
    hide Marked, Flat, CallRun, ResolveLast, CallsOnAssistants, Lines;
    var m := Message(Tool, text, []);
    assert (events + [Settle(ok, text)])[..|events|] == events;
    MarkedFlat(ms, ok);
    FlatAppends(Marked(ms, ok), m);
    LinesAppend(Marked(ms, ok), m);
    CallRunStep(CallsOf(events), Close(ok));
    PlainMessage(Marked(ms, ok), m);
  }

  lemma PlainMessage(ms: seq<Message>, m: Message)
    requires CallsOnAssistants(ms) && m.toolCalls == []
    ensures CallsOnAssistants(ms + [m])
  {
  }

  /** One event, at both levels. */
  lemma EventFollows(ms: seq<Message>, events: seq<Event>, e: Event)
    requires Follows(ms, events)
    ensures e.Say? ==> Follows(ms + [Message(e.role, e.text, [])], events + [e])
    ensures e.Invoke? ==> Follows(Attached(ms, ToolCall(e.name, None)), events + [e])
    ensures e.Settle? ==> Follows(Marked(ms, e.ok) + [Message(Tool, e.text, [])], events + [e])
    ensures e.End? || e.Ignored? ==> Follows(ms, events + [e])
  {
    hide Attached, Marked, Flat, CallRun, CallsOnAssistants, Lines;
    assert (events + [e])[..|events|] == events;
    match e
    case Say(role, text) =>
      FlatAppends(ms, Message(role, text, []));
      LinesAppend(ms, Message(role, text, []));
      PlainMessage(ms, Message(role, text, []));
    case Invoke(name) => InvokeFollows(ms, events, name);
    case Settle(ok, text) => SettleFollows(ms, events, ok, text);
    case _ =>
  }

  lemma AssistantLine(ms: seq<Message>)
    ensures HasAssistant(ms) <==> exists l :: l in Lines(ms) && l.0 == Assistant
  {
    if m :| m in ms && m.role == Assistant {
      var i :| 0 <= i < |ms| && ms[i] == m;
      assert Lines(ms)[i] in Lines(ms);
    }
    if l :| l in Lines(ms) && l.0 == Assistant {
      var i :| 0 <= i < |ms| && Lines(ms)[i] == l;
      assert ms[i] in ms;
    }
  }

  // what the records themselves say, format by format

  /** A message needs a known role, a call a usable name. */
  predicate ClawUsable(r: ClawRecord) {
    && (r.event == "message" ==> NormalizeRole(r.role).Some?)
    && (r.event == "tool_call" ==> ToolName(OrElse(r.tool, r.name)).Some?)
  }

  /** A result reports a failure when it carries an error, or a status other than "ok". */
  predicate ClawFailed(r: ClawRecord) {
    r.error !in {Missing, NullValue, BoolValue(false), StringValue(""), Zero}
    || r.status !in {Missing, StringValue("ok")}
  }

  function ClawOps(records: seq<ClawRecord>): seq<CallOp> {
    if records == [] then [] else
      var front, r := ClawOps(records[..|records| - 1]), records[|records| - 1];
      if r.event == "tool_call" && ClawUsable(r) then front + [Open(ToolName(OrElse(r.tool, r.name)).value)]
      else if r.event == "tool_result" then front + [Close(!ClawFailed(r))]
      else front
  }

  function ClawLines(records: seq<ClawRecord>): seq<(Role, string)> {
    if records == [] then [] else
      var front, r := ClawLines(records[..|records| - 1]), records[|records| - 1];
      if r.event == "message" && ClawUsable(r) then front + [(NormalizeRole(r.role).value, r.content)]
      else if r.event == "tool_result" then front + [(Tool, r.content)]
      else if r.event == "tool_call" && ClawUsable(r) then WithAssistant(front)
      else front
  }

  /** A call that comes before any assistant line opens an empty one. */
  function WithAssistant(lines: seq<(Role, string)>): seq<(Role, string)> {
    if exists l :: l in lines && l.0 == Assistant then lines else lines + [(Assistant, "")]
  }

  /** The outcome is that of the last closing record. */
  function ClawOutcome(records: seq<ClawRecord>): Outcome {
    if records == [] then Unknown else
      var r := records[|records| - 1];
      if r.event == "run_end" then OutcomeOf(OrElse(r.status, r.outcome)) else ClawOutcome(records[..|records| - 1])
  }

  function ClawEvents(records: seq<ClawRecord>): seq<Event> {
    seq(|records|, i requires 0 <= i < |records| => ClawEvent(records[i]))
  }

  lemma {:induction false} ClawReads(records: seq<ClawRecord>)
    ensures CallsOf(ClawEvents(records)) == ClawOps(records)
    ensures OutcomeOfRun(ClawEvents(records)) == ClawOutcome(records)
  {
    hide ClawEvent, ClawUsable, NormalizeRole, ToolName, OutcomeOf, OrElse, ClawFailed;
    if records != [] {
      var front, last := records[..|records| - 1], records[|records| - 1];
      ClawReads(front);
      ClawStep(last);
      assert ClawEvents(records)[..|records| - 1] == ClawEvents(front);
      assert ClawEvents(records)[|records| - 1] == ClawEvent(last);
    }
  }

  lemma {:induction false} ClawReadsLines(records: seq<ClawRecord>)
    ensures LinesOf(ClawEvents(records)) == ClawLines(records)
  {
    hide ClawEvent, ClawUsable, NormalizeRole, ToolName, OutcomeOf, OrElse, ClawFailed;
    if records != [] {
      var front, last := records[..|records| - 1], records[|records| - 1];
      ClawReadsLines(front);
      ClawStep(last);
      assert ClawEvents(records)[..|records| - 1] == ClawEvents(front);
      assert ClawEvents(records)[|records| - 1] == ClawEvent(last);
    }
  }

  lemma ClawMalformed(records: seq<ClawRecord>)
    ensures Malformed in ClawEvents(records) <==> exists r :: r in records && !ClawUsable(r)
  {
    hide ClawEvent, ClawUsable, NormalizeRole, ToolName, OutcomeOf, OrElse, ClawFailed;
    var events := ClawEvents(records);
    forall i | 0 <= i < |records| ensures events[i] == Malformed <==> !ClawUsable(records[i]) {
      ClawStep(records[i]);
    }
    if Malformed in events {
      var i :| 0 <= i < |events| && events[i] == Malformed;
      assert records[i] in records;
    }
    if r :| r in records && !ClawUsable(r) {
      var i :| 0 <= i < |records| && records[i] == r;
      assert events[i] in events;
    }
  }

  lemma ClawStep(r: ClawRecord)
    ensures
      var e := ClawEvent(r);
      && (e == Malformed <==> !ClawUsable(r))
      && (e.Invoke? <==> r.event == "tool_call" && ClawUsable(r))
      && (e.Invoke? ==> e.name == ToolName(OrElse(r.tool, r.name)).value)
      && (e.Settle? <==> r.event == "tool_result")
      && (e.Settle? ==> e == Settle(!ClawFailed(r), r.content))
      && (e.Say? <==> r.event == "message" && ClawUsable(r))
      && (e.Say? ==> e == Say(NormalizeRole(r.role).value, r.content))
      && (e.End? <==> r.event == "run_end")
      && (e.End? ==> e == End(OutcomeOf(OrElse(r.status, r.outcome))))
  {
    hide NormalizeRole, ToolName, OutcomeOf, OrElse;
  }

  /** The parsed trace says what the events said: lines, calls with their results, outcome and counts. */
  ghost predicate Carries(t: CanonicalTrace, lines: seq<(Role, string)>, ops: seq<CallOp>, outcome: Outcome) {
    && Lines(t.messages) == lines && t.turnCount == AssistantCount(lines)
    && Matches(Flat(t.messages), MatchRun(ops)) && t.toolCallsCount == |MatchRun(ops).names|
    && (OpenCount(Flat(t.messages)), FailedCount(Flat(t.messages))) == Balance(ops)
    && t.outcome == outcome
  }

  lemma FollowsCarries(t: CanonicalTrace, events: seq<Event>)
    requires Follows(t.messages, events) && t.toolCallsCount == |CallRun([], CallsOf(events))|
    requires t.turnCount == AssistantCount(LinesOf(events)) && t.outcome == OutcomeOfRun(events)
    ensures Carries(t, LinesOf(events), CallsOf(events), OutcomeOfRun(events))
  {
    hide StackOk, CallRun, MatchRun, Balance, OpenCount, FailedCount, CallsOf, LinesOf;
    ResultsFollowTheStack(CallsOf(events));
    CountsFollowBalance(CallsOf(events));
  }

  method FromOpenClaw(records: seq<ClawRecord>) returns (r: Option<CanonicalTrace>)
    ensures r.Some? <==> (forall c :: c in records ==> ClawUsable(c)) && 0 < |ClawLines(records)| <= MAX_MESSAGES
    ensures r.Some? ==> Carries(r.value, ClawLines(records), ClawOps(records), ClawOutcome(records))
    ensures r.Some? ==> Follows(r.value.messages, ClawEvents(records))
  {
    hide ClawEvent, ClawUsable, Carries, Follows;
    r := FromEvents(ClawEvents(records));
    ClawReads(records);
    ClawReadsLines(records);
    ClawMalformed(records);
    if r.Some? { FollowsCarries(r.value, ClawEvents(records)); }
  }

  predicate CodexUsable(p: Option<CodexPayload>) {
    p.Some? ==>
      && (p.value.kind == "message" ==> NormalizeRole(p.value.role).Some?)
      && (p.value.kind == "function_call" ==> ToolName(p.value.name).Some?)
  }

  /** An output reports a failure when it is an object whose `success` is false. */
  predicate CodexFailed(r: CodexPayload) {
    r.outputIsObject && r.success == BoolValue(false)
  }

  predicate Kind(p: Option<CodexPayload>, kind: string) {
    p.Some? && p.value.kind == kind && CodexUsable(p)
  }

  function CodexOps(payloads: seq<Option<CodexPayload>>): seq<CallOp> {
    if payloads == [] then [] else
      var front, p := CodexOps(payloads[..|payloads| - 1]), payloads[|payloads| - 1];
      if Kind(p, "function_call") then front + [Open(ToolName(p.value.name).value)]
      else if Kind(p, "function_call_output") then front + [Close(!CodexFailed(p.value))]
      else front
  }

  function CodexLines(payloads: seq<Option<CodexPayload>>): seq<(Role, string)> {
    if payloads == [] then [] else
      var front, p := CodexLines(payloads[..|payloads| - 1]), payloads[|payloads| - 1];
      if Kind(p, "message") then front + [(NormalizeRole(p.value.role).value, p.value.content)]
      else if Kind(p, "function_call_output") then front + [(Tool, p.value.content)]
      else if Kind(p, "function_call") then WithAssistant(front)
      else front
  }

  /** A closing record without a status is a success. */
  function CodexOutcome(payloads: seq<Option<CodexPayload>>): Outcome {
    if payloads == [] then Unknown else
      var p := payloads[|payloads| - 1];
      if Kind(p, "task_complete") then
        if p.value.status in {Missing, NullValue} then Success else OutcomeOf(p.value.status)
      else CodexOutcome(payloads[..|payloads| - 1])
  }

  function CodexEvents(payloads: seq<Option<CodexPayload>>): seq<Event> {
    seq(|payloads|, i requires 0 <= i < |payloads| => CodexEvent(payloads[i]))
  }

  lemma {:induction false} CodexReads(payloads: seq<Option<CodexPayload>>)
    ensures CallsOf(CodexEvents(payloads)) == CodexOps(payloads)
    ensures OutcomeOfRun(CodexEvents(payloads)) == CodexOutcome(payloads)
  {
    hide CodexEvent, CodexUsable, NormalizeRole, ToolName, OutcomeOf, CodexFailed, Kind;
    if payloads != [] {
      var front, last := payloads[..|payloads| - 1], payloads[|payloads| - 1];
      CodexReads(front);
      CodexStep(last);
      assert CodexEvents(payloads)[..|payloads| - 1] == CodexEvents(front);
      assert CodexEvents(payloads)[|payloads| - 1] == CodexEvent(last);
    }
  }

  lemma {:induction false} CodexReadsLines(payloads: seq<Option<CodexPayload>>)
    ensures LinesOf(CodexEvents(payloads)) == CodexLines(payloads)
  {
    hide CodexEvent, CodexUsable, NormalizeRole, ToolName, OutcomeOf, CodexFailed, Kind;
    if payloads != [] {
      var front, last := payloads[..|payloads| - 1], payloads[|payloads| - 1];
      CodexReadsLines(front);
      CodexStep(last);
      assert CodexEvents(payloads)[..|payloads| - 1] == CodexEvents(front);
      assert CodexEvents(payloads)[|payloads| - 1] == CodexEvent(last);
    }
  }

  lemma CodexMalformed(payloads: seq<Option<CodexPayload>>)
    ensures Malformed in CodexEvents(payloads) <==> exists p :: p in payloads && !CodexUsable(p)
  {
    hide CodexEvent, CodexUsable, NormalizeRole, ToolName, OutcomeOf, CodexFailed, Kind;
    var events := CodexEvents(payloads);
    forall i | 0 <= i < |payloads| ensures events[i] == Malformed <==> !CodexUsable(payloads[i]) {
      CodexStep(payloads[i]);
    }
    if Malformed in events {
      var i :| 0 <= i < |events| && events[i] == Malformed;
      assert payloads[i] in payloads;
    }
    if p :| p in payloads && !CodexUsable(p) {
      var i :| 0 <= i < |payloads| && payloads[i] == p;
      assert events[i] in events;
    }
  }

  lemma CodexStep(p: Option<CodexPayload>)
    ensures
      var e := CodexEvent(p);
      && (e == Malformed <==> !CodexUsable(p))
      && (e.Invoke? <==> Kind(p, "function_call")) && (e.Settle? <==> Kind(p, "function_call_output"))
      && (e.Say? <==> Kind(p, "message")) && (e.End? <==> Kind(p, "task_complete"))
      && (e.Invoke? ==> e.name == ToolName(p.value.name).value)
      && (e.Settle? ==> e == Settle(!CodexFailed(p.value), p.value.content))
      && (e.Say? ==> e == Say(NormalizeRole(p.value.role).value, p.value.content))
      && (e.End? ==> e.outcome
                     == if p.value.status in {Missing, NullValue} then Success else OutcomeOf(p.value.status))
  {
    hide NormalizeRole, ToolName, OutcomeOf;
    SuccessWord();
  }

  lemma SuccessWord()
    ensures OutcomeOf(StringValue("success")) == Success
  {
    assert ToLower("success") == "success";
  }

  method FromCodex(payloads: seq<Option<CodexPayload>>) returns (r: Option<CanonicalTrace>)
    ensures r.Some? <==> (forall p :: p in payloads ==> CodexUsable(p)) && 0 < |CodexLines(payloads)| <= MAX_MESSAGES
    ensures r.Some? ==> Carries(r.value, CodexLines(payloads), CodexOps(payloads), CodexOutcome(payloads))
    ensures r.Some? ==> Follows(r.value.messages, CodexEvents(payloads))
  {
    hide CodexEvent, CodexUsable, Carries, Follows;
    r := FromEvents(CodexEvents(payloads));
    CodexReads(payloads);
    CodexReadsLines(payloads);
    CodexMalformed(payloads);
    if r.Some? { FollowsCarries(r.value, CodexEvents(payloads)); }
  }

  // ------------------------------------------------------------- the structure sent to the server

  const MAX_TOOL_NAMES: nat := 64

  function NamesOf(calls: seq<ToolCall>): set<string> {
    set c | c in calls :: c.name
  }

  lemma {:induction false} FailedAppends(calls: seq<ToolCall>, more: seq<ToolCall>)
    ensures FailedCount(calls + more) == FailedCount(calls) + FailedCount(more)
  {
    if more == [] {
      assert calls + more == calls;
    } else {
      assert (calls + more)[..|calls + more| - 1] == calls + more[..|more| - 1];
      FailedAppends(calls, more[..|more| - 1]);
    }
  }

  /** The names are those of the first calls: of all of them, or of as many as it takes to meet the cap. */
  ghost predicate KeptNames(names: set<string>, calls: seq<ToolCall>) {
    && |names| <= MAX_TOOL_NAMES
    && exists n :: 0 <= n <= |calls| && names == NamesOf(calls[..n]) && (n < |calls| ==> |names| == MAX_TOOL_NAMES)
  }

  lemma NamesGrow(calls: seq<ToolCall>, c: ToolCall)
    ensures NamesOf(calls + [c]) == NamesOf(calls) + {c.name}
  {
    assert c in calls + [c];
    forall n
      ensures n in NamesOf(calls + [c]) <==> n in NamesOf(calls) + {c.name}
    {
      if n in NamesOf(calls) {
        var d :| d in calls && d.name == n;
        assert d in calls + [c];
      }
    }
  }

  lemma KeepName(names: set<string>, calls: seq<ToolCall>, c: ToolCall)
    requires KeptNames(names, calls)
    ensures KeptNames(if |names| < MAX_TOOL_NAMES then names + {c.name} else names, calls + [c])
  {
    hide NamesOf;
    var n :| 0 <= n <= |calls| && names == NamesOf(calls[..n]) && (n < |calls| ==> |names| == MAX_TOOL_NAMES);
    NamesGrow(calls, c);
    assert (calls + [c])[..n] == calls[..n];
    assert calls[..|calls|] == calls && (calls + [c])[..|calls| + 1] == calls + [c];
  }

  /** So the calls determine which names are kept. */
  lemma KeptNamesAreDetermined(names: set<string>, other: set<string>, calls: seq<ToolCall>)
    requires KeptNames(names, calls) && KeptNames(other, calls)
    ensures names == other
  {
    hide NamesOf;
    var m :| 0 <= m <= |calls| && names == NamesOf(calls[..m]) && (m < |calls| ==> |names| == MAX_TOOL_NAMES);
    var n :| 0 <= n <= |calls| && other == NamesOf(calls[..n]) && (n < |calls| ==> |other| == MAX_TOOL_NAMES);
    if m < n {
      MoreCallsMoreNames(calls, m, n);
      SubsetOfSize(names, other);
    } else {
      MoreCallsMoreNames(calls, n, m);
      SubsetOfSize(other, names);
    }
  }

  lemma MoreCallsMoreNames(calls: seq<ToolCall>, m: nat, n: nat)
    requires m <= n <= |calls|
    ensures NamesOf(calls[..m]) <= NamesOf(calls[..n]) && (m == n ==> NamesOf(calls[..m]) == NamesOf(calls[..n]))
  {
    forall c | c in calls[..m]
      ensures c in calls[..n]
    {
      var i :| 0 <= i < m && calls[..m][i] == c;
      assert calls[..n][i] == c;
    }
  }

  lemma SubsetOfSize(a: set<string>, b: set<string>)
    requires a <= b
    ensures |a| <= |b| && (|a| >= |b| ==> a == b)
  {
    assert b == a + (b - a) && |b| == |a| + |b - a|;
    if |b - a| == 0 { assert b - a == {}; }
  }

  /** Counts and tool names only; the failures are the error results that met an open call. */
  method TraceStructure(messages: seq<Message>, ghost events: seq<Event>)
    returns (names: set<string>, failed: nat)
    requires Follows(messages, events)
    ensures failed == Balance(CallsOf(events)).1
    ensures KeptNames(names, CallRun([], CallsOf(events)))
  {
    hide CallRun, FailedCount, KeptNames, CallsOf, Balance, CallsOnAssistants, Lines;
    names, failed := {}, 0;
    NoNames();
    for i := 0 to |messages|
      invariant KeptNames(names, Flat(messages[..i])) && failed == FailedCount(Flat(messages[..i]))
    {
      var calls := messages[i].toolCalls;
      ghost var flat := Flat(messages[..i]);
      assert flat + calls[..0] == flat;
      for j := 0 to |calls|
        invariant KeptNames(names, flat + calls[..j]) && failed == FailedCount(flat + calls[..j])
      {
        KeepName(names, flat + calls[..j], calls[j]);
        FailedAppends(flat + calls[..j], [calls[j]]);
        OneFailed(calls[j]);
        assert flat + calls[..j + 1] == flat + calls[..j] + [calls[j]];
        if |names| < MAX_TOOL_NAMES { names := names + {calls[j].name}; }
        if calls[j].ok == Some(false) { failed := failed + 1; }
      }
      assert messages[..i + 1] == messages[..i] + [messages[i]] && calls[..|calls|] == calls;
      FlatAppends(messages[..i], messages[i]);
    }
    assert messages[..|messages|] == messages;
    CountsFollowBalance(CallsOf(events));
  }

  lemma NoNames()
    ensures KeptNames({}, Flat([])) && FailedCount(Flat([])) == 0
  {
    assert NamesOf([][..0]) == {};
  }

  lemma OneFailed(c: ToolCall)
    ensures FailedCount([c]) == if c.ok == Some(false) then 1 else 0
  {
    assert [c][..0] == [];
  }
}
