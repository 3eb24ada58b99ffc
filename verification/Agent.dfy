/**
The agentic loop and the sequential speech runner on top of it.

The provider and the tools are taken from outside: `World` answers each call, possibly
differently every time, which the running count of calls made so far stands for.
*/
module Agent {
  import opened Common
  import Text

  datatype Role = User | Assistant

  datatype ContentBlock =
    | TextBlock(text: string)
    | ToolUse(id: string, name: string, input: string)
    | ToolResult(toolUseId: string, content: string, isError: bool)
    | Audio(data: seq<byte>, format: string)

  datatype Message = Message(role: Role, content: seq<ContentBlock>)

  datatype StopReason = EndTurn | WantsTools | MaxTokens

  datatype Response = Response(blocks: seq<ContentBlock>, stopReason: StopReason)

  datatype Outcome = Outcome(text: string, iterations: nat, error: Option<string>)

  datatype AgentError = Provider(message: string) | NotConverged(limit: nat)

  /** `names` are the registered tools in order. */
  datatype World = World(
    turn: (nat, seq<Message>) -> Result<Response, string>,
    names: seq<string>,
    call: (nat, nat, string) -> Result<string, string>)

  /** The conversation so far, and how many calls were made to the world. */
  datatype Progress = Progress(memory: seq<Message>, calls: nat)

  // ---------------------------------------------------------------- tools

  /** `ToolRegistry::get`: the first tool of that name. */
  function Lookup(names: seq<string>, name: string): (r: Option<nat>)
    ensures r.Some? ==> r.value < |names| && names[r.value] == name && name !in names[..r.value]
    ensures r.None? ==> name !in names
  {
    if names == [] then None
    else if names[0] == name then Some(0)
    else
      var rest := Lookup(names[1..], name);
      if rest.Some? then
        assert names[..rest.value + 1] == [names[0]] + names[1..][..rest.value];
        Some(rest.value + 1)
      else
        assert names == [names[0]] + names[1..];
        None
  }

  datatype ToolRun = ToolRun(results: seq<ContentBlock>, calls: nat)

  /** What comes back for one request, and whether a tool was really called. */
  function Answer(w: World, calls: nat, id: string, name: string, input: string): (ContentBlock, bool) {
    match Lookup(w.names, name)
    case None => (ToolResult(id, "unknown tool: " + name, true), false)
    case Some(tool) =>
      match w.call(calls, tool, input) {
        case Ok(output) => (ToolResult(id, output, false), true)
        case Err(e) => (ToolResult(id, e, true), true)
      }
  }

  function ToolStep(w: World, run: ToolRun, block: ContentBlock): ToolRun {
    if !block.ToolUse? then run
    else
      var (result, called) := Answer(w, run.calls, block.id, block.name, block.input);
      ToolRun(run.results + [result], run.calls + if called then 1 else 0)
  }

  /** The results for the first `n` blocks. */
  function Tools(w: World, calls: nat, blocks: seq<ContentBlock>, n: nat): ToolRun
    requires n <= |blocks|
  {
    if n == 0 then ToolRun([], calls) else ToolStep(w, Tools(w, calls, blocks, n - 1), blocks[n - 1])
  }

  /** The ids the model asked with, in order, among the first `n` blocks. */
  function UseIds(blocks: seq<ContentBlock>, n: nat): seq<string>
    requires n <= |blocks|
  {
    if n == 0 then []
    else UseIds(blocks, n - 1) + if blocks[n - 1].ToolUse? then [blocks[n - 1].id] else []
  }

  /** The blocks are tool results carrying exactly these ids, in this order. */
  ghost predicate CarryIds(results: seq<ContentBlock>, ids: seq<string>) {
    && |results| == |ids|
    && forall k :: 0 <= k < |ids| ==> results[k].ToolResult? && results[k].toolUseId == ids[k]
  }

  /** MAIN: one result per request, in request order, whether the tool exists, fails or works. */
  lemma {:induction false} ToolsAnswerEveryUse(w: World, calls: nat, blocks: seq<ContentBlock>, n: nat)
    requires n <= |blocks|
    ensures CarryIds(Tools(w, calls, blocks, n).results, UseIds(blocks, n))
    ensures calls <= Tools(w, calls, blocks, n).calls <= calls + |UseIds(blocks, n)|
  {
    if n > 0 {
      ToolsAnswerEveryUse(w, calls, blocks, n - 1);
    }
  }

  /** How many of the first `n` blocks ask for a registered tool. */
  function KnownUses(names: seq<string>, blocks: seq<ContentBlock>, n: nat): nat
    requires n <= |blocks|
  {
    if n == 0 then 0
    else KnownUses(names, blocks, n - 1) + if blocks[n - 1].ToolUse? && blocks[n - 1].name in names then 1 else 0
  }

  /**
  What the result of one request says, when `call` calls have been made before it: the output or the error
  of the first tool of that name, called with the request's input; otherwise that there is no such tool.
  */
  ghost predicate Reports(w: World, call: nat, use: ContentBlock, result: ContentBlock)
    requires use.ToolUse?
  {
    if use.name !in w.names then result == ToolResult(use.id, "unknown tool: " + use.name, true)
    else
      exists tool: nat | tool < |w.names| && w.names[tool] == use.name && use.name !in w.names[..tool] ::
        match w.call(call, tool, use.input)
        case Ok(output) => result == ToolResult(use.id, output, false)
        case Err(e) => result == ToolResult(use.id, e, true)
  }

  lemma AnswerReports(w: World, call: nat, use: ContentBlock)
    requires use.ToolUse?
    ensures Reports(w, call, use, Answer(w, call, use.id, use.name, use.input).0)
    ensures Answer(w, call, use.id, use.name, use.input).1 <==> use.name in w.names
  {
    var tool := Lookup(w.names, use.name);
    if tool.Some? {
      assert w.names[tool.value] == use.name && use.name !in w.names[..tool.value];
    }
  }

  /** The number of requests among the first `n` blocks. */
  function Uses(blocks: seq<ContentBlock>, n: nat): (k: nat)
    requires n <= |blocks|
  {
    if n == 0 then 0 else Uses(blocks, n - 1) + if blocks[n - 1].ToolUse? then 1 else 0
  }

  lemma {:induction false} CallsCount(w: World, calls: nat, blocks: seq<ContentBlock>, n: nat)
    requires n <= |blocks|
    ensures Tools(w, calls, blocks, n).calls == calls + KnownUses(w.names, blocks, n)
    ensures |Tools(w, calls, blocks, n).results| == Uses(blocks, n)
  {
    if n > 0 {
      CallsCount(w, calls, blocks, n - 1);
      if blocks[n - 1].ToolUse? {
        AnswerReports(w, Tools(w, calls, blocks, n - 1).calls, blocks[n - 1]);
      }
    }
  }

  lemma {:induction false} ResultsStay(w: World, calls: nat, blocks: seq<ContentBlock>, k: nat, n: nat)
    requires k <= n <= |blocks|
    ensures Tools(w, calls, blocks, k).results <= Tools(w, calls, blocks, n).results
  {
    if k < n {
      ResultsStay(w, calls, blocks, k, n - 1);
    }
  }

  /** MAIN: every request is answered by its own tool's output or error, asked after all calls for earlier requests. */
  lemma EveryResultReports(w: World, calls: nat, blocks: seq<ContentBlock>, i: nat)
    requires i < |blocks| && blocks[i].ToolUse?
    ensures
      var results := Tools(w, calls, blocks, |blocks|).results;
      && Uses(blocks, i) < |results|
      && Reports(w, calls + KnownUses(w.names, blocks, i), blocks[i], results[Uses(blocks, i)])
  {
    CallsCount(w, calls, blocks, i);
    AnswerReports(w, Tools(w, calls, blocks, i).calls, blocks[i]);
    ResultsStay(w, calls, blocks, i + 1, |blocks|);
    assert Tools(w, calls, blocks, i + 1).results == Tools(w, calls, blocks, i).results + [Answer(w, Tools(w, calls, blocks, i).calls, blocks[i].id, blocks[i].name, blocks[i].input).0];
  }

  // ---------------------------------------------------------------- the final text

  /** `extract_text` over the first `n` blocks. */
  function TextOf(blocks: seq<ContentBlock>, n: nat): string
    requires n <= |blocks|
  {
    if n == 0 then ""
    else
      var out := TextOf(blocks, n - 1);
      if !blocks[n - 1].TextBlock? || blocks[n - 1].text == "" then out
      else if out == "" then blocks[n - 1].text
      else out + ['\n'] + blocks[n - 1].text
  }

  function Texts(blocks: seq<ContentBlock>, n: nat): seq<string>
    requires n <= |blocks|
  {
    if n == 0 then []
    else if blocks[n - 1].TextBlock? && blocks[n - 1].text != "" then Texts(blocks, n - 1) + [blocks[n - 1].text]
    else Texts(blocks, n - 1)
  }

  function Lines(texts: seq<string>): string { if texts == [] then "" else Text.Join(texts, '\n') }

  lemma AddLine(texts: seq<string>, t: string)
    ensures Lines(texts + [t]) == if texts == [] then t else Lines(texts) + ['\n'] + t
  {
    if texts == [] {
      assert texts + [t] == [t];
    } else {
      Text.JoinAppend(texts, t, '\n');
    }
  }

  ghost predicate IsLines(out: string, texts: seq<string>) { out == Lines(texts) && (out == "" <==> texts == []) }

  /** The answer is the non-empty texts, joined by newlines; it is empty only when there are none. */
  lemma {:induction false} TextIsJoined(blocks: seq<ContentBlock>, n: nat)
    requires n <= |blocks|
    ensures IsLines(TextOf(blocks, n), Texts(blocks, n))
  {
    if n > 0 {
      TextIsJoined(blocks, n - 1);
      if blocks[n - 1].TextBlock? && blocks[n - 1].text != "" {
        AddLine(Texts(blocks, n - 1), blocks[n - 1].text);
      }
    }
  }

  // ---------------------------------------------------------------- the loop

  type Reply = Result<Outcome, AgentError>

  datatype TurnEnd = Stop(progress: Progress, reply: Reply) | Continue(progress: Progress)

  /** Iteration `i`: ask the provider once and act on its stop reason. */
  function OneTurn(w: World, i: nat, p: Progress): TurnEnd {
    match w.turn(p.calls, p.memory)
    case Err(e) => Stop(p.(calls := p.calls + 1), Err(Provider(e)))
    case Ok(response) =>
      var blocks := response.blocks;
      var asked := Progress(p.memory + [Message(Assistant, blocks)], p.calls + 1);
      if response.stopReason != WantsTools then Stop(asked, Ok(Outcome(TextOf(blocks, |blocks|), i + 1, None)))
      else
        var run := Tools(w, asked.calls, blocks, |blocks|);
        Continue(Progress(asked.memory + [Message(User, run.results)], run.calls))
  }

  function Loop(w: World, max: nat, i: nat, p: Progress): (Progress, Reply)
    requires i <= max
    decreases max - i
  {
    if i == max then (p, Err(NotConverged(max)))
    else
      match OneTurn(w, i, p)
      case Stop(q, reply) => (q, reply)
      case Continue(q) => Loop(w, max, i + 1, q)
  }

  function Respond(w: World, max: nat, p: Progress, text: string): (Progress, Reply) {
    Loop(w, max, 0, p.(memory := p.memory + [Message(User, [TextBlock(text)])]))
  }

  /** One iteration makes one call to the provider, and then one for every request of a known tool. */
  lemma TurnCountsCalls(w: World, i: nat, p: Progress)
    ensures
      var (end, turn) := (OneTurn(w, i, p), w.turn(p.calls, p.memory));
      end.progress.calls == p.calls + 1 +
        if end.Continue? && turn.Ok? then KnownUses(w.names, turn.value.blocks, |turn.value.blocks|) else 0
  {
    var turn := w.turn(p.calls, p.memory);
    if turn.Ok? {
      CallsCount(w, p.calls + 1, turn.value.blocks, |turn.value.blocks|);
    }
  }

  // ---------------------------------------------------------------- what a response adds to the history

  ghost predicate Answers(reply: Message, request: Message) {
    CarryIds(reply.content, UseIds(request.content, |request.content|))
  }

  /** Counting from `base`, even places are assistant turns, odd ones the user turns answering all their tool uses. */
  ghost predicate Slot(m: seq<Message>, base: nat, j: nat)
    requires base <= j < |m|
  {
    if (j - base) % 2 == 0 then m[j].role == Assistant else m[j].role == User && Answers(m[j], m[j - 1])
  }

  ghost predicate Rounds(m: seq<Message>, base: nat) { forall j :: base <= j < |m| ==> Slot(m, base, j) }

  /** How many messages were added, by how the loop ended. */
  ghost predicate Added(before: nat, after: nat, i: nat, max: nat, reply: Reply) {
    match reply
    case Ok(o) => i < o.iterations <= max && after == before + 2 * (o.iterations - i) - 1
    case Err(NotConverged(n)) => n == max && after == before + 2 * (max - i)
    case Err(Provider(_)) => before <= after < before + 2 * (max - i) && (after - before) % 2 == 0
  }

  /** A finished answer is the text of the last message. */
  ghost predicate EndsWithAnswer(m: seq<Message>, reply: Reply) {
    reply.Ok? ==>
      m != [] && m[|m| - 1].role == Assistant && reply.value.error == None &&
      reply.value.text == TextOf(m[|m| - 1].content, |m[|m| - 1].content|)
  }

  lemma TurnShape(w: World, i: nat, p: Progress)
    ensures var end := OneTurn(w, i, p);
      && p.memory <= end.progress.memory
      && Rounds(end.progress.memory, |p.memory|)
      && (end.Continue? ==> |end.progress.memory| == |p.memory| + 2)
      && (end.Stop? ==> Added(|p.memory|, |end.progress.memory|, i, i + 1, end.reply))
      && (end.Stop? ==> (end.reply.Ok? ==> end.reply.value.iterations == i + 1) && EndsWithAnswer(end.progress.memory, end.reply))
      && (end.Stop? && end.reply.Err? ==> end.reply.error.Provider?)
  {
    var turn := w.turn(p.calls, p.memory);
    if turn.Ok? {
      ToolsAnswerEveryUse(w, p.calls + 1, turn.value.blocks, |turn.value.blocks|);
    }
  }

  lemma RoundsCompose(m: seq<Message>, n: seq<Message>, base: nat)
    requires m <= n && Rounds(m, base) && |m| == base + 2 && Rounds(n, base + 2)
    ensures Rounds(n, base)
  {
    forall j | base <= j < |n| ensures Slot(n, base, j) {
      if j < base + 2 {
        assert Slot(m, base, j);
      } else {
        assert Slot(n, base + 2, j);
      }
    }
  }

  /** What a loop from iteration `i` on has done, from `p` to `q`. */
  ghost predicate Shaped(max: nat, i: nat, p: Progress, q: Progress, reply: Reply) {
    && p.memory <= q.memory && Rounds(q.memory, |p.memory|)
    && Added(|p.memory|, |q.memory|, i, max, reply) && EndsWithAnswer(q.memory, reply)
  }

  lemma {:induction false} ShapedAfterTurn(w: World, max: nat, i: nat, p: Progress, end: TurnEnd, q: Progress, reply: Reply)
    requires i < max && end == OneTurn(w, i, p) && end.Continue? && Shaped(max, i + 1, end.progress, q, reply)
    ensures Shaped(max, i, p, q, reply)
  {
    TurnShape(w, i, p);
    RoundsCompose(end.progress.memory, q.memory, |p.memory|);
  }

  lemma {:induction false} LoopShape(w: World, max: nat, i: nat, p: Progress)
    requires i <= max
    ensures Shaped(max, i, p, Loop(w, max, i, p).0, Loop(w, max, i, p).1)
    decreases max - i
  {
    if i < max {
      var end := OneTurn(w, i, p);
      if end.Continue? {
        LoopShape(w, max, i + 1, end.progress);
        ShapedAfterTurn(w, max, i, p, end, Loop(w, max, i + 1, end.progress).0, Loop(w, max, i + 1, end.progress).1);
      } else {
        TurnShape(w, i, p);
      }
    }
  }

  /**
  MAIN: a response only appends; its tool rounds are answered at once and completely; an answer after
  k rounds adds exactly 2k messages, giving up adds 1 + 2·max, a provider error an odd number.
  */
  lemma RespondShape(w: World, max: nat, p: Progress, text: string)
    ensures
      var (q, reply) := Respond(w, max, p, text);
      && p.memory + [Message(User, [TextBlock(text)])] <= q.memory
      && Rounds(q.memory, |p.memory| + 1)
      && EndsWithAnswer(q.memory, reply)
      && match reply {
           case Ok(o) => 1 <= o.iterations <= max && |q.memory| == |p.memory| + 2 * o.iterations
           case Err(NotConverged(n)) => n == max && |q.memory| == |p.memory| + 1 + 2 * max
           case Err(Provider(_)) => |q.memory| < |p.memory| + 1 + 2 * max && (|q.memory| - |p.memory|) % 2 == 1
         }
  {
    LoopShape(w, max, 0, p.(memory := p.memory + [Message(User, [TextBlock(text)])]));
  }

  // ---------------------------------------------------------------- whole conversations

  ghost predicate Alternates(m: seq<Message>) {
    forall j :: 0 <= j < |m| ==> m[j].role == if j % 2 == 0 then User else Assistant
  }

  lemma Parity(j: nat, base: nat)
    requires base % 2 == 1 && base <= j
    ensures (j - base) % 2 == 0 <==> j % 2 == 1
  {
  }

  lemma {:induction false} RoundsAlternate(past: seq<Message>, user: Message, m: seq<Message>)
    requires Alternates(past) && |past| % 2 == 0 && user.role == User
    requires past + [user] <= m && Rounds(m, |past| + 1)
    ensures Alternates(m)
  {
    var start, base := past + [user], |past| + 1;
    forall j | 0 <= j < |m| ensures m[j].role == if j % 2 == 0 then User else Assistant {
      if j < base {
        assert m[j] == start[j];
      } else {
        Parity(j, base);
        assert Slot(m, base, j);
      }
    }
  }

  lemma RespondAlternates(w: World, max: nat, p: Progress, text: string)
    requires Alternates(p.memory) && |p.memory| % 2 == 0
    ensures
      var (q, reply) := Respond(w, max, p, text);
      Alternates(q.memory) && (|q.memory| % 2 == 0 <==> reply.Ok?)
  {
    RespondShape(w, max, p, text);
    RoundsAlternate(p.memory, Message(User, [TextBlock(text)]), Respond(w, max, p, text).0.memory);
  }

  /** The state before the n-th of the utterances is handled. */
  function Talk(w: World, max: nat, p: Progress, texts: seq<string>, n: nat): Progress
    requires n <= |texts|
  {
    if n == 0 then p else Respond(w, max, Talk(w, max, p, texts, n - 1), texts[n - 1]).0
  }

  function ReplyTo(w: World, max: nat, p: Progress, texts: seq<string>, n: nat): Reply
    requires n < |texts|
  {
    Respond(w, max, Talk(w, max, p, texts, n), texts[n]).1
  }

  ghost predicate AllAnswered(w: World, max: nat, p: Progress, texts: seq<string>, n: nat)
    requires n <= |texts|
  {
    forall i :: 0 <= i < n ==> ReplyTo(w, max, p, texts, i).Ok?
  }

  lemma {:induction false} TalkAppends(w: World, max: nat, p: Progress, texts: seq<string>, k: nat, n: nat)
    requires k <= n <= |texts|
    ensures Talk(w, max, p, texts, k).memory <= Talk(w, max, p, texts, n).memory
  {
    if k < n {
      TalkAppends(w, max, p, texts, k, n - 1);
      RespondShape(w, max, Talk(w, max, p, texts, n - 1), texts[n - 1]);
    }
  }

  lemma {:induction false} AnsweredTalkAlternates(w: World, max: nat, p: Progress, texts: seq<string>, n: nat)
    requires n <= |texts| && p.memory == [] && AllAnswered(w, max, p, texts, n)
    ensures Alternates(Talk(w, max, p, texts, n).memory) && |Talk(w, max, p, texts, n).memory| % 2 == 0
  {
    if n > 0 {
      AnsweredTalkAlternates(w, max, p, texts, n - 1);
      RespondAlternates(w, max, Talk(w, max, p, texts, n - 1), texts[n - 1]);
      assert ReplyTo(w, max, p, texts, n - 1).Ok?;
    }
  }

  lemma {:induction false} FirstFailure(w: World, max: nat, p: Progress, texts: seq<string>, n: nat) returns (i: nat)
    requires n <= |texts| && !AllAnswered(w, max, p, texts, n)
    ensures i < n && AllAnswered(w, max, p, texts, i) && ReplyTo(w, max, p, texts, i).Err?
  {
    if AllAnswered(w, max, p, texts, n - 1) {
      i := n - 1;
    } else {
      i := FirstFailure(w, max, p, texts, n - 1);
    }
  }

  lemma UserTurnAt(m: seq<Message>, text: string, later: seq<Message>)
    requires |m| % 2 == 1 && m + [Message(User, [TextBlock(text)])] <= later
    ensures !Alternates(later)
  {
    assert later[|m|] == (m + [Message(User, [TextBlock(text)])])[|m|];
  }

  /** Once the history has odd length, the next user turn lands on an odd place. */
  lemma OddBreaksAlternation(w: World, max: nat, p: Progress, texts: seq<string>, k: nat, n: nat)
    requires k < n <= |texts| && |Talk(w, max, p, texts, k).memory| % 2 == 1
    ensures !Alternates(Talk(w, max, p, texts, n).memory)
  {
    var odd := Talk(w, max, p, texts, k);
    RespondShape(w, max, odd, texts[k]);
    TalkAppends(w, max, p, texts, k + 1, n);
    UserTurnAt(odd.memory, texts[k], Talk(w, max, p, texts, n).memory);
  }

  lemma FailureBreaksAlternation(w: World, max: nat, p: Progress, texts: seq<string>, i: nat, n: nat)
    requires i + 2 <= n <= |texts| && p.memory == []
    requires AllAnswered(w, max, p, texts, i) && ReplyTo(w, max, p, texts, i).Err?
    ensures !Alternates(Talk(w, max, p, texts, n).memory)
  {
    AnsweredTalkAlternates(w, max, p, texts, i);
    RespondAlternates(w, max, Talk(w, max, p, texts, i), texts[i]);
    OddBreaksAlternation(w, max, p, texts, i + 1, n);
  }

  /**
  MAIN: roles alternate throughout a conversation exactly when every response before the last
  ended with an answer; a failed one leaves a user turn at the end, and the next adds another.
  */
  lemma RolesAlternateExactlyWhenAnswered(w: World, max: nat, p: Progress, texts: seq<string>, n: nat)
    requires 1 <= n <= |texts| && p.memory == []
    ensures Alternates(Talk(w, max, p, texts, n).memory) <==> AllAnswered(w, max, p, texts, n - 1)
  {
    if AllAnswered(w, max, p, texts, n - 1) {
      AnsweredTalkAlternates(w, max, p, texts, n - 1);
      RespondAlternates(w, max, Talk(w, max, p, texts, n - 1), texts[n - 1]);
    } else {
      var i := FirstFailure(w, max, p, texts, n - 1);
      FailureBreaksAlternation(w, max, p, texts, i, n);
    }
  }

  // ---------------------------------------------------------------- unanswered tool uses

  /** Every assistant turn that asks for tools is followed at once by a user turn that answers all of it. */
  ghost predicate EveryUseAnswered(m: seq<Message>) {
    forall j :: 0 <= j < |m| && m[j].role == Assistant && UseIds(m[j].content, |m[j].content|) != [] ==>
      j + 1 < |m| && m[j + 1].role == User && Answers(m[j + 1], m[j])
  }

  predicate AsksForTools(m: Message) { UseIds(m.content, |m.content|) != [] }

  /** The message at `j`, if it asks for tools, is followed by the answers. */
  ghost predicate UseAnswered(m: seq<Message>, j: nat)
    requires j < |m|
  {
    m[j].role == Assistant && AsksForTools(m[j]) ==> j + 1 < |m| && m[j + 1].role == User && Answers(m[j + 1], m[j])
  }

  lemma EarlierUseAnswered(past: seq<Message>, user: Message, m: seq<Message>, j: nat)
    requires EveryUseAnswered(past) && user.role == User && past + [user] <= m && Rounds(m, |past| + 1) && j < |m| - 1
    ensures UseAnswered(m, j)
  {
    var start, base := past + [user], |past| + 1;
    if j < base {
      assert m[j] == start[j];
      assert j < |past| && j + 1 < |past| ==> m[j + 1] == start[j + 1] == past[j + 1];
    } else {
      assert Slot(m, base, j) && Slot(m, base, j + 1);
    }
  }

  lemma EveryUseAnsweredByIndex(m: seq<Message>)
    ensures EveryUseAnswered(m) <==> forall j :: 0 <= j < |m| ==> UseAnswered(m, j)
  {
    if EveryUseAnswered(m) {
      forall j | 0 <= j < |m| ensures UseAnswered(m, j) {
      }
    }
    if forall j :: 0 <= j < |m| ==> UseAnswered(m, j) {
      forall j | 0 <= j < |m| && m[j].role == Assistant && UseIds(m[j].content, |m[j].content|) != []
        ensures j + 1 < |m| && m[j + 1].role == User && Answers(m[j + 1], m[j])
      {
        assert UseAnswered(m, j);
      }
    }
  }

  /** A response that ends in an error ends on a user turn. */
  lemma ErrorEndsOnUser(w: World, max: nat, p: Progress, text: string)
    requires Respond(w, max, p, text).1.Err?
    ensures
      var q := Respond(w, max, p, text).0;
      q.memory != [] && q.memory[|q.memory| - 1].role == User
  {
    RespondShape(w, max, p, text);
    var q := Respond(w, max, p, text).0;
    var start, base, last := p.memory + [Message(User, [TextBlock(text)])], |p.memory| + 1, |q.memory| - 1;
    assert last >= base ==> Slot(q.memory, base, last);
    assert last < base ==> q.memory[last] == start[last];
  }

  /** MAIN: a response leaves a tool use unanswered exactly when its final answer still asks for tools (as a cut-off one may). */
  lemma ToolUsesStayAnswered(w: World, max: nat, p: Progress, text: string)
    requires EveryUseAnswered(p.memory)
    ensures
      var (q, reply) := Respond(w, max, p, text);
      && q.memory != []
      && (EveryUseAnswered(q.memory) <==> (reply.Ok? ==> !AsksForTools(q.memory[|q.memory| - 1])))
  {
    RespondShape(w, max, p, text);
    var (q, reply) := Respond(w, max, p, text);
    var last := |q.memory| - 1;
    EveryUseAnsweredByIndex(q.memory);
    forall j | 0 <= j < last ensures UseAnswered(q.memory, j) {
      EarlierUseAnswered(p.memory, Message(User, [TextBlock(text)]), q.memory, j);
    }
    if reply.Err? {
      ErrorEndsOnUser(w, max, p, text);
    }
    assert UseAnswered(q.memory, last) <==> (reply.Ok? ==> !AsksForTools(q.memory[last]));
  }

  /** The provider asks for tools and stops for another reason, so that nobody runs them. */
  predicate StopsMidRequest(response: Response) {
    response.stopReason != WantsTools && UseIds(response.blocks, |response.blocks|) != []
  }

  /** One of the requests that the loop really makes from here is answered so. */
  ghost predicate StopsMidRequestFrom(w: World, max: nat, i: nat, p: Progress)
    requires i <= max
    decreases max - i
  {
    i < max &&
    (|| (w.turn(p.calls, p.memory).Ok? && StopsMidRequest(w.turn(p.calls, p.memory).value))
     || (OneTurn(w, i, p).Continue? && StopsMidRequestFrom(w, max, i + 1, OneTurn(w, i, p).progress)))
  }

  /** The loop ends on an answer that still asks for tools exactly when one of its requests is answered so. */
  lemma {:induction false} LoopStopsMidRequest(w: World, max: nat, i: nat, p: Progress)
    requires i <= max
    ensures
      var (q, reply) := Loop(w, max, i, p);
      StopsMidRequestFrom(w, max, i, p) <==> reply.Ok? && q.memory != [] && AsksForTools(q.memory[|q.memory| - 1])
    decreases max - i
  {
    if i < max {
      var end := OneTurn(w, i, p);
      if end.Continue? {
        LoopStopsMidRequest(w, max, i + 1, end.progress);
      }
    }
  }

  ghost predicate StopsMidRequestIn(w: World, max: nat, p: Progress, text: string) {
    StopsMidRequestFrom(w, max, 0, p.(memory := p.memory + [Message(User, [TextBlock(text)])]))
  }

  lemma RespondStopsMidRequest(w: World, max: nat, p: Progress, text: string)
    requires EveryUseAnswered(p.memory)
    ensures EveryUseAnswered(Respond(w, max, p, text).0.memory) <==> !StopsMidRequestIn(w, max, p, text)
  {
    ToolUsesStayAnswered(w, max, p, text);
    LoopStopsMidRequest(w, max, 0, p.(memory := p.memory + [Message(User, [TextBlock(text)])]));
  }

  lemma TextAnswersNothing(m: seq<Message>, j: nat, text: string)
    requires j + 1 < |m| && m[j].role == Assistant && AsksForTools(m[j]) && m[j + 1] == Message(User, [TextBlock(text)])
    ensures !UseAnswered(m, j)
  {
    assert m[j + 1].content[0] == TextBlock(text);
  }

  /** What has been left unanswered stays so. */
  lemma UnansweredForGood(w: World, max: nat, p: Progress, text: string)
    requires !EveryUseAnswered(p.memory)
    ensures !EveryUseAnswered(Respond(w, max, p, text).0.memory)
  {
    var start, m := p.memory + [Message(User, [TextBlock(text)])], Respond(w, max, p, text).0.memory;
    RespondShape(w, max, p, text);
    EveryUseAnsweredByIndex(p.memory);
    EveryUseAnsweredByIndex(m);
    var j :| 0 <= j < |p.memory| && !UseAnswered(p.memory, j);
    assert m[j] == start[j] && m[j + 1] == start[j + 1];
    if j + 1 == |p.memory| {
      TextAnswersNothing(m, j, text);
    }
  }

  lemma UsesAnsweredStep(w: World, max: nat, before: Progress, text: string, after: Progress)
    requires after == Respond(w, max, before, text).0
    ensures EveryUseAnswered(after.memory) <==> EveryUseAnswered(before.memory) && !StopsMidRequestIn(w, max, before, text)
  {
    if EveryUseAnswered(before.memory) {
      RespondStopsMidRequest(w, max, before, text);
    } else {
      UnansweredForGood(w, max, before, text);
    }
  }

  /** The response to the k-th utterance stops so. */
  ghost predicate StopsMidRequestAt(w: World, max: nat, p: Progress, texts: seq<string>, k: nat)
    requires k < |texts|
  {
    StopsMidRequestIn(w, max, Talk(w, max, p, texts, k), texts[k])
  }

  ghost predicate NoneStopsMidRequest(w: World, max: nat, p: Progress, texts: seq<string>, n: nat)
    requires n <= |texts|
  {
    forall k :: 0 <= k < n ==> !StopsMidRequestAt(w, max, p, texts, k)
  }

  /**
  MAIN: over whole conversations, every tool use is answered exactly when the provider answers none of the
  requests that are really made by asking for tools and stopping for another reason.
  */
  lemma {:induction false} UsesAnsweredExactly(w: World, max: nat, p: Progress, texts: seq<string>, n: nat)
    requires n <= |texts| && EveryUseAnswered(p.memory)
    ensures EveryUseAnswered(Talk(w, max, p, texts, n).memory) <==> NoneStopsMidRequest(w, max, p, texts, n)
  {
    if n > 0 {
      UsesAnsweredExactly(w, max, p, texts, n - 1);
      UsesAnsweredStep(w, max, Talk(w, max, p, texts, n - 1), texts[n - 1], Talk(w, max, p, texts, n));
      assert NoneStopsMidRequest(w, max, p, texts, n) <==>
        NoneStopsMidRequest(w, max, p, texts, n - 1) && !StopsMidRequestAt(w, max, p, texts, n - 1);
    }
  }

  ghost predicate NeverStopsMidRequest(w: World) {
    forall calls, memory :: w.turn(calls, memory).Ok? ==> !StopsMidRequest(w.turn(calls, memory).value)
  }

  lemma {:induction false} NeverMeansNotFrom(w: World, max: nat, i: nat, p: Progress)
    requires i <= max && NeverStopsMidRequest(w)
    ensures !StopsMidRequestFrom(w, max, i, p)
    decreases max - i
  {
    if i < max && OneTurn(w, i, p).Continue? {
      NeverMeansNotFrom(w, max, i + 1, OneTurn(w, i, p).progress);
    }
  }

  /** With a provider that never does, nothing is ever left unanswered. */
  lemma WellBehavedProvider(w: World, max: nat, p: Progress, texts: seq<string>, n: nat)
    requires n <= |texts| && EveryUseAnswered(p.memory) && NeverStopsMidRequest(w)
    ensures EveryUseAnswered(Talk(w, max, p, texts, n).memory)
  {
    forall k | 0 <= k < n ensures !StopsMidRequestAt(w, max, p, texts, k) {
      var before := Talk(w, max, p, texts, k);
      NeverMeansNotFrom(w, max, 0, before.(memory := before.memory + [Message(User, [TextBlock(texts[k])])]));
    }
    UsesAnsweredExactly(w, max, p, texts, n);
  }

  /** A provider whose answers are cut off in the middle of a tool request. */
  function CutOff(names: seq<string>): World {
    World((_, _) => Ok(Response([ToolUse("1", "search", "")], MaxTokens)), names, (_, _, _) => Ok(""))
  }

  lemma CutOffLeavesItUnanswered(names: seq<string>, max: nat, text: string)
    requires max >= 1
    ensures
      var (q, reply) := Respond(CutOff(names), max, Progress([], 0), text);
      reply.Ok? && !EveryUseAnswered(q.memory)
  {
    var blocks := [ToolUse("1", "search", "")];
    assert UseIds(blocks, 0) == [] && UseIds(blocks, 1) == ["1"];
    var (q, reply) := Respond(CutOff(names), max, Progress([], 0), text);
    assert q.memory == [Message(User, [TextBlock(text)]), Message(Assistant, blocks)];
    assert AsksForTools(q.memory[1]);
    EveryUseAnsweredByIndex(q.memory);
    assert !UseAnswered(q.memory, 1);
  }

  /** A provider that cannot be reached. */
  function Unreachable(message: string, names: seq<string>): World {
    World((_, _) => Err(message), names, (_, _, _) => Ok(""))
  }

  lemma FailuresPileUpUserTurns(message: string, names: seq<string>, max: nat, first: string, second: string)
    requires max >= 1
    ensures !Alternates(Talk(Unreachable(message, names), max, Progress([], 0), [first, second], 2).memory)
  {
    var w, p, texts := Unreachable(message, names), Progress([], 0), [first, second];
    assert Talk(w, max, p, texts, 0) == p;
    assert ReplyTo(w, max, p, texts, 0).Err?;
    RolesAlternateExactlyWhenAnswered(w, max, p, texts, 2);
  }

  // ---------------------------------------------------------------- the speech runner

  function ErrorText(e: AgentError): string {
    match e
    case Provider(m) => "provider error: " + m
    case NotConverged(n) => "agentic loop did not converge within " + Text.Decimal(n) + " iterations"
  }

  function OutcomeOf(reply: Reply): Outcome {
    match reply
    case Ok(o) => o
    case Err(e) => Outcome("", 0, Some(ErrorText(e)))
  }

  predicate Blank(text: string) { Text.Trim(text) == "" }

  /** Blank means nothing but white space. */
  lemma {:induction false} BlankIsWhite(text: string)
    ensures Blank(text) <==> forall c <- text :: Text.IsWhitespace(c)
  {
    if text != "" && Text.IsWhitespace(text[0]) {
      BlankIsWhite(text[1..]);
      assert text == [text[0]] + text[1..];
    } else if text != "" {
      assert Text.TrimStart(text) == text;
      Text.TrimEndAfter([text[0]], text[1..]);
      assert text == [text[0]] + text[1..];
    }
  }

  /** What the consumer is told when the provider cannot be reached. */
  lemma UnreachableOutcome(message: string, names: seq<string>, max: nat, p: Progress, text: string)
    requires max >= 1
    ensures OutcomeOf(Respond(Unreachable(message, names), max, p, text).1) == Outcome("", 0, Some("provider error: " + message))
  {
  }

  /** A provider that asks for one and the same tool for ever. */
  function Endless(names: seq<string>): World {
    World((_, _) => Ok(Response([ToolUse("1", "search", "")], WantsTools)), names, (_, _, _) => Ok(""))
  }

  lemma {:induction false} EndlessLoop(names: seq<string>, max: nat, i: nat, p: Progress)
    requires i <= max
    ensures Loop(Endless(names), max, i, p).1 == Err(NotConverged(max))
    decreases max - i
  {
    if i < max {
      EndlessLoop(names, max, i + 1, OneTurn(Endless(names), i, p).progress);
    }
  }

  /** What the consumer is told when the model never stops asking for tools. */
  lemma EndlessOutcome(names: seq<string>, max: nat, p: Progress, text: string)
    ensures OutcomeOf(Respond(Endless(names), max, p, text).1) ==
            Outcome("", 0, Some("agentic loop did not converge within " + Text.Decimal(max) + " iterations"))
  {
    EndlessLoop(names, max, 0, p.(memory := p.memory + [Message(User, [TextBlock(text)])]));
  }

  /** The transcripts among the first `n` that are not blank. */
  function Spoken(queue: seq<string>, n: nat): seq<string>
    requires n <= |queue|
  {
    if n == 0 then [] else Spoken(queue, n - 1) + if Blank(queue[n - 1]) then [] else [queue[n - 1]]
  }

  lemma {:induction false} SpokenPrefix(queue: seq<string>, k: nat, n: nat)
    requires k <= n <= |queue|
    ensures Spoken(queue, k) <= Spoken(queue, n)
  {
    if k < n {
      SpokenPrefix(queue, k, n - 1);
    }
  }

  lemma {:induction false} SpokenNext(queue: seq<string>, k: nat)
    requires k < |queue|
    ensures Spoken(queue, k + 1) <= Spoken(queue, |queue|)
    ensures Blank(queue[k]) ==> Spoken(queue, k + 1) == Spoken(queue, k)
    ensures !Blank(queue[k]) ==> |Spoken(queue, k + 1)| == |Spoken(queue, k)| + 1
    ensures !Blank(queue[k]) ==>
      |Spoken(queue, k)| < |Spoken(queue, |queue|)| && Spoken(queue, |queue|)[|Spoken(queue, k)|] == queue[k]
  {
    SpokenPrefix(queue, k + 1, |queue|);
    if !Blank(queue[k]) {
      assert Spoken(queue, k + 1)[|Spoken(queue, k)|] == queue[k];
    }
  }

  /** The outcomes are those of the first utterances, in order. */
  ghost predicate InOrder(outcomes: seq<Outcome>, w: World, max: nat, p: Progress, texts: seq<string>) {
    |outcomes| <= |texts| && forall i :: 0 <= i < |outcomes| ==> outcomes[i] == OutcomeOf(ReplyTo(w, max, p, texts, i))
  }

  lemma TalkNext(outcomes: seq<Outcome>, w: World, max: nat, p: Progress, texts: seq<string>, q: Progress, reply: Reply)
    requires |outcomes| < |texts| && InOrder(outcomes, w, max, p, texts)
    requires (q, reply) == Respond(w, max, Talk(w, max, p, texts, |outcomes|), texts[|outcomes|])
    ensures q == Talk(w, max, p, texts, |outcomes| + 1)
    ensures InOrder(outcomes + [OutcomeOf(reply)], w, max, p, texts)
  {
    var next := outcomes + [OutcomeOf(reply)];
    forall i | 0 <= i < |next| ensures next[i] == OutcomeOf(ReplyTo(w, max, p, texts, i)) {
      if i < |outcomes| {
        assert next[i] == outcomes[i];
      }
    }
  }

  /** The first `k` transcripts have been handled: their outcomes, and the conversation they left. */
  ghost predicate Handled(w: World, max: nat, p: Progress, queue: seq<string>, k: nat, outcomes: seq<Outcome>, now: Progress)
    requires k <= |queue|
  {
    && |outcomes| == |Spoken(queue, k)| <= |Spoken(queue, |queue|)|
    && InOrder(outcomes, w, max, p, Spoken(queue, |queue|))
    && now == Talk(w, max, p, Spoken(queue, |queue|), |outcomes|)
  }

  lemma NoneHandled(w: World, max: nat, p: Progress, queue: seq<string>)
    ensures Handled(w, max, p, queue, 0, [], p)
  {
  }

  lemma BlankHandled(w: World, max: nat, p: Progress, queue: seq<string>, k: nat, outcomes: seq<Outcome>, now: Progress)
    requires k < |queue| && Blank(queue[k]) && Handled(w, max, p, queue, k, outcomes, now)
    ensures Handled(w, max, p, queue, k + 1, outcomes, now)
  {
    SpokenNext(queue, k);
  }

  lemma OneMoreHandled(w: World, max: nat, p: Progress, queue: seq<string>, k: nat, outcomes: seq<Outcome>, now: Progress,
                       next: Progress, reply: Reply)
    requires k < |queue| && !Blank(queue[k]) && Handled(w, max, p, queue, k, outcomes, now)
    requires (next, reply) == Respond(w, max, now, queue[k])
    ensures Handled(w, max, p, queue, k + 1, outcomes + [OutcomeOf(reply)], next)
    ensures |outcomes| < |Spoken(queue, |queue|)|
  {
    SpokenNext(queue, k);
    TalkNext(outcomes, w, max, p, Spoken(queue, |queue|), next, reply);
  }

  class LlmAgent {
    const world: World
    const maxIterations: u32
    var memory: seq<Message>
    var calls: nat

    function Value(): Progress
      reads this
    {
      Progress(memory, calls)
    }

    constructor (world: World, maxIterations: u32)
      ensures this.world == world && this.maxIterations == maxIterations && Value() == Progress([], 0)
    {
      this.world, this.maxIterations := world, maxIterations;
      memory, calls := [], 0;
    }

    method RunToolCalls(blocks: seq<ContentBlock>) returns (results: seq<ContentBlock>)
      modifies this`calls
      ensures ToolRun(results, calls) == Tools(world, old(calls), blocks, |blocks|)
      ensures CarryIds(results, UseIds(blocks, |blocks|))
    {
      results := [];
      for i := 0 to |blocks|
        invariant ToolRun(results, calls) == Tools(world, old(calls), blocks, i)
      {
        if !blocks[i].ToolUse? {
          continue;
        }
        var block := blocks[i];
        var tool := Lookup(world.names, block.name);
        var result: ContentBlock;
        if tool.Some? {
          var output := world.call(calls, tool.value, block.input);
          calls := calls + 1;
          match output {
            case Ok(text) => result := ToolResult(block.id, text, false);
            case Err(e) => result := ToolResult(block.id, e, true);
          }
        } else {
          result := ToolResult(block.id, "unknown tool: " + block.name, true);
        }
        results := results + [result];
      }
      ToolsAnswerEveryUse(world, old(calls), blocks, |blocks|);
    }

    method ExtractText(blocks: seq<ContentBlock>) returns (out: string)
      ensures out == TextOf(blocks, |blocks|)
      ensures out == Lines(Texts(blocks, |blocks|))
    {
      out := "";
      for i := 0 to |blocks|
        invariant out == TextOf(blocks, i)
      {
        if blocks[i].TextBlock? {
          if blocks[i].text == "" {
            continue;
          }
          if out != "" {
            out := out + ['\n'];
          }
          out := out + blocks[i].text;
        }
      }
      TextIsJoined(blocks, |blocks|);
    }

    method RespondTo(userText: string) returns (reply: Reply)
      modifies this
      ensures (Value(), reply) == Respond(world, maxIterations, old(Value()), userText)
      ensures old(memory) + [Message(User, [TextBlock(userText)])] <= memory
    {
      RespondShape(world, maxIterations, Value(), userText);
      memory := memory + [Message(User, [TextBlock(userText)])];
      ghost var start := Value();
      for iteration := 0 to maxIterations
        invariant Loop(world, maxIterations, 0, start) == Loop(world, maxIterations, iteration, Value())
      {
        ghost var before := Value();
        var response := world.turn(calls, memory);
        calls := calls + 1;
        if response.Err? {
          return Err(Provider(response.error));
        }
        memory := memory + [Message(Assistant, response.value.blocks)];
        match response.value.stopReason {
          case WantsTools =>
            var results := RunToolCalls(response.value.blocks);
            memory := memory + [Message(User, results)];
            assert OneTurn(world, iteration, before) == Continue(Value());
          case EndTurn =>
            var text := ExtractText(response.value.blocks);
            return Ok(Outcome(text, iteration + 1, None));
          case MaxTokens =>
            var text := ExtractText(response.value.blocks);
            return Ok(Outcome(text, iteration + 1, None));
        }
      }
      reply := Err(NotConverged(maxIterations));
    }

    method Reset()
      modifies this`memory
      ensures memory == []
    {
      memory := [];
    }
  }

  class SpeechRunner {
    const agent: LlmAgent

    constructor (agent: LlmAgent)
      ensures this.agent == agent
    {
      this.agent := agent;
    }

    /**
    `run`: `queue` is what is received until the channel closes, `room` how many outcomes the
    consumer takes before it leaves.  One outcome per spoken transcript, failures included, in order.
    */
    method Drain(queue: seq<string>, room: nat) returns (outcomes: seq<Outcome>)
      modifies agent
      ensures
        var spoken := Spoken(queue, |queue|);
        && |outcomes| == MinNat(room, |spoken|)
        && InOrder(outcomes, agent.world, agent.maxIterations, old(agent.Value()), spoken)
        && agent.Value() == Talk(agent.world, agent.maxIterations, old(agent.Value()), spoken, MinNat(room + 1, |spoken|))
    {
      ghost var (w, max, start) := (agent.world, agent.maxIterations, agent.Value());
      outcomes := [];
      NoneHandled(w, max, start, queue);
      for k := 0 to |queue|
        invariant |outcomes| <= room && Handled(w, max, start, queue, k, outcomes, agent.Value())
      {
        if Blank(queue[k]) {
          BlankHandled(w, max, start, queue, k, outcomes, agent.Value());
          continue;
        }
        ghost var before := agent.Value();
        var reply := agent.RespondTo(queue[k]);
        OneMoreHandled(w, max, start, queue, k, outcomes, before, agent.Value(), reply);
        var outcome := OutcomeOf(reply);
        if |outcomes| == room {
          break;
        }
        outcomes := outcomes + [outcome];
      }
    }
  }
}
