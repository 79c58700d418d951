/** The tool-use loop of a review agent: ask, run the tools it names, answer, ask again; nudge a
    reply that is neither tools nor findings; force an answer when the turns run out. */
module Agentic {
  import opened Lists
  import Findings
  import Json

  /** A block of a response; `Other` is any kind that is neither text nor a tool call. */
  datatype Block = TextBlock(text: string) | ToolUse(id: string, name: string, input: string) | Other(text: string)

  datatype Usage = Usage(input: nat, output: nat, cacheRead: nat, cacheCreation: nat)

  /** A response may come without usage. */
  datatype Response = Response(content: seq<Block>, usage: Option<Usage>, stop: string)

  datatype Role = User | Assistant

  datatype ToolResult = ToolResult(id: string, content: string)

  datatype Content = Text(text: string) | Blocks(blocks: seq<Block>) | Results(results: seq<ToolResult>)

  datatype Message = Message(role: Role, content: Content)

  datatype Request = Request(messages: seq<Message>, tools: bool)

  datatype Call = Call(request: Request, response: Response)

  datatype ToolCall = ToolCall(turn: nat, name: string, input: string)

  datatype Report = Report(usage: Usage, stop: string, raw: string, turns: nat, toolCalls: seq<ToolCall>)

  /** The findings, or the exception of a reply that is none; the caller's report is filled unless
      the exception leaves from inside the loop. */
  datatype Outcome =
    | Found(findings: seq<Findings.Finding>, report: Report)
    | NotFindings(filled: Option<Report>)
    | Uncaught(filled: Option<Report>)

  /** The backend answers the n-th request, whatever it remembers of the earlier ones. */
  type Backend = (nat, Request) -> Response

  /** A tool's name and input, and the text it returns, errors included. */
  type Tools = (string, string) -> string

  const FINALIZE := "Stop exploring. Return your findings now as a JSON array only. Do not request tools."
  /** The first sentence of the nudge. */
  const RECOVERY := "Your previous reply was not a JSON findings array and requested no tools."
  const NO_CONTENT := "(no parseable content)"
  const MAX_RECOVERIES := 2

  // ---------------------------------------------------------------- responses

  function ToolUses(content: seq<Block>): seq<Block> {
    if content == [] then []
    else (if content[0].ToolUse? then [content[0]] else []) + ToolUses(content[1..])
  }

  /** The text blocks, joined. */
  function TextOf(content: seq<Block>): string {
    if content == [] then ""
    else (if content[0].TextBlock? then content[0].text else "") + TextOf(content[1..])
  }

  predicate Sent(b: Block) {
    b.ToolUse? || b.text != ""
  }

  function AsSent(b: Block): Block {
    if b.ToolUse? then b else TextBlock(b.text)
  }

  /** The assistant turn as it is replayed: empty texts are dropped, tool calls never. */
  function Wire(content: seq<Block>): seq<Block> {
    if content == [] then []
    else (if Sent(content[0]) then [AsSent(content[0])] else []) + Wire(content[1..])
  }

  function Answers(tools: Tools, uses: seq<Block>): seq<ToolResult>
    requires forall i :: 0 <= i < |uses| ==> uses[i].ToolUse?
  {
    seq(|uses|, i requires 0 <= i < |uses| => ToolResult(uses[i].id, tools(uses[i].name, uses[i].input)))
  }

  lemma {:induction false} ToolUsesAreTools(content: seq<Block>)
    ensures forall i :: 0 <= i < |ToolUses(content)| ==> ToolUses(content)[i].ToolUse?
  {
    if content != [] {
      ToolUsesAreTools(content[1..]);
    }
  }

  /** What the loop appends after a response that does not end it. */
  function Exchange(tools: Tools, resp: Response): seq<Message> {
    var uses := ToolUses(resp.content);
    var text := TextOf(resp.content);
    if uses == [] then
      [Message(Assistant, Text(if text == "" then NO_CONTENT else text)), Message(User, Text(RECOVERY))]
    else
      ToolUsesAreTools(resp.content);
      [Message(Assistant, Blocks(Wire(resp.content))), Message(User, Results(Answers(tools, uses)))]
  }

  /** The messages after these responses. */
  function Conversation(seed: string, tools: Tools, rs: seq<Response>): seq<Message> {
    if rs == [] then [Message(User, Text(seed))]
    else Conversation(seed, tools, rs[..|rs| - 1]) + Exchange(tools, rs[|rs| - 1])
  }

  function Plus(u: Usage, v: Option<Usage>): Usage {
    if v.None? then u
    else Usage(u.input + v.value.input, u.output + v.value.output,
               u.cacheRead + v.value.cacheRead, u.cacheCreation + v.value.cacheCreation)
  }

  function Total(rs: seq<Response>): Usage {
    if rs == [] then Usage(0, 0, 0, 0) else Plus(Total(rs[..|rs| - 1]), rs[|rs| - 1].usage)
  }

  function Logged(turn: nat, uses: seq<Block>): seq<ToolCall>
    requires forall i :: 0 <= i < |uses| ==> uses[i].ToolUse?
  {
    seq(|uses|, i requires 0 <= i < |uses| => ToolCall(turn, uses[i].name, uses[i].input))
  }

  function Log(rs: seq<Response>): seq<ToolCall> {
    if rs == [] then []
    else
      ToolUsesAreTools(rs[|rs| - 1].content);
      Log(rs[..|rs| - 1]) + Logged(|rs|, ToolUses(rs[|rs| - 1].content))
  }

  /** The responses without a tool call. */
  function Nudges(rs: seq<Response>): nat {
    if rs == [] then 0 else Nudges(rs[..|rs| - 1]) + if ToolUses(rs[|rs| - 1].content) == [] then 1 else 0
  }

  function Parsed(repr: Json.Json -> string, resp: Response): Findings.Result<seq<Findings.Finding>> {
    Findings.Parse(repr, TextOf(resp.content))
  }

  // ---------------------------------------------------------------- the run

  function Limit(maxTurns: int): nat {
    if maxTurns < 0 then 0 else maxTurns
  }

  function Responses(calls: seq<Call>): seq<Response> {
    seq(|calls|, i requires 0 <= i < |calls| => calls[i].response)
  }

  /** The request after these responses: with tools while turns are left, and else the forced one. */
  function Next(seed: string, tools: Tools, limit: nat, rs: seq<Response>): Request {
    if |rs| < limit then Request(Conversation(seed, tools, rs), true)
    else Request(Conversation(seed, tools, rs) + [Message(User, Text(FINALIZE))], false)
  }

  ghost predicate Asked(client: Backend, tools: Tools, seed: string, limit: nat, calls: seq<Call>) {
    && |calls| <= limit + 1
    && forall i :: 0 <= i < |calls| ==>
         calls[i].request == Next(seed, tools, limit, Responses(calls)[..i]) && calls[i].response == client(i, calls[i].request)
  }

  /** A reply that the loop goes on after: tools to run, or a nudge to give. */
  ghost predicate GoesOn(repr: Json.Json -> string, resp: Response) {
    ToolUses(resp.content) != [] || Parsed(repr, resp).ParseError?
  }

  /** Why the run ends at its last response. */
  ghost predicate Ends(repr: Json.Json -> string, limit: nat, rs: seq<Response>)
    requires rs != []
  {
    var last := rs[|rs| - 1];
    || |rs| == limit + 1
    || (ToolUses(last.content) == [] && (Parsed(repr, last).ParseError? ==> Nudges(rs[..|rs| - 1]) == MAX_RECOVERIES))
  }

  function OutcomeOf(parsed: Findings.Result<seq<Findings.Finding>>, report: Report, forced: bool): Outcome {
    match parsed
    case ParseError => NotFindings(if forced then Some(report) else None)
    case Uncaught => Outcome.Uncaught(if forced then Some(report) else None)
    case Ok(findings) => Found(findings, report)
  }

  function Ending(repr: Json.Json -> string, limit: nat, rs: seq<Response>): Outcome
    requires rs != []
  {
    var last := rs[|rs| - 1];
    var log := Log(if |rs| <= limit then rs else rs[..|rs| - 1]);
    OutcomeOf(Parsed(repr, last), Report(Total(rs), last.stop, TextOf(last.content), |rs|, log), |rs| > limit)
  }

  ghost predicate IsRun(client: Backend, tools: Tools, repr: Json.Json -> string, seed: string, limit: nat, calls: seq<Call>, r: Outcome) {
    var rs := Responses(calls);
    && calls != []
    && Asked(client, tools, seed, limit, calls)
    && (forall i :: 0 <= i < |rs| - 1 ==> GoesOn(repr, rs[i]))
    && Nudges(rs[..|rs| - 1]) <= MAX_RECOVERIES
    && Ends(repr, limit, rs)
    && r == Ending(repr, limit, rs)
  }

  method AssistantTurn(content: seq<Block>) returns (wire: seq<Block>)
    ensures wire == Wire(content)
  {
    wire := [];
    assert content[0..] == content;
    for i := 0 to |content|
      invariant wire + Wire(content[i..]) == Wire(content)
    {
      WireNext(content, i);
      var b := content[i];
      if b.ToolUse? {
        wire := wire + [b];
      } else {
        if b.text != "" {
          wire := wire + [TextBlock(b.text)];
        }
      }
    }
    assert content[|content|..] == [] && wire + [] == wire;
  }

  lemma WireNext(content: seq<Block>, i: nat)
    requires i < |content|
    ensures !Sent(content[i]) ==> Wire(content[i..]) == Wire(content[i + 1..])
    ensures Sent(content[i]) ==> forall out: seq<Block> ::
              out + [AsSent(content[i])] + Wire(content[i + 1..]) == out + Wire(content[i..])
  {
    assert content[i..][1..] == content[i + 1..];
    var rest := Wire(content[i + 1..]);
    if Sent(content[i]) {
      assert Wire(content[i..]) == [AsSent(content[i])] + rest;
      forall out: seq<Block> ensures out + [AsSent(content[i])] + rest == out + ([AsSent(content[i])] + rest) {}
    }
  }

  lemma ResponsesGrow(calls: seq<Call>, c: Call)
    ensures Responses(calls + [c]) == Responses(calls) + [c.response]
  {
  }

  lemma OneMore<T>(s: seq<T>, x: T)
    ensures (s + [x])[..|s|] == s && (s + [x])[|s|] == x && |s + [x]| == |s| + 1 && s + [x] != []
    ensures forall i :: 0 <= i <= |s| ==> (s + [x])[..i] == s[..i]
  {
  }

  lemma AskedMore(client: Backend, tools: Tools, seed: string, limit: nat, calls: seq<Call>, c: Call)
    requires Asked(client, tools, seed, limit, calls) && |calls| <= limit
    requires c.request == Next(seed, tools, limit, Responses(calls)) && c.response == client(|calls|, c.request)
    ensures Asked(client, tools, seed, limit, calls + [c])
  {
    hide Next;
    var more := calls + [c];
    ResponsesGrow(calls, c);
    OneMore(Responses(calls), c.response);
    assert Responses(calls)[..|calls|] == Responses(calls);
    forall i | 0 <= i < |more|
      ensures more[i].request == Next(seed, tools, limit, Responses(more)[..i]) && more[i].response == client(i, more[i].request)
    {
      if i < |calls| {
        assert more[i] == calls[i];
        assert Responses(more)[..i] == Responses(calls)[..i];
      }
    }
  }

  /** What the loop knows after `rs`, all of which it went on after. */
  ghost predicate Underway(client: Backend, tools: Tools, repr: Json.Json -> string, seed: string, limit: nat, calls: seq<Call>,
                           rs: seq<Response>) {
    && Responses(calls) == rs && |calls| == |rs| <= limit
    && Asked(client, tools, seed, limit, calls)
    && (forall i :: 0 <= i < |rs| ==> GoesOn(repr, rs[i]))
    && Nudges(rs) <= MAX_RECOVERIES
  }

  lemma Continues(client: Backend, tools: Tools, repr: Json.Json -> string, seed: string, limit: nat, calls: seq<Call>,
                  rs: seq<Response>, resp: Response)
    requires Underway(client, tools, repr, seed, limit, calls, rs) && |rs| < limit
    requires resp == client(|rs|, Next(seed, tools, limit, rs)) && GoesOn(repr, resp) && Nudges(rs + [resp]) <= MAX_RECOVERIES
    ensures Underway(client, tools, repr, seed, limit, calls + [Call(Next(seed, tools, limit, rs), resp)], rs + [resp])
  {
    hide Asked, GoesOn, Nudges, Next;
    var c := Call(Next(seed, tools, limit, rs), resp);
    AskedMore(client, tools, seed, limit, calls, c);
    ResponsesGrow(calls, c);
  }

  /** What the last response makes of the run. */
  function Verdict(repr: Json.Json -> string, limit: nat, rs: seq<Response>, resp: Response): Outcome {
    OutcomeOf(Parsed(repr, resp), Report(Plus(Total(rs), resp.usage), resp.stop, TextOf(resp.content), |rs| + 1, Log(rs)), |rs| >= limit)
  }

  /** The reply ends the run. */
  ghost predicate Stops(repr: Json.Json -> string, limit: nat, rs: seq<Response>, resp: Response) {
    || |rs| == limit
    || (ToolUses(resp.content) == [] && (Parsed(repr, resp).ParseError? ==> Nudges(rs) == MAX_RECOVERIES))
  }

  lemma StopsHere(repr: Json.Json -> string, limit: nat, rs: seq<Response>, resp: Response)
    requires Stops(repr, limit, rs, resp) && |rs| <= limit
    ensures Ends(repr, limit, rs + [resp])
    ensures Ending(repr, limit, rs + [resp]) == Verdict(repr, limit, rs, resp)
  {
    OneMore(rs, resp);
    StepSums("", (name, input) => "", rs, resp);
    NothingLogged(rs, resp);
    hide Parsed, ToolUses, TextOf, Total, Log, Nudges;
  }

  lemma Concludes(client: Backend, tools: Tools, repr: Json.Json -> string, seed: string, limit: nat, calls: seq<Call>,
                  rs: seq<Response>, resp: Response)
    requires Underway(client, tools, repr, seed, limit, calls, rs) && Stops(repr, limit, rs, resp)
    requires resp == client(|rs|, Next(seed, tools, limit, rs))
    ensures exists all :: IsRun(client, tools, repr, seed, limit, all, Verdict(repr, limit, rs, resp))
  {
    hide Asked, GoesOn, Nudges, Next, Responses, Ends, Ending, Stops;
    var more := calls + [Call(Next(seed, tools, limit, rs), resp)];
    AskedMore(client, tools, seed, limit, calls, Call(Next(seed, tools, limit, rs), resp));
    ResponsesGrow(calls, Call(Next(seed, tools, limit, rs), resp));
    OneMore(rs, resp);
    StopsHere(repr, limit, rs, resp);
    assert IsRun(client, tools, repr, seed, limit, more, Verdict(repr, limit, rs, resp));
  }

  lemma NothingLogged(rs: seq<Response>, resp: Response)
    ensures ToolUses(resp.content) == [] ==> Log(rs + [resp]) == Log(rs)
  {
    OneMore(rs, resp);
    hide ToolUses;
    ToolUsesAreTools(resp.content);
  }

  /** `run_agent_agentic` */
  method RunAgent(client: Backend, tools: Tools, repr: Json.Json -> string, seed: string, maxTurns: int)
    returns (r: Outcome)
    ensures var limit: nat := if maxTurns < 0 then 0 else maxTurns;
            exists calls :: IsRun(client, tools, repr, seed, limit, calls, r)
  {
    hide IsRun, Underway, ToolUses, TextOf, Conversation, Wire, Findings.Parse, Log, Total, Nudges, Exchange;
    var limit := Limit(maxTurns);
    var messages := [Message(User, Text(seed))];
    var usage := Usage(0, 0, 0, 0);
    var toolCalls: seq<ToolCall> := [];
    var recoveries := 0;
    ghost var calls: seq<Call>, rs: seq<Response> := [], [];
    Start(client, tools, repr, seed, limit);
    for turn := 0 to limit
      invariant |rs| == turn && Underway(client, tools, repr, seed, limit, calls, rs)
      invariant messages == Conversation(seed, tools, rs)
      invariant usage == Total(rs) && toolCalls == Log(rs) && recoveries == Nudges(rs) <= MAX_RECOVERIES
    {
      var resp := client(turn, Request(messages, true));
      StepSums(seed, tools, rs, resp);
      var uses := ToolUses(resp.content);
      ToolUsesAreTools(resp.content);
      if uses == [] {
        var text := TextOf(resp.content);
        var findings := Findings.ParseFindings(repr, text);
        if findings.ParseError? && recoveries < MAX_RECOVERIES {
          Continues(client, tools, repr, seed, limit, calls, rs, resp);
          NothingLogged(rs, resp);
          usage := Plus(usage, resp.usage);
          recoveries := recoveries + 1;
          messages := messages + [Message(Assistant, Text(if text == "" then NO_CONTENT else text))];
          messages := messages + [Message(User, Text(RECOVERY))];
          calls := calls + [Call(Next(seed, tools, limit, rs), resp)];
          rs := rs + [resp];
          continue;
        }
        Concludes(client, tools, repr, seed, limit, calls, rs, resp);
        match findings
        case ParseError => return NotFindings(None);
        case Uncaught => return Outcome.Uncaught(None);
        case Ok(fs) => return Found(fs, Report(Plus(usage, resp.usage), resp.stop, text, turn + 1, toolCalls));
      }
      Continues(client, tools, repr, seed, limit, calls, rs, resp);
      usage := Plus(usage, resp.usage);
      toolCalls := toolCalls + Logged(turn + 1, uses);
      var wire := AssistantTurn(resp.content);
      messages := messages + [Message(Assistant, Blocks(wire))];
      messages := messages + [Message(User, Results(Answers(tools, uses)))];
      calls := calls + [Call(Next(seed, tools, limit, rs), resp)];
      rs := rs + [resp];
    }
    messages := messages + [Message(User, Text(FINALIZE))];
    var resp := client(limit, Request(messages, false));
    Concludes(client, tools, repr, seed, limit, calls, rs, resp);
    var text := TextOf(resp.content);
    var report := Report(Plus(usage, resp.usage), resp.stop, text, limit + 1, toolCalls);
    var findings := Findings.ParseFindings(repr, text);
    match findings
    case ParseError => r := NotFindings(Some(report));
    case Uncaught => r := Outcome.Uncaught(Some(report));
    case Ok(fs) => r := Found(fs, report);
  }

  lemma Start(client: Backend, tools: Tools, repr: Json.Json -> string, seed: string, limit: nat)
    ensures Underway(client, tools, repr, seed, limit, [], [])
    ensures Conversation(seed, tools, []) == [Message(User, Text(seed))]
    ensures Total([]) == Usage(0, 0, 0, 0) && Log([]) == [] && Nudges([]) == 0
  {
  }

  /** What one more response adds to each of the sums. */
  lemma StepSums(seed: string, tools: Tools, rs: seq<Response>, resp: Response)
    ensures var more := rs + [resp]; var uses := ToolUses(resp.content);
            && Total(more) == Plus(Total(rs), resp.usage)
            && Nudges(more) == Nudges(rs) + (if uses == [] then 1 else 0)
            && Conversation(seed, tools, more) == Conversation(seed, tools, rs) + Exchange(tools, resp)
            && (forall i :: 0 <= i < |uses| ==> uses[i].ToolUse?)
            && Log(more) == Log(rs) + Logged(|rs| + 1, uses)
            && Exchange(tools, resp) ==
               (if uses == [] then
                  [Message(Assistant, Text(if TextOf(resp.content) == "" then NO_CONTENT else TextOf(resp.content))), Message(User, Text(RECOVERY))]
                else [Message(Assistant, Blocks(Wire(resp.content))), Message(User, Results(Answers(tools, uses)))])
  {
    OneMore(rs, resp);
    ToolUsesAreTools(resp.content);
    hide ToolUses, TextOf, Wire;
  }
}
