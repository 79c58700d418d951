/** What every run of the agent loop keeps, whatever the backend answers. */
module AgenticLaws {
  import opened Lists
  import opened Agentic
  import Findings
  import Json

  // ---------------------------------------------------------------- a response, block by block

  /** What one block adds to a replayed turn. */
  function Replayed(b: Block): seq<Block> {
    match b
    case TextBlock(text) => if text == "" then [] else [TextBlock(text)]
    case Other(text) => if text == "" then [] else [TextBlock(text)]
    case ToolUse(_, _, _) => [b]
  }

  /** The text of a reply is its text blocks in order, its tool uses are its tool blocks in order, and
      it is replayed block by block. */
  lemma BlockByBlock(content: seq<Block>, b: Block)
    ensures TextOf([]) == "" && ToolUses([]) == [] && Wire([]) == []
    ensures TextOf(content + [b]) == TextOf(content) + if b.TextBlock? then b.text else ""
    ensures ToolUses(content + [b]) == ToolUses(content) + if b.ToolUse? then [b] else []
    ensures Wire(content + [b]) == Wire(content) + Replayed(b)
  {
    TextBlockByBlock(content, b);
    ToolsBlockByBlock(content, b);
    WireBlockByBlock(content, b);
    NoBlocks();
    hide TextOf, ToolUses, Wire;
  }

  lemma {:induction false} TextBlockByBlock(content: seq<Block>, b: Block)
    ensures TextOf(content + [b]) == TextOf(content) + if b.TextBlock? then b.text else ""
  {
    var more := content + [b];
    if content == [] {
      assert more == [b] && more[1..] == [];
    } else {
      TextBlockByBlock(content[1..], b);
      assert more[0] == content[0] && more[1..] == content[1..] + [b];
    }
  }

  lemma {:induction false} ToolsBlockByBlock(content: seq<Block>, b: Block)
    ensures ToolUses(content + [b]) == ToolUses(content) + if b.ToolUse? then [b] else []
  {
    var more := content + [b];
    if content == [] {
      assert more == [b] && more[1..] == [];
    } else {
      ToolsBlockByBlock(content[1..], b);
      assert more[0] == content[0] && more[1..] == content[1..] + [b];
    }
  }

  lemma {:induction false} WireBlockByBlock(content: seq<Block>, b: Block)
    ensures Wire(content + [b]) == Wire(content) + Replayed(b)
  {
    var more := content + [b];
    if content == [] {
      assert more == [b] && more[1..] == [];
      assert Wire([]) == [];
    } else {
      hide Sent, AsSent;
      WireBlockByBlock(content[1..], b);
      assert more[0] == content[0] && more[1..] == content[1..] + [b];
    }
  }

  // ---------------------------------------------------------------- the conversation

  lemma {:induction false} ConversationLength(seed: string, tools: Tools, rs: seq<Response>)
    ensures |Conversation(seed, tools, rs)| == 2 * |rs| + 1
  {
    hide Exchange;
    if rs != [] {
      ConversationLength(seed, tools, rs[..|rs| - 1]);
      ExchangeLength(tools, rs[|rs| - 1]);
    }
  }

  lemma ExchangeLength(tools: Tools, resp: Response)
    ensures |Exchange(tools, resp)| == 2
  {
    hide ToolUses, TextOf, Wire;
  }

  /** The history is only ever extended. */
  lemma {:induction false} ConversationExtends(seed: string, tools: Tools, rs: seq<Response>, i: nat)
    requires i <= |rs|
    ensures var now, then_ := Conversation(seed, tools, rs), Conversation(seed, tools, rs[..i]);
            |then_| == 2 * i + 1 <= |now| && now[..2 * i + 1] == then_
  {
    ConversationLength(seed, tools, rs);
    ConversationLength(seed, tools, rs[..i]);
    if i == |rs| {
      assert rs[..i] == rs;
    } else {
      hide Exchange;
      var init := rs[..|rs| - 1];
      ConversationExtends(seed, tools, init, i);
      assert init[..i] == rs[..i];
      assert Conversation(seed, tools, rs) == Conversation(seed, tools, init) + Exchange(tools, rs[|rs| - 1]);
    }
  }

  /** The two messages after the i-th response. */
  lemma ExchangeAt(seed: string, tools: Tools, rs: seq<Response>, i: nat)
    requires i < |rs|
    ensures |Conversation(seed, tools, rs)| == 2 * |rs| + 1
    ensures Conversation(seed, tools, rs)[2 * i + 1..2 * i + 3] == Exchange(tools, rs[i])
  {
    hide Exchange;
    ConversationLength(seed, tools, rs);
    ConversationLength(seed, tools, rs[..i]);
    ConversationExtends(seed, tools, rs, i + 1);
    ExchangeLength(tools, rs[i]);
    assert rs[..i + 1][..i] == rs[..i] && rs[..i + 1][i] == rs[i];
    var now, mid := Conversation(seed, tools, rs), Conversation(seed, tools, rs[..i + 1]);
    assert mid == Conversation(seed, tools, rs[..i]) + Exchange(tools, rs[i]);
    assert now[..2 * i + 3] == mid;
    assert now[2 * i + 1..2 * i + 3] == mid[2 * i + 1..];
  }

  lemma {:induction false} WireIsSent(content: seq<Block>)
    ensures forall i :: 0 <= i < |Wire(content)| ==> Sent(Wire(content)[i])
  {
    if content != [] {
      WireIsSent(content[1..]);
    }
  }

  lemma ToolUsesCons(b: Block, rest: seq<Block>)
    ensures ToolUses([b] + rest) == (if b.ToolUse? then [b] else []) + ToolUses(rest)
  {
    assert ([b] + rest)[1..] == rest;
  }

  lemma {:induction false} WireKeepsTools(content: seq<Block>)
    ensures ToolUses(Wire(content)) == ToolUses(content)
    ensures ToolUses(content) != [] ==> Wire(content) != []
  {
    if content != [] {
      var b, rest := content[0], Wire(content[1..]);
      WireKeepsTools(content[1..]);
      assert [b] + content[1..] == content;
      ToolUsesCons(b, content[1..]);
      ToolUsesCons(AsSent(b), rest);
      var w := Wire(content);
      if Sent(b) {
        assert w == [AsSent(b)] + rest && w != [];
      } else {
        assert w == rest;
      }
      NoBlocks();
      hide ToolUses, Wire;
    }
  }

  lemma NoBlocks()
    ensures TextOf([]) == "" && ToolUses([]) == [] && Wire([]) == []
  {
  }

  ghost predicate Speaks(m: Message) {
    m.role == Assistant ==>
      match m.content
      case Text(text) => text != ""
      case Blocks(blocks) => blocks != [] && forall i :: 0 <= i < |blocks| ==> Sent(blocks[i])
      case Results(_) => false
  }

  lemma ExchangeShape(tools: Tools, resp: Response)
    ensures var e := Exchange(tools, resp);
            |e| == 2 && e[0].role == Assistant && e[1].role == User && Speaks(e[0])
  {
    hide ToolUses, TextOf, Wire, Sent;
    WireKeepsTools(resp.content);
    WireIsSent(resp.content);
  }

  /** User and assistant alternate, the user speaks first and last, and no assistant turn - nor
      any block of one - is empty. */
  lemma ConversationAlternates(seed: string, tools: Tools, rs: seq<Response>, i: nat)
    requires i < 2 * |rs| + 1
    ensures var c := Conversation(seed, tools, rs);
            |c| == 2 * |rs| + 1 && (c[i].role == User <==> i % 2 == 0) && Speaks(c[i])
  {
    hide Exchange, Sent;
    ConversationLength(seed, tools, rs);
    var c := Conversation(seed, tools, rs);
    if i == 0 {
      ConversationExtends(seed, tools, rs, 0);
      assert rs[..0] == [];
      assert c[0] == c[..1][0];
    } else {
      var k := (i - 1) / 2;
      ExchangeAt(seed, tools, rs, k);
      ExchangeShape(tools, rs[k]);
      var e := c[2 * k + 1..2 * k + 3];
      assert e[0] == c[2 * k + 1] && e[1] == c[2 * k + 2];
    }
  }

  /** The conversation starts with the seed, and a reply without tool calls is replayed as its text,
      or a stand-in when it has none, and followed by the nudge. */
  lemma NudgesAreSpoken(seed: string, tools: Tools, rs: seq<Response>, i: nat)
    requires i < |rs| && ToolUses(rs[i].content) == []
    ensures var c := Conversation(seed, tools, rs);
            var text := TextOf(rs[i].content);
            && |c| == 2 * |rs| + 1 && c[0] == Message(User, Text(seed))
            && c[2 * i + 1] == Message(Assistant, Text(if text == "" then NO_CONTENT else text))
            && c[2 * i + 2] == Message(User, Text(RECOVERY))
  {
    hide Wire, ToolUses, TextOf;
    ConversationStarts(seed, tools, rs);
    ExchangeAt(seed, tools, rs, i);
    hide Conversation;
    var c := Conversation(seed, tools, rs);
    var e := c[2 * i + 1..2 * i + 3];
    assert e[0] == c[2 * i + 1] && e[1] == c[2 * i + 2];
  }

  lemma ConversationStarts(seed: string, tools: Tools, rs: seq<Response>)
    ensures Conversation(seed, tools, rs) != [] && Conversation(seed, tools, rs)[0] == Message(User, Text(seed))
  {
    hide Exchange;
    ConversationExtends(seed, tools, rs, 0);
    assert rs[..0] == [];
    assert Conversation(seed, tools, rs)[..1][0] == Message(User, Text(seed));
  }

  /** Every tool call of a turn is in the replayed turn, and the very next message answers each
      by its id, in the same order, with what the tool returned. */
  lemma ToolUsesAreAnswered(seed: string, tools: Tools, rs: seq<Response>, i: nat)
    requires i < |rs| && ToolUses(rs[i].content) != []
    ensures var c := Conversation(seed, tools, rs);
            var uses := ToolUses(rs[i].content);
            && |c| == 2 * |rs| + 1
            && c[2 * i + 1] == Message(Assistant, Blocks(Wire(rs[i].content)))
            && ToolUses(c[2 * i + 1].content.blocks) == uses
            && c[2 * i + 2].role == User && c[2 * i + 2].content.Results? && |c[2 * i + 2].content.results| == |uses|
            && forall k :: 0 <= k < |uses| ==>
                 uses[k].ToolUse? && c[2 * i + 2].content.results[k] == ToolResult(uses[k].id, tools(uses[k].name, uses[k].input))
  {
    hide Wire, ToolUses, Conversation;
    ExchangeAt(seed, tools, rs, i);
    ToolUsesAreTools(rs[i].content);
    WireKeepsTools(rs[i].content);
    var c := Conversation(seed, tools, rs);
    var e := c[2 * i + 1..2 * i + 3];
    assert e[0] == c[2 * i + 1] && e[1] == c[2 * i + 2];
  }

  // ---------------------------------------------------------------- every run

  lemma {:induction false} NudgesGrow(rs: seq<Response>, i: nat)
    requires i <= |rs|
    ensures Nudges(rs[..i]) <= Nudges(rs)
  {
    if i == |rs| {
      assert rs[..i] == rs;
    } else {
      hide ToolUses;
      var init := rs[..|rs| - 1];
      NudgesGrow(init, i);
      assert init[..i] == rs[..i];
    }
  }

  /** Bounds of every run: at most one request more than the turns, at most two nudges, tools
      offered in every request but the forced one, and each request goes on from the last: it
      starts with the messages of every request before it. */
  lemma RunIsBounded(client: Backend, tools: Tools, repr: Json.Json -> string, seed: string, limit: nat, calls: seq<Call>, r: Outcome)
    requires IsRun(client, tools, repr, seed, limit, calls, r)
    ensures 0 < |calls| <= limit + 1
    ensures Nudges(Responses(calls)[..|calls| - 1]) <= 2
    ensures forall i :: 0 <= i < |calls| ==> (calls[i].request.tools <==> i < limit)
    ensures forall i, j :: 0 <= i <= j < |calls| ==>
              |Conversation(seed, tools, Responses(calls)[..i])| <= |calls[j].request.messages|
              && calls[j].request.messages[..|Conversation(seed, tools, Responses(calls)[..i])|] ==
                 Conversation(seed, tools, Responses(calls)[..i])
  {
    hide Conversation, Nudges, Ends, Ending, GoesOn;
    var rs := Responses(calls);
    forall i, j | 0 <= i <= j < |calls|
      ensures |Conversation(seed, tools, rs[..i])| <= |calls[j].request.messages|
      ensures calls[j].request.messages[..|Conversation(seed, tools, rs[..i])|] == Conversation(seed, tools, rs[..i])
    {
      ConversationExtends(seed, tools, rs[..j], i);
      assert rs[..j][..i] == rs[..i];
      assert calls[j].request == Next(seed, tools, limit, rs[..j]);
    }
  }

  /** The requests of a run: those inside the loop alternate and end with the user; only the
      forced one has two user messages in a row, at its end. */
  lemma RequestsAlternate(client: Backend, tools: Tools, repr: Json.Json -> string, seed: string, limit: nat, calls: seq<Call>,
                          r: Outcome, i: nat, k: nat)
    requires IsRun(client, tools, repr, seed, limit, calls, r)
    requires i < |calls| && k < |calls[i].request.messages|
    ensures var ms := calls[i].request.messages;
            && |ms| == 2 * i + 1 + (if i < limit then 0 else 1)
            && (ms[k].role == User <==> k % 2 == 0 || k == 2 * i + 1)
            && Speaks(ms[k])
            && (i == limit ==> ms[2 * i + 1] == Message(User, Text(FINALIZE)))
            && ms[..2 * i + 1] == Conversation(seed, tools, Responses(calls)[..i])
  {
    hide Conversation, Nudges, Ends, Ending, GoesOn;
    var rs := Responses(calls)[..i];
    assert calls[i].request == Next(seed, tools, limit, rs);
    ConversationLength(seed, tools, rs);
    if k < 2 * i + 1 {
      ConversationAlternates(seed, tools, rs, k);
    }
  }

  lemma {:induction false} TotalSum(rs: seq<Response>, field: Usage -> nat)
    requires field(Usage(0, 0, 0, 0)) == 0
    requires forall u, v :: field(Plus(u, v)) == field(u) + (if v.Some? then field(v.value) else 0)
    ensures field(Total(rs)) == Sum(rs, field)
  {
    hide Plus;
    if rs != [] {
      TotalSum(rs[..|rs| - 1], field);
    }
  }

  /** One field of the usage, over all responses that report it. */
  function Sum(rs: seq<Response>, field: Usage -> nat): nat {
    if rs == [] then 0
    else Sum(rs[..|rs| - 1], field) + (if rs[|rs| - 1].usage.Some? then field(rs[|rs| - 1].usage.value) else 0)
  }

  /** The log, call by call: the i-th response's k-th tool use is there under turn i + 1, after
      all uses of earlier responses. */
  lemma {:induction false} LogAt(rs: seq<Response>, i: nat, k: nat)
    requires i < |rs| && k < |ToolUses(rs[i].content)|
    ensures var use := ToolUses(rs[i].content)[k];
            var at := |Log(rs[..i])| + k;
            use.ToolUse? && at < |Log(rs)| && Log(rs)[at] == ToolCall(i + 1, use.name, use.input)
  {
    hide ToolUses;
    ToolUsesAreTools(rs[i].content);
    ToolUsesAreTools(rs[|rs| - 1].content);
    var init := rs[..|rs| - 1];
    if i < |rs| - 1 {
      LogAt(init, i, k);
      assert init[..i] == rs[..i] && init[i] == rs[i];
      assert Log(rs)[..|Log(init)|] == Log(init);
    } else {
      assert rs[..i] == init;
    }
  }

  /** The report the caller is left with. */
  function Reported(r: Outcome): Option<Report> {
    if r.Found? then Some(r.report) else r.filled
  }

  /** What a run reports, also when the forced reply is no findings array: every request counted as
      a turn, all the usage, exactly the tool calls that were run, and the last reply. */
  lemma RunReports(client: Backend, tools: Tools, repr: Json.Json -> string, seed: string, limit: nat, calls: seq<Call>, r: Outcome)
    requires IsRun(client, tools, repr, seed, limit, calls, r)
    ensures var rs := Responses(calls);
            && |rs| == |calls| > 0
            && (r.Found? ==> Parsed(repr, rs[|rs| - 1]) == Findings.Ok(r.findings))
            && (Reported(r).Some? <==> r.Found? || |calls| == limit + 1)
            && (Reported(r).Some? ==> Reports(rs, Reported(r).value))
  {
    hide Next, Nudges, Parsed, ToolUses, Log, Total, GoesOn, Reports, TextOf;
    var rs := Responses(calls);
    LogOfLast(rs);
    ReportIsTrue(rs);
    assert rs[|rs| - 1] == calls[|calls| - 1].response;
  }

  /** The report of these responses, of which the last ran no tool. */
  ghost predicate Reports(rs: seq<Response>, report: Report)
    requires rs != []
  {
    && report.turns == |rs|
    && report.stop == rs[|rs| - 1].stop && report.raw == TextOf(rs[|rs| - 1].content)
    && report.usage.input == Sum(rs, (u: Usage) => u.input)
    && report.usage.output == Sum(rs, (u: Usage) => u.output)
    && report.usage.cacheRead == Sum(rs, (u: Usage) => u.cacheRead)
    && report.usage.cacheCreation == Sum(rs, (u: Usage) => u.cacheCreation)
    && |report.toolCalls| == Used(rs[..|rs| - 1])
    && forall i, k :: 0 <= i < |rs| - 1 && 0 <= k < |ToolUses(rs[i].content)| ==> ToolCallAt(rs, i, k) in report.toolCalls
  }

  lemma ReportIsTrue(rs: seq<Response>)
    requires rs != []
    ensures Reports(rs, Report(Total(rs), rs[|rs| - 1].stop, TextOf(rs[|rs| - 1].content), |rs|, Log(rs[..|rs| - 1])))
  {
    hide ToolUses, Log, Total, Sum, Used, ToolCallAt, TextOf;
    TotalSum(rs, (u: Usage) => u.input);
    TotalSum(rs, (u: Usage) => u.output);
    TotalSum(rs, (u: Usage) => u.cacheRead);
    TotalSum(rs, (u: Usage) => u.cacheCreation);
    var init := rs[..|rs| - 1];
    LogCount(init);
    forall i, k | 0 <= i < |rs| - 1 && 0 <= k < |ToolUses(rs[i].content)| ensures ToolCallAt(rs, i, k) in Log(init) {
      LoggedAt(init, i, k);
      assert init[i] == rs[i];
      ToolCallLocal(init, rs, i, k);
    }
  }

  /** The record of the k-th tool use of the i-th response. */
  function ToolCallAt(rs: seq<Response>, i: nat, k: nat): ToolCall
    requires i < |rs| && k < |ToolUses(rs[i].content)|
  {
    ToolUsesAreTools(rs[i].content);
    ToolCall(i + 1, ToolUses(rs[i].content)[k].name, ToolUses(rs[i].content)[k].input)
  }

  lemma ToolCallLocal(a: seq<Response>, b: seq<Response>, i: nat, k: nat)
    requires i < |a| && i < |b| && a[i] == b[i] && k < |ToolUses(a[i].content)|
    ensures ToolCallAt(a, i, k) == ToolCallAt(b, i, k)
  {
    hide ToolUses;
  }

  lemma LoggedAt(rs: seq<Response>, i: nat, k: nat)
    requires i < |rs| && k < |ToolUses(rs[i].content)|
    ensures ToolCallAt(rs, i, k) in Log(rs)
  {
    hide ToolUses, Log;
    LogAt(rs, i, k);
  }

  /** How many tool uses the responses hold. */
  function Used(rs: seq<Response>): nat {
    if rs == [] then 0 else Used(rs[..|rs| - 1]) + |ToolUses(rs[|rs| - 1].content)|
  }

  lemma {:induction false} LogCount(rs: seq<Response>)
    ensures |Log(rs)| == Used(rs)
  {
    hide ToolUses;
    if rs != [] {
      LogCount(rs[..|rs| - 1]);
      ToolUsesAreTools(rs[|rs| - 1].content);
    }
  }

  /** A reply that ends the loop adds nothing to the log. */
  lemma LogOfLast(rs: seq<Response>)
    requires rs != []
    ensures ToolUses(rs[|rs| - 1].content) == [] ==> Log(rs) == Log(rs[..|rs| - 1])
  {
    hide ToolUses;
    ToolUsesAreTools(rs[|rs| - 1].content);
  }

  /** The run ends without findings exactly when the forced reply, or a reply after two nudges,
      is no findings array. */
  lemma NotFindingsIff(client: Backend, tools: Tools, repr: Json.Json -> string, seed: string, limit: nat, calls: seq<Call>, r: Outcome)
    requires IsRun(client, tools, repr, seed, limit, calls, r)
    ensures var rs := Responses(calls);
            && |rs| == |calls| > 0
            && (r.NotFindings? <==> Parsed(repr, rs[|rs| - 1]).ParseError?)
            && (r.NotFindings? ==> |calls| == limit + 1 || Nudges(rs[..|rs| - 1]) == 2)
  {
    hide Asked, GoesOn, Parsed, Nudges, ToolUses, Log, Total;
  }

  /** The replies among the first `n` that ran no tool. */
  ghost function Silent(rs: seq<Response>, n: nat): set<nat> {
    set i: nat | i < n && i < |rs| && ToolUses(rs[i].content) == []
  }

  lemma {:induction false} NudgesAre(rs: seq<Response>)
    ensures Nudges(rs) == |Silent(rs, |rs|)|
  {
    hide ToolUses;
    if rs != [] {
      var last := |rs| - 1;
      NudgesAre(rs[..last]);
      assert Silent(rs, |rs|) == Silent(rs[..last], last) + if ToolUses(rs[last].content) == [] then {last} else {};
    } else {
      assert Silent(rs, 0) == {};
    }
  }

  lemma SilentBefore(rs: seq<Response>, i: nat)
    requires i <= |rs|
    ensures Nudges(rs[..i]) == |Silent(rs, i)|
  {
    hide ToolUses, Nudges;
    NudgesAre(rs[..i]);
    assert Silent(rs[..i], i) == Silent(rs, i);
  }

  /** Where a run ends: at the forced request, or at the first reply that runs no tool and either is
      no parse error or comes after two nudges. */
  lemma RunEndsIff(client: Backend, tools: Tools, repr: Json.Json -> string, seed: string, limit: nat, calls: seq<Call>, r: Outcome, i: nat)
    requires IsRun(client, tools, repr, seed, limit, calls, r) && i < |calls|
    ensures var rs := Responses(calls);
            && |rs| == |calls|
            && (i == |calls| - 1 <==>
                  i == limit || (ToolUses(rs[i].content) == [] && (!Parsed(repr, rs[i]).ParseError? || |Silent(rs, i)| == 2)))
  {
    var rs := Responses(calls);
    assert |rs| == |calls| <= limit + 1;
    SilentBefore(rs, i);
    hide IsRun, Parsed, ToolUses, Silent, Nudges, Responses;
    if i == |calls| - 1 {
      RunStops(client, tools, repr, seed, limit, calls, r);
    } else {
      RunGoesOnAt(client, tools, repr, seed, limit, calls, r, i);
    }
  }

  lemma RunGoesOnAt(client: Backend, tools: Tools, repr: Json.Json -> string, seed: string, limit: nat, calls: seq<Call>, r: Outcome, i: nat)
    requires IsRun(client, tools, repr, seed, limit, calls, r) && i < |calls| - 1
    ensures var rs := Responses(calls);
            && |rs| == |calls| <= limit + 1
            && (ToolUses(rs[i].content) == [] ==> Parsed(repr, rs[i]).ParseError? && Nudges(rs[..i]) <= 1)
  {
    var rs := Responses(calls);
    RunGoesOn(client, tools, repr, seed, limit, calls, r, i);
    hide IsRun, Parsed, ToolUses, Nudges, Responses;
    assert rs[..i + 1][..i] == rs[..i] && rs[..i + 1][i] == rs[i];
    NudgesStep(rs[..i + 1]);
  }

  lemma RunStops(client: Backend, tools: Tools, repr: Json.Json -> string, seed: string, limit: nat, calls: seq<Call>, r: Outcome)
    requires IsRun(client, tools, repr, seed, limit, calls, r)
    ensures var rs := Responses(calls);
            var last := |calls| - 1;
            && |rs| == |calls| > 0
            && (last == limit || (ToolUses(rs[last].content) == [] && (Parsed(repr, rs[last]).ParseError? ==> Nudges(rs[..last]) == 2)))
  {
    hide Asked, Parsed, ToolUses, Ending, Nudges;
  }

  lemma NudgesStep(rs: seq<Response>)
    requires rs != []
    ensures Nudges(rs) == Nudges(rs[..|rs| - 1]) + if ToolUses(rs[|rs| - 1].content) == [] then 1 else 0
  {
    hide ToolUses;
  }

  // ---------------------------------------------------------------- the run is determined

  lemma SameCall(client: Backend, tools: Tools, seed: string, limit: nat, a: seq<Call>, b: seq<Call>, i: nat)
    requires Asked(client, tools, seed, limit, a) && Asked(client, tools, seed, limit, b)
    requires i < |a| && i < |b| && Responses(a)[..i] == Responses(b)[..i]
    ensures a[i] == b[i] && Responses(a)[..i + 1] == Responses(b)[..i + 1]
  {
    hide Next;
    assert a[i].request == b[i].request;
    assert Responses(a)[i] == Responses(b)[i];
    assert Responses(a)[..i + 1] == Responses(a)[..i] + [Responses(a)[i]];
    assert Responses(b)[..i + 1] == Responses(b)[..i] + [Responses(b)[i]];
  }

  lemma {:induction false} SameStart(client: Backend, tools: Tools, seed: string, limit: nat, a: seq<Call>, b: seq<Call>, i: nat)
    requires Asked(client, tools, seed, limit, a) && Asked(client, tools, seed, limit, b)
    requires i <= |a| && i <= |b|
    ensures a[..i] == b[..i] && Responses(a)[..i] == Responses(b)[..i]
  {
    hide Asked;
    if i > 0 {
      SameStart(client, tools, seed, limit, a, b, i - 1);
      SameCall(client, tools, seed, limit, a, b, i - 1);
      assert a[..i] == a[..i - 1] + [a[i - 1]] && b[..i] == b[..i - 1] + [b[i - 1]];
    }
  }

  lemma RunEnds(client: Backend, tools: Tools, repr: Json.Json -> string, seed: string, limit: nat, calls: seq<Call>, r: Outcome)
    requires IsRun(client, tools, repr, seed, limit, calls, r)
    ensures var rs := Responses(calls);
            && |rs| == |calls| > 0
            && (|calls| == limit + 1 || !GoesOn(repr, rs[|rs| - 1]) || Nudges(rs) == 3)
  {
    hide Asked, Parsed, ToolUses, Ending;
  }

  lemma RunGoesOn(client: Backend, tools: Tools, repr: Json.Json -> string, seed: string, limit: nat, calls: seq<Call>, r: Outcome, n: nat)
    requires IsRun(client, tools, repr, seed, limit, calls, r) && n < |calls| - 1
    ensures var rs := Responses(calls);
            |rs| == |calls| <= limit + 1 && GoesOn(repr, rs[n]) && Nudges(rs[..n + 1]) <= 2
  {
    hide Next, GoesOn, Nudges, Ending, Ends;
    var rs := Responses(calls);
    NudgesGrow(rs[..|rs| - 1], n + 1);
    assert rs[..|rs| - 1][..n + 1] == rs[..n + 1];
  }

  /** No run stops where another goes on. */
  lemma NotLonger(client: Backend, tools: Tools, repr: Json.Json -> string, seed: string, limit: nat,
                  a: seq<Call>, ra: Outcome, b: seq<Call>, rb: Outcome)
    requires IsRun(client, tools, repr, seed, limit, a, ra) && IsRun(client, tools, repr, seed, limit, b, rb)
    ensures |a| >= |b|
  {
    if |a| < |b| {
      assert Asked(client, tools, seed, limit, a) && Asked(client, tools, seed, limit, b);
      hide IsRun, Asked, GoesOn, Nudges, Responses;
      SameStart(client, tools, seed, limit, a, b, |a|);
      RunEnds(client, tools, repr, seed, limit, a, ra);
      LastOfPrefix(Responses(a), Responses(b), |a|);
      RunGoesOn(client, tools, repr, seed, limit, b, rb, |a| - 1);
    }
  }

  lemma LastOfPrefix(rs: seq<Response>, longer: seq<Response>, n: nat)
    requires |rs| == n > 0 && (n <= |longer| ==> rs[..n] == longer[..n])
    ensures n <= |longer| ==> rs == longer[..n] && rs[n - 1] == longer[n - 1]
  {
    if n <= |longer| {
      assert rs[..n] == rs && longer[..n][n - 1] == longer[n - 1];
    }
  }

  /** The specification leaves nothing open: for one backend there is one run. */
  lemma RunIsDetermined(client: Backend, tools: Tools, repr: Json.Json -> string, seed: string, limit: nat,
                        a: seq<Call>, ra: Outcome, b: seq<Call>, rb: Outcome)
    requires IsRun(client, tools, repr, seed, limit, a, ra) && IsRun(client, tools, repr, seed, limit, b, rb)
    ensures a == b && ra == rb
  {
    NotLonger(client, tools, repr, seed, limit, a, ra, b, rb);
    NotLonger(client, tools, repr, seed, limit, b, rb, a, ra);
    hide Asked, Parsed, ToolUses, Ending, GoesOn, Nudges, Ends;
    SameStart(client, tools, seed, limit, a, b, |a|);
    assert a[..|a|] == a && b[..|b|] == b;
  }
}
