/**
 * The tool-calling conversation loop of src/utils/textgen.ts (chatWithFuncs)
 * and the verdict rule of its content-safety scan (scanMessage).
 *
 * The language model is a scripted oracle: a ModelEndpoint holds the replies
 * it will give, in order, and answers each chat request with the next one.
 * When the script is exhausted the call fails, which stands for an endpoint
 * error; like the source, the loop does not catch it and the transcript keeps
 * everything appended before the failure. Tools are total functions from the
 * argument values to the returned text, looked up by exact name.
 */
module TextGen {
  import opened Text

  datatype Role = System | User | Assistant | Tool

  /** A tool call requested by the model: the tool's name and the values of
      its arguments, in the order the model gave them. */
  datatype ToolCall = ToolCall(name: string, args: seq<string>)

  /** One transcript entry. A reply whose tool_calls field is absent and one
      whose list is empty are both represented by an empty toolCalls. */
  datatype Message = Message(role: Role, content: string, toolCalls: seq<ToolCall>)

  type ToolFunction = seq<string> -> string

  /** The name -> function registry the loop dispatches through. */
  type Registry = map<string, ToolFunction>

  /** What chatWithFuncs resolves to. */
  datatype ChatResult = ChatResult(fullResponse: seq<Message>, chatResponse: Message)

  // ---------------------------------------------------------------------------
  // Specification of one round of tool calls

  /** The line a call to a registered tool contributes: its name and the
      text the tool returned, quoted. */
  function ExecutedLine(name: string, returned: string): string {
    "Function \"" + name + "\" executed and returned: \"" + returned + "\"\n"
  }

  /** The line a call to an unknown tool contributes. */
  function NotFoundLine(name: string): string {
    "Function \"" + name + "\" not found.\n"
  }

  /** The line one tool call contributes to the round's tool message. */
  function ToolLine(call: ToolCall, tools: Registry): string {
    if call.name in tools then ExecutedLine(call.name, tools[call.name](call.args))
    else NotFoundLine(call.name)
  }

  /** The concatenation of f over xs, in order. */
  function ConcatMap<T>(f: T -> string, xs: seq<T>): string {
    if xs == [] then "" else ConcatMap(f, xs[..|xs| - 1]) + f(xs[|xs| - 1])
  }

  /** The text of the tool message for a round: one line per call, in order. */
  function ToolResponse(calls: seq<ToolCall>, tools: Registry): string {
    ConcatMap(c => ToolLine(c, tools), calls)
  }

  lemma {:induction false} ConcatMapAppend<T>(f: T -> string, a: seq<T>, b: seq<T>)
    ensures ConcatMap(f, a + b) == ConcatMap(f, a) + ConcatMap(f, b)
    decreases |b|
  {
    if b != [] {
      var n := |b| - 1;
      assert (a + b)[..|a + b| - 1] == a + b[..n];
      assert (a + b)[|a + b| - 1] == b[n];
      ConcatMapAppend(f, a, b[..n]);
    } else {
      assert a + b == a;
    }
  }

  /** The calls of a round that actually invoke a tool, in order. */
  function Executed(calls: seq<ToolCall>, tools: Registry): seq<ToolCall> {
    if calls == [] then []
    else
      var last := calls[|calls| - 1];
      Executed(calls[..|calls| - 1], tools) + (if last.name in tools then [last] else [])
  }

  function ToolMessage(reply: Message, tools: Registry): Message {
    Message(Tool, ToolResponse(reply.toolCalls, tools), [])
  }

  /** The tool message of a round concatenates the lines of its calls in
      order, so splitting a round's calls splits its text the same way. */
  lemma ToolResponseAppend(a: seq<ToolCall>, b: seq<ToolCall>, tools: Registry)
    ensures ToolResponse(a + b, tools) == ToolResponse(a, tools) + ToolResponse(b, tools)
  {
    ConcatMapAppend(c => ToolLine(c, tools), a, b);
  }

  function CountChar(s: string, c: char): nat {
    if s == [] then 0 else CountChar(s[..|s| - 1], c) + (if s[|s| - 1] == c then 1 else 0)
  }

  lemma {:induction false} CountCharAppend(s: string, t: string, c: char)
    ensures CountChar(s + t, c) == CountChar(s, c) + CountChar(t, c)
    decreases |t|
  {
    if t == [] {
      assert s + t == s;
    } else {
      assert (s + t)[..|s + t| - 1] == s + t[..|t| - 1];
      CountCharAppend(s, t[..|t| - 1], c);
    }
  }

  lemma CountCharAbsent(s: string, c: char)
    requires c !in s
    ensures CountChar(s, c) == 0
  {
    if s != [] {
      assert s[|s| - 1] in s;
      CountCharAbsent(s[..|s| - 1], c);
    }
  }

  /** A string whose only occurrence of c is its last character. */
  lemma CountCharOnlyLast(s: string, c: char)
    requires s != [] && s[|s| - 1] == c && c !in s[..|s| - 1]
    ensures CountChar(s, c) == 1
  {
    CountCharAbsent(s[..|s| - 1], c);
  }

  lemma ExecutedLineOneBreak(name: string, returned: string)
    requires '\n' !in name && '\n' !in returned
    ensures CountChar(ExecutedLine(name, returned), '\n') == 1
  {
    var s := ExecutedLine(name, returned);
    assert s[..|s| - 1] == "Function \"" + name + "\" executed and returned: \"" + returned + "\"";
    CountCharOnlyLast(s, '\n');
  }

  lemma NotFoundLineOneBreak(name: string)
    requires '\n' !in name
    ensures CountChar(NotFoundLine(name), '\n') == 1
  {
    var s := NotFoundLine(name);
    assert s[|s| - 1] == '\n';
    assert s[..|s| - 1] == "Function \"" + name + "\" not found.";
    CountCharOnlyLast(s, '\n');
  }

  /** Names and results without line breaks give one line per tool call. */
  lemma {:induction false} ToolResponseOneLinePerCall(calls: seq<ToolCall>, tools: Registry)
    requires forall k :: 0 <= k < |calls| ==> '\n' !in calls[k].name
    requires forall k :: 0 <= k < |calls| && calls[k].name in tools ==>
      '\n' !in tools[calls[k].name](calls[k].args)
    ensures CountChar(ToolResponse(calls, tools), '\n') == |calls|
  {
    if calls != [] {
      var init, last := calls[..|calls| - 1], calls[|calls| - 1];
      ToolResponseOneLinePerCall(init, tools);
      assert ToolResponse(calls, tools) == ToolResponse(init, tools) + ToolLine(last, tools);
      CountCharAppend(ToolResponse(init, tools), ToolLine(last, tools), '\n');
      if last.name in tools {
        ExecutedLineOneBreak(last.name, tools[last.name](last.args));
      } else {
        NotFoundLineOneBreak(last.name);
      }
    }
  }

  /** A tool runs only for a registered name, in the order the model asked. */
  lemma {:induction false} ExecutedAreRegistered(calls: seq<ToolCall>, tools: Registry)
    ensures |Executed(calls, tools)| <= |calls|
    ensures forall k :: 0 <= k < |Executed(calls, tools)| ==> Executed(calls, tools)[k].name in tools
  {
    if calls != [] {
      ExecutedAreRegistered(calls[..|calls| - 1], tools);
    }
  }

  /** Every call to a registered name runs. */
  lemma {:induction false} ExecutedAllRegistered(calls: seq<ToolCall>, tools: Registry)
    requires forall k :: 0 <= k < |calls| ==> calls[k].name in tools
    ensures Executed(calls, tools) == calls
  {
    if calls != [] {
      var init := calls[..|calls| - 1];
      ExecutedAllRegistered(init, tools);
      assert init + [calls[|calls| - 1]] == calls;
    }
  }

  /** No call to an unknown name runs. */
  lemma {:induction false} ExecutedNoneRegistered(calls: seq<ToolCall>, tools: Registry)
    requires forall k :: 0 <= k < |calls| ==> calls[k].name !in tools
    ensures Executed(calls, tools) == []
  {
    if calls != [] {
      ExecutedNoneRegistered(calls[..|calls| - 1], tools);
    }
  }

  // ---------------------------------------------------------------------------
  // Specification of the whole exchange

  /** The messages of completed tool rounds: each reply followed by the tool
      message answering it. */
  function Rounds(replies: seq<Message>, tools: Registry): seq<Message> {
    if replies == [] then []
    else
      var last := replies[|replies| - 1];
      Rounds(replies[..|replies| - 1], tools) + [last, ToolMessage(last, tools)]
  }

  /** The tool calls executed over completed tool rounds, in order. */
  function ExecutedRounds(replies: seq<Message>, tools: Registry): seq<ToolCall> {
    if replies == [] then []
    else
      ExecutedRounds(replies[..|replies| - 1], tools) + Executed(replies[|replies| - 1].toolCalls, tools)
  }

  /** The first k replies all ask for tools. */
  predicate CallTools(replies: seq<Message>, k: nat)
    requires k <= |replies|
  {
    forall i :: 0 <= i < k ==> replies[i].toolCalls != []
  }

  /** The number of tool rounds an exchange with these replies goes through:
      the position of the first reply without tool calls, or the number of
      replies when every one asks for tools. */
  function FirstToolFree(replies: seq<Message>): (n: nat)
    ensures n <= |replies| && CallTools(replies, n)
    ensures n < |replies| ==> replies[n].toolCalls == []
  {
    if replies == [] || replies[0].toolCalls == [] then 0
    else 1 + FirstToolFree(replies[1..])
  }

  /** The two properties of FirstToolFree determine it. */
  lemma FirstToolFreeUnique(replies: seq<Message>, k: nat)
    requires k <= |replies| && CallTools(replies, k)
    requires k < |replies| ==> replies[k].toolCalls == []
    ensures FirstToolFree(replies) == k
  {
  }

  lemma {:induction false} RoundsLength(replies: seq<Message>, tools: Registry)
    ensures |Rounds(replies, tools)| == 2 * |replies|
  {
    if replies != [] {
      RoundsLength(replies[..|replies| - 1], tools);
    }
  }

  /** Round i of an exchange puts the model's i-th reply at position 2i and
      the tool message answering it at position 2i+1. */
  lemma {:induction false} RoundsAt(replies: seq<Message>, tools: Registry, i: nat)
    requires i < |replies|
    ensures |Rounds(replies, tools)| == 2 * |replies|
    ensures Rounds(replies, tools)[2 * i] == replies[i]
    ensures Rounds(replies, tools)[2 * i + 1] == ToolMessage(replies[i], tools)
  {
    RoundsLength(replies, tools);
    var init := replies[..|replies| - 1];
    RoundsLength(init, tools);
    if i < |replies| - 1 {
      RoundsAt(init, tools, i);
    }
  }

  /** The transcripts the model is sent during an exchange that starts from
      initial: the k-th request carries the transcript after k tool rounds. */
  function Sent(initial: seq<Message>, replies: seq<Message>, tools: Registry, n: nat): seq<seq<Message>>
    requires n <= |replies| + 1
  {
    seq(n, k requires 0 <= k < n => initial + Rounds(replies[..k], tools))
  }

  /** Each request carries the transcript of the one before it plus the
      reply to that request and the tool message answering it. */
  lemma SentGrowsByOneRound(initial: seq<Message>, replies: seq<Message>, tools: Registry, n: nat, k: nat)
    requires n <= |replies| + 1 && k + 1 < n
    ensures Sent(initial, replies, tools, n)[k + 1] ==
      Sent(initial, replies, tools, n)[k] + [replies[k], ToolMessage(replies[k], tools)]
  {
    assert replies[..k + 1][..k] == replies[..k];
  }

  // ---------------------------------------------------------------------------
  // The model endpoint and the request object

  /** The chat request. Its messages list is the one chatWithFuncs appends
      to: full_response aliases request.messages, so the caller sees the
      transcript grow. */
  class ChatRequest {
    var model: string
    var messages: seq<Message>

    constructor (model: string, messages: seq<Message>)
      ensures this.model == model && this.messages == messages
    {
      this.model := model;
      this.messages := messages;
    }
  }

  /** A scripted language model: it answers the i-th chat call with script[i]
      and records the transcript each call carried. */
  class ModelEndpoint {
    var script: seq<Message>
    var served: nat
    var received: seq<seq<Message>>

    ghost predicate Valid()
      reads this
    {
      served <= |script|
    }

    constructor (script: seq<Message>)
      ensures Valid() && this.script == script && served == 0 && received == []
    {
      this.script := script;
      served := 0;
      received := [];
    }

    /** The replies not given yet. */
    function Remaining(): seq<Message>
      reads this
      requires Valid()
    {
      script[served..]
    }

    /** One non-streaming chat call; None when the endpoint fails. */
    method Chat(messages: seq<Message>) returns (reply: Option<Message>)
      requires Valid()
      modifies this
      ensures Valid() && script == old(script)
      ensures received == old(received) + [messages]
      ensures old(served) < |script| ==> reply == Some(script[old(served)]) && served == old(served) + 1
      ensures old(served) == |script| ==> reply == None && served == old(served)
    {
      received := received + [messages];
      if served < |script| {
        reply := Some(script[served]);
        served := served + 1;
      } else {
        reply := None;
      }
    }
  }

  // ---------------------------------------------------------------------------
  // chatWithFuncs

  /** One round of tool calls: every call whose name is registered runs its
      tool on its arguments and contributes the returned text; any other call
      contributes a not-found line. Returns the round's tool message text and
      the calls that ran. */
  method RunToolCalls(calls: seq<ToolCall>, functions: Registry)
    returns (toolCallResponse: string, executed: seq<ToolCall>)
    ensures toolCallResponse == ToolResponse(calls, functions)
    ensures executed == Executed(calls, functions)
  {
    toolCallResponse, executed := "", [];
    for i := 0 to |calls|
      invariant toolCallResponse == ToolResponse(calls[..i], functions)
      invariant executed == Executed(calls[..i], functions)
    {
      var element := calls[i];
      assert calls[..i + 1][..i] == calls[..i];
      if element.name in functions {
        var func := functions[element.name];
        var returned := func(element.args);
        toolCallResponse := toolCallResponse + ExecutedLine(element.name, returned);
        executed := executed + [element];
      } else {
        toolCallResponse := toolCallResponse + NotFoundLine(element.name);
      }
    }
    assert calls[..|calls|] == calls;
  }

  /** One tool round: runs the tools the latest reply asked for, appends
      their tool message to the transcript and sends the transcript to the
      model again; the new reply, when there is one, is appended too. */
  method ToolRound(endpoint: ModelEndpoint, request: ChatRequest, functions: Registry, latest: Message)
    returns (reply: Option<Message>, ran: seq<ToolCall>)
    requires endpoint.Valid()
    modifies endpoint, request
    ensures endpoint.Valid() && endpoint.script == old(endpoint.script)
    ensures request.model == old(request.model)
    ensures ran == Executed(latest.toolCalls, functions)
    ensures var sent := old(request.messages) + [ToolMessage(latest, functions)];
      && endpoint.received == old(endpoint.received) + [sent]
      && (old(endpoint.served) < |endpoint.script| ==>
            && reply == Some(endpoint.script[old(endpoint.served)])
            && endpoint.served == old(endpoint.served) + 1
            && request.messages == sent + [reply.value])
      && (old(endpoint.served) == |endpoint.script| ==>
            reply == None && endpoint.served == old(endpoint.served) && request.messages == sent)
  {
    var toolCallResponse;
    toolCallResponse, ran := RunToolCalls(latest.toolCalls, functions);
    request.messages := request.messages + [Message(Tool, toolCallResponse, [])];
    reply := endpoint.Chat(request.messages);
    if reply.Some? {
      request.messages := request.messages + [reply.value];
    }
  }

  /** chatWithFuncs: asks the model, and while its latest reply asks for
      tools, answers with a tool message and asks again. With n the number
      of tool rounds (the position of the first tool-free reply): the
      request's transcript grows by each of the first n replies and its tool
      message, then by the tool-free reply; request i carries the transcript
      after i rounds; the executed calls are those of the n rounds, in
      order. The result is None when the endpoint failed, which happens
      exactly when every remaining reply asks for tools; the transcript then
      keeps what was appended before the failure. */
  method ChatWithFuncs(endpoint: ModelEndpoint, request: ChatRequest, functions: Registry)
    returns (result: Option<ChatResult>, executed: seq<ToolCall>)
    requires endpoint.Valid()
    modifies endpoint, request
    ensures endpoint.Valid() && endpoint.script == old(endpoint.script)
    ensures request.model == old(request.model)
    ensures var replies := old(endpoint.Remaining());
      var n := FirstToolFree(replies);
      var answer := if n < |replies| then Some(replies[n]) else None;
      && AfterRounds(replies, functions, old(request.messages), n, answer, request.messages, executed,
                     old(endpoint.received), endpoint.received)
      && endpoint.served == old(endpoint.served) + n + (if answer.Some? then 1 else 0)
      && result == if answer.Some? then Some(ChatResult(request.messages, answer.value)) else None
  {
    ghost var replies := endpoint.Remaining();
    ghost var start := endpoint.served;
    ghost var initial := request.messages;
    ghost var received0 := endpoint.received;
    executed := [];

    var reply := endpoint.Chat(request.messages);
    if reply.Some? {
      request.messages := request.messages + [reply.value];
    }
    ghost var k := 0;
    NoRoundsYet(replies, functions, initial, reply, request.messages, received0, endpoint.received);
    while reply.Some? && reply.value.toolCalls != []
      invariant endpoint.Valid() && endpoint.script == old(endpoint.script) && request.model == old(request.model)
      invariant replies == endpoint.script[start..]
      invariant endpoint.served == start + k + (if reply.Some? then 1 else 0)
      invariant AfterRounds(replies, functions, initial, k, reply, request.messages, executed, received0, endpoint.received)
      decreases |endpoint.script| - endpoint.served, if reply.Some? then 1 else 0
    {
      var latest := reply.value;
      ghost var messages, received := request.messages, endpoint.received;
      var ran;
      reply, ran := ToolRound(endpoint, request, functions, latest);
      RoundStep(replies, functions, initial, k, latest, messages, executed, received0, received, reply);
      executed := executed + ran;
      k := k + 1;
    }
    FirstToolFreeUnique(replies, k);
    if reply.Some? {
      result := Some(ChatResult(request.messages, reply.value));
    } else {
      result := None;
    }
  }

  /** The state of chatWithFuncs after k tool rounds: latest is the reply
      to the last request (None when the endpoint failed), messages the
      transcript, executed the tool calls run so far and received what the
      endpoint has been sent (earlier, then this exchange's requests). */
  ghost predicate AfterRounds(replies: seq<Message>, tools: Registry, initial: seq<Message>, k: nat,
                              latest: Option<Message>, messages: seq<Message>, executed: seq<ToolCall>,
                              earlier: seq<seq<Message>>, received: seq<seq<Message>>)
  {
    && k <= |replies| && CallTools(replies, k)
    && (latest.Some? ==> k < |replies| && latest.value == replies[k])
    && (latest.None? ==> k == |replies|)
    && messages == initial + Rounds(replies[..k], tools) + (if latest.Some? then [latest.value] else [])
    && executed == ExecutedRounds(replies[..k], tools)
    && received == earlier + Sent(initial, replies, tools, k + 1)
  }

  /** The first transcript sent is the initial one. */
  lemma FirstSent(replies: seq<Message>, tools: Registry, initial: seq<Message>, k: nat,
                  latest: Option<Message>, messages: seq<Message>, executed: seq<ToolCall>,
                  earlier: seq<seq<Message>>, received: seq<seq<Message>>)
    requires AfterRounds(replies, tools, initial, k, latest, messages, executed, earlier, received)
    ensures |received| > |earlier| && received[|earlier|] == initial
  {
    assert Sent(initial, replies, tools, k + 1)[0] == initial;
  }

  /** The state after the first request, before any tool round. */
  lemma NoRoundsYet(replies: seq<Message>, tools: Registry, initial: seq<Message>, first: Option<Message>,
                    messages: seq<Message>, earlier: seq<seq<Message>>, received: seq<seq<Message>>)
    requires first.Some? <==> replies != []
    requires first.Some? ==> first.value == replies[0]
    requires messages == initial + (if first.Some? then [first.value] else [])
    requires received == earlier + [initial]
    ensures AfterRounds(replies, tools, initial, 0, first, messages, [], earlier, received)
  {
    assert replies[..0] == [];
    assert Sent(initial, replies, tools, 1)[0] == initial;
  }

  /** A tool round taken from a state after k rounds leads to the state
      after k + 1 rounds. */
  lemma RoundStep(replies: seq<Message>, tools: Registry, initial: seq<Message>, k: nat,
                  latest: Message, messages: seq<Message>, executed: seq<ToolCall>,
                  earlier: seq<seq<Message>>, received: seq<seq<Message>>, next: Option<Message>)
    requires AfterRounds(replies, tools, initial, k, Some(latest), messages, executed, earlier, received)
    requires latest.toolCalls != []
    requires next.Some? <==> k + 1 < |replies|
    requires next.Some? ==> next.value == replies[k + 1]
    ensures var sent := messages + [ToolMessage(latest, tools)];
      AfterRounds(replies, tools, initial, k + 1, next, sent + (if next.Some? then [next.value] else []),
                  executed + Executed(latest.toolCalls, tools), earlier, received + [sent])
  {
    assert replies[..k + 1][..k] == replies[..k];
    SentExtend(initial, replies, tools, k + 1);
    var sent := messages + [ToolMessage(latest, tools)];
    assert initial + Rounds(replies[..k + 1], tools) == sent;
  }

  /** The transcript after k rounds: the initial messages untouched, then
      for each round the model's reply at an even offset and its tool
      message right after, then the latest reply, which is last. */
  lemma TranscriptShape(replies: seq<Message>, tools: Registry, initial: seq<Message>, k: nat,
                        latest: Option<Message>, messages: seq<Message>, executed: seq<ToolCall>,
                        earlier: seq<seq<Message>>, received: seq<seq<Message>>)
    requires AfterRounds(replies, tools, initial, k, latest, messages, executed, earlier, received)
    ensures |messages| == |initial| + 2 * k + (if latest.Some? then 1 else 0)
    ensures messages[..|initial|] == initial
    ensures latest.Some? ==> messages[|messages| - 1] == latest.value
    ensures forall i :: 0 <= i < k ==>
      messages[|initial| + 2 * i] == replies[i] && messages[|initial| + 2 * i + 1] == ToolMessage(replies[i], tools)
  {
    RoundsLength(replies[..k], tools);
    forall i | 0 <= i < k
      ensures messages[|initial| + 2 * i] == replies[i] && messages[|initial| + 2 * i + 1] == ToolMessage(replies[i], tools)
    {
      RoundsAt(replies[..k], tools, i);
    }
  }

  lemma SentExtend(initial: seq<Message>, replies: seq<Message>, tools: Registry, n: nat)
    requires n <= |replies|
    ensures Sent(initial, replies, tools, n + 1) ==
      Sent(initial, replies, tools, n) + [initial + Rounds(replies[..n], tools)]
  {
  }

  // ---------------------------------------------------------------------------
  // scanMessage

  /** The rule scanMessage applies to the safety model's reply, for a
      marker word and an exempt category: flagged when the trimmed reply
      mentions the marker and what remains after removing its first
      occurrence and trimming again is not the exempt category. */
  function Flagged(response: string, marker: string, exempt: string): bool {
    var r := Trim(response);
    Includes(r, marker) && Trim(RemoveFirst(r, marker)) != exempt
  }

  /** scanMessage's verdict: marker "unsafe", exempt category S14. */
  function Verdict(response: string): bool {
    Flagged(response, "unsafe", "S14")
  }

  lemma OccursShift(s: string, t: string, pat: string, i: nat, offset: nat)
    requires offset + |t| <= |s| && t == s[offset..offset + |t|] && OccursAt(t, pat, i)
    ensures OccursAt(s, pat, offset + i)
  {
    forall j | 0 <= j < |pat|
      ensures s[offset + i + j] == pat[j]
    {
      assert t[i + j] == pat[j];
    }
    assert s[offset + i..offset + i + |pat|] == pat;
  }

  /** What the string holds after its leading white space it holds. */
  lemma IncludesTrimStart(s: string, pat: string)
    requires Includes(TrimStart(s), pat)
    ensures Includes(s, pat)
  {
    var t := TrimStart(s);
    var offset := |s| - |t|;
    assert t == s[offset..offset + |t|];
    OccursShift(s, t, pat, IndexOf(t, pat).value, offset);
  }

  /** What the string holds before its trailing white space it holds. */
  lemma IncludesTrimEnd(s: string, pat: string)
    requires Includes(TrimEnd(s), pat)
    ensures Includes(s, pat)
  {
    var r := TrimEnd(s);
    assert r == s[0..0 + |r|];
    OccursShift(s, r, pat, IndexOf(r, pat).value, 0);
  }

  lemma FlaggedNeedsMarker(response: string, marker: string, exempt: string)
    requires Flagged(response, marker, exempt)
    ensures Includes(response, marker)
  {
    IncludesTrimEnd(TrimStart(response), marker);
    IncludesTrimStart(response, marker);
  }

  /** A reply is flagged only if it mentions "unsafe" somewhere. */
  lemma VerdictNeedsUnsafe(response: string)
    requires Verdict(response)
    ensures Includes(response, "unsafe")
  {
    FlaggedNeedsMarker(response, "unsafe", "S14");
  }

  /** Removing the first occurrence of a word that starts the string
      leaves what follows it. */
  lemma RemoveLeadingWord(word: string, rest: string)
    ensures RemoveFirst(word + rest, word) == rest
  {
    var s := word + rest;
    assert OccursAt(s, word, 0);
    assert IndexOf(s, word) == Some(0);
    assert s[|word|..] == rest;
  }

  lemma TrimAfterBreak(code: string)
    requires code == [] || (!IsSpace(code[0]) && !IsSpace(code[|code| - 1]))
    ensures Trim("\n" + code) == code
  {
    var s := "\n" + code;
    assert s[1..] == code;
    assert TrimStart(s) == TrimStart(code);
    if code != [] {
      TrimOfTrimmedEnds(code);
    }
  }

  lemma TrimWordAndCode(marker: string, code: string)
    requires marker != [] && !IsSpace(marker[0]) && !IsSpace(marker[|marker| - 1])
    requires code == [] || (!IsSpace(code[0]) && !IsSpace(code[|code| - 1]))
    ensures Trim(marker + "\n" + code) == marker + "\n" + code || (code == [] && Trim(marker + "\n" + code) == marker)
  {
    var s := marker + "\n" + code;
    if code == [] {
      assert s[..|s| - 1] == marker;
      assert TrimStart(s) == s;
      TrimOfTrimmedEnds(marker);
    } else {
      TrimOfTrimmedEnds(s);
    }
  }

  lemma FlaggedOnCategory(marker: string, exempt: string, code: string)
    requires marker != [] && !IsSpace(marker[0]) && !IsSpace(marker[|marker| - 1])
    requires code == [] || (!IsSpace(code[0]) && !IsSpace(code[|code| - 1]))
    ensures Flagged(marker + "\n" + code, marker, exempt) <==> code != exempt
  {
    var s := marker + "\n" + code;
    TrimWordAndCode(marker, code);
    if code == [] {
      RemoveLeadingWord(marker, []);
      assert marker + [] == marker;
      assert OccursAt(marker, marker, 0);
    } else {
      assert s == marker + ("\n" + code);
      RemoveLeadingWord(marker, "\n" + code);
      TrimAfterBreak(code);
      assert OccursAt(s, marker, 0);
    }
  }

  /** On a reply of the safety model's form, "unsafe" on one line and a
      category code on the next, the scan flags every category but S14. */
  lemma VerdictOnCategory(code: string)
    requires code == [] || (!IsSpace(code[0]) && !IsSpace(code[|code| - 1]))
    ensures Verdict("unsafe" + "\n" + code) <==> code != "S14"
  {
    FlaggedOnCategory("unsafe", "S14", code);
  }

  /** A reply of "safe" is not flagged. */
  lemma SafeNotFlagged()
    ensures !Verdict("safe")
  {
    TrimOfTrimmedEnds("safe");
  }

  /** The exempt category S14 is not flagged; any other, such as S1, is. */
  lemma VerdictExamples()
    ensures !Verdict("unsafe" + "\n" + "S14")
    ensures Verdict("unsafe" + "\n" + "S1")
  {
    VerdictOnCategory("S14");
    VerdictOnCategory("S1");
  }

  /** scanMessage: sends the trimmed input as the only, user, message to the
      safety model, with no tools, and applies Verdict to the first reply
      without tool calls. None when the endpoint failed. */
  method ScanMessage(endpoint: ModelEndpoint, input: string) returns (flagged: Option<bool>)
    requires endpoint.Valid()
    modifies endpoint
    ensures endpoint.Valid() && endpoint.script == old(endpoint.script)
    ensures var replies := old(endpoint.Remaining());
      var n := FirstToolFree(replies);
      flagged == if n < |replies| then Some(Verdict(replies[n].content)) else None
    ensures |endpoint.received| > |old(endpoint.received)|
    ensures endpoint.received[|old(endpoint.received)|] == [Message(User, Trim(input), [])]
  {
    ghost var replies, earlier := endpoint.Remaining(), endpoint.received;
    var request := new ChatRequest("llama-guard3:8b", [Message(User, Trim(input), [])]);
    var result, executed := ChatWithFuncs(endpoint, request, map[]);
    ghost var n := FirstToolFree(replies);
    FirstSent(replies, map[], [Message(User, Trim(input), [])], n, if n < |replies| then Some(replies[n]) else None,
              request.messages, executed, earlier, endpoint.received);
    if result.Some? {
      flagged := Some(Verdict(result.value.chatResponse.content));
    } else {
      flagged := None;
    }
  }
}
