/**
 The Qwen ChatML renderer. A prompt is built by pushing turns onto a string; text from the request is
 refused when it holds a control token, which is what makes a prompt readable in one way only.
 */
module ChatMl {
  import opened Common
  import opened Json
  import opened JsonText

  datatype Role = System | User | Assistant | Tool

  datatype ToolCall = ToolCall(id: string, name: string, arguments: Json)

  datatype Message = Message(role: Role, content: Option<string>, name: Option<string>, toolCallId: Option<string>,
                             toolCalls: seq<ToolCall>)

  datatype QwenOptions = QwenOptions(enableThinking: bool, addGenerationPrompt: bool)

  datatype Rendered = Ok(prompt: string) | ReservedControlToken(token: string)

  // ---------------------------------------------------------------- control tokens

  const IM_START: string := "<|im_start|>"
  const IM_END: string := "<|im_end|>"
  const CALL: string := "<tool_call>"
  const END_CALL: string := "</tool_call>"
  const RESERVED: seq<string> := [IM_START, IM_END, CALL, END_CALL, "<think>", "</think>"]

  predicate OccursAt(text: string, token: string, i: nat) {
    i + |token| <= |text| && text[i..i + |token|] == token
  }

  /** No token of `tokens` starts in `text` before position `end`. */
  ghost predicate NoneBefore(text: string, tokens: seq<string>, end: nat) {
    forall t, i: nat :: t in tokens && i < end ==> !OccursAt(text, t, i)
  }

  ghost predicate Clean(text: string) {
    forall t, i: nat :: t in RESERVED ==> !OccursAt(text, t, i)
  }

  /** The first occurrence of a token at or after `from`. */
  function Find(text: string, token: string, from: nat := 0): (r: Option<nat>)
    requires from <= |text| + 1
    ensures r.None? ==> forall i: nat :: from <= i ==> !OccursAt(text, token, i)
    ensures r.Some? ==> from <= r.value && OccursAt(text, token, r.value)
    ensures r.Some? ==> forall i: nat :: from <= i < r.value ==> !OccursAt(text, token, i)
    decreases |text| + 1 - from
  {
    if from > |text| then None
    else if OccursAt(text, token, from) then Some(from)
    else Find(text, token, from + 1)
  }

  /** The token with the earliest occurrence, and where it is. */
  function Earliest(text: string, tokens: seq<string>): (r: Option<(nat, string)>)
    ensures r.None? ==> forall t, i: nat :: t in tokens ==> !OccursAt(text, t, i)
    ensures r.Some? ==>
      r.value.1 in tokens && OccursAt(text, r.value.1, r.value.0) && NoneBefore(text, tokens, r.value.0)
  {
    if tokens == [] then None else
      var last := tokens[|tokens| - 1];
      var before := Earliest(text, tokens[..|tokens| - 1]);
      var here := Find(text, last);
      assert forall t :: t in tokens ==> t in tokens[..|tokens| - 1] || t == last;
      if here.Some? && (before.None? || here.value < before.value.0) then Some((here.value, last)) else before
  }

  /** The reserved token that occurs first in a text, if any. */
  function Reserved(text: string): (r: Option<string>)
    ensures r.None? <==> Clean(text)
    ensures r.Some? ==>
      r.value in RESERVED && exists i: nat :: OccursAt(text, r.value, i) && NoneBefore(text, RESERVED, i)
  {
    match Earliest(text, RESERVED)
    case None => None
    case Some(found) => Some(found.1)
  }

  // ---------------------------------------------------------------- what a prompt shows of a message

  datatype Call = Call(name: string, arguments: Json)

  datatype Turn = Turn(role: Role, content: string, calls: seq<Call>)

  function CallOf(call: ToolCall): Call {
    Call(call.name, call.arguments)
  }

  function CallsOf(calls: seq<ToolCall>): (r: seq<Call>)
    ensures |r| == |calls| && forall i :: 0 <= i < |calls| ==> r[i] == CallOf(calls[i])
  {
    seq(|calls|, i requires 0 <= i < |calls| => CallOf(calls[i]))
  }

  /** Missing content reads as empty, and only an assistant's tool calls are rendered. */
  function Shown(m: Message): Turn {
    Turn(m.role, if m.content.Some? then m.content.value else "",
         if m.role == Assistant then CallsOf(m.toolCalls) else [])
  }

  function ShownAll(ms: seq<Message>): (r: seq<Turn>)
    ensures |r| == |ms| && forall i :: 0 <= i < |ms| ==> r[i] == Shown(ms[i])
  {
    seq(|ms|, i requires 0 <= i < |ms| => Shown(ms[i]))
  }

  function RoleName(role: Role): string {
    match role
    case System => "system"
    case User => "user"
    case Assistant => "assistant"
    case Tool => "tool"
  }

  function Payload(call: Call): string {
    Text(Obj([Member("name", Str(call.name)), Member("arguments", call.arguments)]))
  }

  /** The tool calls of a turn and its end. */
  function CallsThenEnd(calls: seq<Call>): string {
    if calls == [] then IM_END + "\n"
    else CALL + (Payload(calls[0]) + (END_CALL + CallsThenEnd(calls[1..])))
  }

  function Opening(role: Role): string {
    IM_START + RoleName(role) + "\n"
  }

  function TurnText(t: Turn): string {
    Opening(t.role) + (t.content + CallsThenEnd(t.calls))
  }

  function TurnsText(turns: seq<Turn>): string {
    if turns == [] then "" else TurnText(turns[0]) + TurnsText(turns[1..])
  }

  /** The request texts of a turn in the order they are looked at. */
  function Payloads(calls: seq<Call>): seq<string> {
    if calls == [] then [] else [Payload(calls[0])] + Payloads(calls[1..])
  }

  function Texts(turns: seq<Turn>): seq<string> {
    if turns == [] then [] else [turns[0].content] + Payloads(turns[0].calls) + Texts(turns[1..])
  }

  /** The first text that is refused decides the error. */
  function Refusal(texts: seq<string>): (r: Option<string>)
    ensures r.None? <==> forall i :: 0 <= i < |texts| ==> Clean(texts[i])
  {
    if texts == [] then None
    else
      var first := Reserved(texts[0]);
      if first.Some? then first else
        assert forall i :: 1 <= i < |texts| ==> texts[i] == texts[1..][i - 1];
        Refusal(texts[1..])
  }

  function Suffix(options: QwenOptions): string {
    if !options.addGenerationPrompt then ""
    else if options.enableThinking then IM_START + "assistant\n<think>\n"
    else IM_START + "assistant\n<think>\n\n</think>\n\n"
  }

  /** The prompt without tools: a function of what is shown, refused exactly when some shown text is not clean. */
  function Prompt(turns: seq<Turn>, options: QwenOptions): Rendered {
    match Refusal(Texts(turns))
    case Some(token) => ReservedControlToken(token)
    case None => Ok(TurnsText(turns) + Suffix(options))
  }

  // ---------------------------------------------------------------- the renderer

  lemma {:induction false} RefusalOfConcat(a: seq<string>, b: seq<string>)
    ensures Refusal(a + b) == if Refusal(a).Some? then Refusal(a) else Refusal(b)
  {
    if a == [] {
      assert a + b == b;
    } else {
      assert (a + b)[1..] == a[1..] + b;
      RefusalOfConcat(a[1..], b);
    }
  }

  lemma {:induction false} TurnsSnoc(turns: seq<Turn>, t: Turn)
    ensures TurnsText(turns + [t]) == TurnsText(turns) + TurnText(t)
  {
    hide TurnText;
    if turns == [] {
      assert turns + [t] == [t] && [t][1..] == [];
      assert TurnsText([t]) == TurnText(t) + TurnsText([]);
    } else {
      assert (turns + [t])[1..] == turns[1..] + [t];
      TurnsSnoc(turns[1..], t);
      Regroup(TurnText(turns[0]), TurnsText(turns[1..]), TurnText(t));
    }
  }

  lemma {:induction false} TextsSnoc(turns: seq<Turn>, t: Turn)
    ensures Texts(turns + [t]) == Texts(turns) + ([t.content] + Payloads(t.calls))
  {
    TextsOfConcat(turns, [t]);
    assert [t][1..] == [];
    assert Texts([t]) == [t.content] + Payloads(t.calls) + Texts([]);
  }

  /** A turn as rendered onto `out`, or the refusal of one of its texts. */
  function TurnOnto(out: string, t: Turn): Rendered {
    match Refusal([t.content] + Payloads(t.calls))
    case Some(token) => ReservedControlToken(token)
    case None => Ok(out + TurnText(t))
  }

  lemma EmptyIsClean()
    ensures Clean("") && Reserved("").None?
  {
    forall t, i: nat | t in RESERVED ensures !OccursAt("", t, i) {
      assert |t| > 0;
    }
  }

  lemma TurnPushed(out: string, t: Turn)
    ensures out + Opening(t.role) + t.content + CallsThenEnd(t.calls) == out + TurnText(t)
    ensures t.content == "" ==> out + Opening(t.role) + t.content == out + Opening(t.role)
  {
    hide Opening, CallsThenEnd;
    Regroup(out + Opening(t.role), t.content, CallsThenEnd(t.calls));
    Regroup(out, Opening(t.role), t.content + CallsThenEnd(t.calls));
  }

  lemma OpeningPushed(out: string, role: Role)
    ensures out + IM_START + RoleName(role) + "\n" == out + Opening(role)
  {
    Regroup(out, IM_START, RoleName(role));
    Regroup(out, IM_START + RoleName(role), "\n");
  }

  method RenderPlain(out: string, m: Message) returns (r: Rendered)
    requires m.role != Assistant
    ensures r == TurnOnto(out, Shown(m))
  {
    hide Opening, Clean, Reserved, TurnText;
    EmptyIsClean();
    OpeningPushed(out, m.role);
    TurnPushed(out, Shown(m));
    var s := out + IM_START;
    s := s + RoleName(m.role);
    s := s + "\n";
    if m.content.Some? {
      match Reserved(m.content.value)
      case Some(token) => return ReservedControlToken(token);
      case None => s := s + m.content.value;
    }
    s := s + (IM_END + "\n");
    return Ok(s);
  }

  method RenderAssistant(out: string, m: Message) returns (r: Rendered)
    requires m.role == Assistant
    ensures r == TurnOnto(out, Shown(m))
  {
    EmptyIsClean();
    ghost var calls, shown := CallsOf(m.toolCalls), Shown(m);
    TurnPushed(out, shown);
    assert Opening(Assistant) == IM_START + "assistant\n";
    hide Payload, Clean, Reserved, Opening, TurnText;
    var s := out + (IM_START + "assistant\n");
    if m.content.Some? {
      match Reserved(m.content.value)
      case Some(token) => return ReservedControlToken(token);
      case None => s := s + m.content.value;
    }
    assert s == out + Opening(Assistant) + shown.content;
    assert ([shown.content] + Payloads(calls))[1..] == Payloads(calls);
    hide Payloads, CallsThenEnd;
    r := RenderCalls(s, m.toolCalls);
    if r.Ok? {
      r := Ok(r.prompt + (IM_END + "\n"));
    }
  }

  /** Appends the tool calls one by one, up to the end of the turn, unless a payload is refused. */
  method RenderCalls(out: string, toolCalls: seq<ToolCall>) returns (r: Rendered)
    ensures r.Ok? ==>
      Refusal(Payloads(CallsOf(toolCalls))).None? &&
        r.prompt + (IM_END + "\n") == out + CallsThenEnd(CallsOf(toolCalls))
    ensures !r.Ok? ==> Refusal(Payloads(CallsOf(toolCalls))) == Some(r.token)
  {
    hide Payload, Clean, Reserved, Refusal, Payloads;
    ghost var calls := CallsOf(toolCalls);
    var s := out;
    assert calls[0..] == calls;
    for i := 0 to |toolCalls|
      invariant s + CallsThenEnd(calls[i..]) == out + CallsThenEnd(calls)
      invariant Refusal(Payloads(calls)) == Refusal(Payloads(calls[i..]))
    {
      var payload := Payload(CallOf(toolCalls[i]));
      assert calls[i..][1..] == calls[i + 1..] && calls[i..][0] == CallOf(toolCalls[i]);
      PayloadsCons(calls[i..]);
      match Reserved(payload)
      case Some(token) => return ReservedControlToken(token);
      case None =>
      CallPushed(s, calls[i..]);
      s := s + CALL;
      s := s + payload;
      s := s + END_CALL;
    }
    assert calls[|calls|..] == [];
    NoPayloads();
    return Ok(s);
  }

  lemma NoPayloads()
    ensures Refusal(Payloads([])).None? && CallsThenEnd([]) == IM_END + "\n"
  {
  }

  lemma PayloadsCons(calls: seq<Call>)
    requires calls != []
    ensures var first := Reserved(Payload(calls[0]));
            Refusal(Payloads(calls)) == if first.Some? then first else Refusal(Payloads(calls[1..]))
  {
    hide Payload, Reserved;
    assert Payloads(calls)[1..] == Payloads(calls[1..]);
  }

  lemma CallPushed(s: string, calls: seq<Call>)
    requires calls != []
    ensures s + CALL + Payload(calls[0]) + END_CALL + CallsThenEnd(calls[1..]) == s + CallsThenEnd(calls)
  {
    var p, rest := Payload(calls[0]), CallsThenEnd(calls[1..]);
    hide Payload;
    Regroup(s + CALL + p, END_CALL, rest);
    Regroup(s + CALL, p, END_CALL + rest);
    Regroup(s, CALL, p + (END_CALL + rest));
  }

  // ---------------------------------------------------------------- the whole prompt

  /** What stands before the turns when tools are declared, and how many messages it takes up. */
  function ToolsHeader(ms: seq<Message>, toolsJson: string, instruction: Option<string>): (r: (string, nat))
    ensures r.1 <= |ms|
  {
    var system := ms != [] && ms[0].role == System;
    var content := if system && ms[0].content.Some? then ms[0].content.value + "\n\n" else "";
    var told := if instruction.Some? then instruction.value else "";
    (IM_START + "system\n" + content + told + toolsJson + IM_END + "\n", if system then 1 else 0)
  }

  /** The request texts that go into the header. */
  function HeaderTexts(ms: seq<Message>, toolsJson: string): seq<string> {
    if ms != [] && ms[0].role == System && ms[0].content.Some? then [toolsJson, ms[0].content.value] else [toolsJson]
  }

  /** The prompt for any tools: `toolsJson` is their serialised text, absent when there are none. */
  function PromptWithTools(ms: seq<Message>, toolsJson: Option<string>, options: QwenOptions,
                           instruction: Option<string>): Rendered {
    if toolsJson.None? then Prompt(ShownAll(ms), options)
    else
      var (header, skipped) := ToolsHeader(ms, toolsJson.value, instruction);
      var turns := ShownAll(ms[skipped..]);
      match Refusal(HeaderTexts(ms, toolsJson.value) + Texts(turns))
      case Some(token) => ReservedControlToken(token)
      case None => Ok(header + TurnsText(turns) + Suffix(options))
  }

  method RenderHeader(ms: seq<Message>, toolsJson: string, instruction: Option<string>)
    returns (r: Rendered, index: nat)
    ensures index == ToolsHeader(ms, toolsJson, instruction).1 || r.ReservedControlToken?
    ensures r == match Refusal(HeaderTexts(ms, toolsJson))
                 case Some(token) => ReservedControlToken(token)
                 case None => Ok(ToolsHeader(ms, toolsJson, instruction).0)
  {
    var texts := HeaderTexts(ms, toolsJson);
    assert texts[1..] == if |texts| == 2 then [texts[1]] else [];
    index := 0;
    match Reserved(toolsJson)
    case Some(token) => return ReservedControlToken(token), 0;
    case None =>
    var out := IM_START + "system\n";
    if ms != [] && ms[0].role == System {
      if ms[0].content.Some? {
        match Reserved(ms[0].content.value)
        case Some(token) => return ReservedControlToken(token), 0;
        case None => out := out + ms[0].content.value + "\n\n";
      }
      index := 1;
    }
    if instruction.Some? {
      out := out + instruction.value;
    }
    out := out + toolsJson;
    out := out + (IM_END + "\n");
    r := Ok(out);
  }

  method RenderTurns(out: string, ms: seq<Message>) returns (r: Rendered)
    ensures r == match Refusal(Texts(ShownAll(ms)))
                 case Some(token) => ReservedControlToken(token)
                 case None => Ok(out + TurnsText(ShownAll(ms)))
  {
    var s := out;
    ghost var turns := ShownAll(ms);
    assert turns[..0] == [] && Refusal(Texts([])).None? && TurnsText([]) == "";
    hide TurnText, Payloads, Refusal, Texts, TurnsText, Shown;
    for i := 0 to |ms|
      invariant Refusal(Texts(turns[..i])).None? && s == out + TurnsText(turns[..i])
    {
      TurnPrefix(out, turns, i);
      if ms[i].role == Assistant {
        r := RenderAssistant(s, ms[i]);
      } else {
        r := RenderPlain(s, ms[i]);
      }
      if r.ReservedControlToken? {
        RefusalStands(turns, i + 1);
        return;
      }
      s := r.prompt;
    }
    assert turns[..|ms|] == turns;
    return Ok(s);
  }

  lemma TurnPrefix(out: string, turns: seq<Turn>, i: nat)
    requires i < |turns| && Refusal(Texts(turns[..i])).None?
    ensures out + TurnsText(turns[..i]) + TurnText(turns[i]) == out + TurnsText(turns[..i + 1])
    ensures Refusal(Texts(turns[..i + 1])) == Refusal([turns[i].content] + Payloads(turns[i].calls))
  {
    hide TurnText, Payloads, Refusal, Texts, TurnsText;
    assert turns[..i + 1] == turns[..i] + [turns[i]];
    TurnsSnoc(turns[..i], turns[i]);
    TextsSnoc(turns[..i], turns[i]);
    RefusalOfConcat(Texts(turns[..i]), [turns[i].content] + Payloads(turns[i].calls));
    Regroup(out, TurnsText(turns[..i]), TurnText(turns[i]));
  }

  lemma RefusalStands(turns: seq<Turn>, i: nat)
    requires i <= |turns| && Refusal(Texts(turns[..i])).Some?
    ensures Refusal(Texts(turns)) == Refusal(Texts(turns[..i]))
  {
    hide Texts, Refusal, Clean;
    assert turns == turns[..i] + turns[i..];
    TextsOfConcat(turns[..i], turns[i..]);
    RefusalOfConcat(Texts(turns[..i]), Texts(turns[i..]));
  }

  lemma {:induction false} TextsOfConcat(a: seq<Turn>, b: seq<Turn>)
    ensures Texts(a + b) == Texts(a) + Texts(b)
  {
    if a == [] {
      assert a + b == b;
    } else {
      assert (a + b)[1..] == a[1..] + b;
      TextsOfConcat(a[1..], b);
    }
  }

  method RenderQwen(ms: seq<Message>, toolsJson: Option<string>, options: QwenOptions, instruction: Option<string>)
    returns (r: Rendered)
    ensures r == PromptWithTools(ms, toolsJson, options, instruction)
  {
    hide TurnsText, Texts, Refusal, ToolsHeader, HeaderTexts, Shown, Clean, Suffix;
    var out, index := "", 0;
    if toolsJson.Some? {
      r, index := RenderHeader(ms, toolsJson.value, instruction);
      RefusalOfConcat(HeaderTexts(ms, toolsJson.value),
                      Texts(ShownAll(ms[ToolsHeader(ms, toolsJson.value, instruction).1..])));
      if r.ReservedControlToken? {
        return;
      }
      out := r.prompt;
    }
    assert toolsJson.None? ==> ms[index..] == ms;
    r := RenderTurns(out, ms[index..]);
    if r.ReservedControlToken? {
      return;
    }
    out := RenderSuffix(r.prompt, options);
    return Ok(out);
  }

  method RenderSuffix(out: string, options: QwenOptions) returns (r: string)
    ensures r == out + Suffix(options)
  {
    r := out;
    if options.addGenerationPrompt {
      r := r + (IM_START + "assistant\n");
      if !options.enableThinking {
        r := r + "<think>\n\n</think>\n\n";
      } else {
        r := r + "<think>\n";
      }
    }
  }
}
