/**
 Reading a prompt back. A reader that knows only the conventions of ChatML recovers from the rendered turns exactly
 the roles, contents and tool calls they show; so a prompt can be read in one way only, also with tools declared.
 */
module ChatMlReading {
  import opened Common
  import opened Json
  import opened JsonText
  import opened Rows
  import opened ChatMl

  predicate TurnsWellFormed(turns: seq<Turn>) {
    forall i, k :: 0 <= i < |turns| && 0 <= k < |turns[i].calls| ==> WellFormed(turns[i].calls[k].arguments)
  }

  /** Clean text holds none of the six control tokens. */
  lemma CleanMeans(text: string)
    ensures Clean(text) <==> forall i: nat ::
      && !OccursAt(text, "<|im_start|>", i) && !OccursAt(text, "<|im_end|>", i)
      && !OccursAt(text, "<tool_call>", i) && !OccursAt(text, "</tool_call>", i)
      && !OccursAt(text, "<think>", i) && !OccursAt(text, "</think>", i)
  {
    hide OccursAt;
    assert forall t :: t in RESERVED <==> t in ["<|im_start|>", "<|im_end|>", "<tool_call>", "</tool_call>", "<think>",
                                                "</think>"];
    assert "<|im_start|>" in RESERVED && "<|im_end|>" in RESERVED && "<tool_call>" in RESERVED;
    assert "</tool_call>" in RESERVED && "<think>" in RESERVED && "</think>" in RESERVED;
  }

  /** `<` is the first character of a control token and occurs nowhere else in it. */
  lemma TokenShape(t: string)
    requires t in RESERVED
    ensures |t| > 0 && t[0] == '<' && forall k :: 0 < k < |t| ==> t[k] != '<'
  {
  }

  /** No text ends inside a control token if what follows it starts with one. */
  lemma StraddledToken(c: string, r: string, token: string, d: string, q: string)
    requires c + r == d + q && token in RESERVED && token <= r && q != [] && |c| < |d| < |c| + |token|
    ensures q[0] != '<'
  {
    TokenShape(token);
    assert (c + r)[|d|] == r[|d| - |c|] == token[|d| - |c|];
    assert (d + q)[|d|] == q[0];
  }

  /** Clean text cannot reach past the place where another reading puts a control token. */
  lemma TokenStops(c: string, r: string, token: string, d: string, q: string)
    requires c + r == d + q && token in RESERVED && token <= r && q != [] && q[0] == '<' && |c| < |d|
    ensures !Clean(d)
  {
    var s := c + r;
    TokenShape(token);
    assert forall k :: 0 <= k < |token| ==> s[|c| + k] == token[k];
    if |c| + |token| <= |d| {
      assert d == s[..|d|];
      assert d[|c|..|c| + |token|] == token;
      assert OccursAt(d, token, |c|);
    } else {
      StraddledToken(c, r, token, d, q);
    }
  }

  lemma CleanTextEnds(c: string, r: string, d: string, q: string, t: string, u: string)
    requires c + r == d + q && Clean(c) && Clean(d) && t in RESERVED && u in RESERVED && t <= r && u <= q
    ensures c == d && r == q
  {
    TokenShape(t);
    TokenShape(u);
    if |c| < |d| {
      TokenStops(c, r, t, d, q);
    } else if |d| < |c| {
      TokenStops(d, q, u, c, r);
    }
    PrefixesOf(c, d, r, q);
  }

  ghost predicate CallsClean(calls: seq<Call>) {
    forall k :: 0 <= k < |calls| ==> WellFormed(calls[k].arguments) && Clean(Payload(calls[k]))
  }

  ghost predicate TurnClean(t: Turn) {
    Clean(t.content) && CallsClean(t.calls)
  }

  lemma CallsHead(calls: seq<Call>, x: string)
    ensures var s := CallsThenEnd(calls) + x;
            && (calls == [] ==> IM_END <= s && s == IM_END + ("\n" + x))
            && (calls != [] ==>
                CALL <= s && s == CALL + (Payload(calls[0]) + (END_CALL + (CallsThenEnd(calls[1..]) + x))))
  {
    if calls == [] {
      Regroup(IM_END, "\n", x);
    } else {
      var p, rest := Payload(calls[0]), CallsThenEnd(calls[1..]);
      hide Payload;
      Regroup(CALL, p + (END_CALL + rest), x);
      Regroup(p, END_CALL + rest, x);
      Regroup(END_CALL, rest, x);
    }
  }

  lemma TurnParts(t: Turn, x: string)
    ensures TurnText(t) + x == Opening(t.role) + (t.content + (CallsThenEnd(t.calls) + x))
  {
    hide Opening, CallsThenEnd;
    Regroup(Opening(t.role), t.content + CallsThenEnd(t.calls), x);
    Regroup(t.content, CallsThenEnd(t.calls), x);
  }

  lemma TurnsNotEmpty(turns: seq<Turn>)
    ensures TurnsText(turns) == [] <==> turns == []
  {
  }

  lemma {:induction false} PayloadsAreListed(calls: seq<Call>)
    ensures |Payloads(calls)| == |calls| && forall k :: 0 <= k < |calls| ==> Payloads(calls)[k] == Payload(calls[k])
  {
    if calls != [] {
      PayloadsAreListed(calls[1..]);
    }
  }

  lemma {:induction false} AcceptedTurnsAreClean(turns: seq<Turn>)
    requires TurnsWellFormed(turns) && forall i :: 0 <= i < |Texts(turns)| ==> Clean(Texts(turns)[i])
    ensures forall i :: 0 <= i < |turns| ==> TurnClean(turns[i])
  {
    hide Payload, Clean;
    if turns != [] {
      var first, payloads, rest := turns[0], Payloads(turns[0].calls), Texts(turns[1..]);
      var texts := Texts(turns);
      assert texts == [first.content] + payloads + rest;
      forall i | 0 <= i < |rest| ensures Clean(rest[i]) {
        assert rest[i] == texts[1 + |payloads| + i];
      }
      AcceptedTurnsAreClean(turns[1..]);
      PayloadsAreListed(first.calls);
      assert texts[0] == first.content;
      forall k | 0 <= k < |first.calls| ensures Clean(Payload(first.calls[k])) && WellFormed(first.calls[k].arguments) {
        assert texts[1 + k] == payloads[k];
      }
      assert TurnClean(first);
    }
  }

  // ---------------------------------------------------------------- a reader of prompts

  /** A control token that can stand after request text begins here. */
  predicate AtControl(s: string) {
    "<|im_end|>" <= s || "<tool_call>" <= s || "</tool_call>" <= s
  }

  /** The text up to the next such token. */
  function UpTo(s: string): (r: Read<string>)
    ensures r.Found? ==> |r.rest| <= |s|
  {
    if AtControl(s) then Found("", s)
    else if s == [] then Nothing
    else
      var more := UpTo(s[1..]);
      if more.Nothing? then Nothing else Found([s[0]] + more.value, more.rest)
  }

  /** A tool call from the JSON text of its payload. */
  function ReadPayload(text: string): Read<Call> {
    var v := ReadValue(text);
    if v.Found? && v.rest == [] && v.value.Obj? && |v.value.members| == 2 && v.value.members[0].key == "name" &&
       v.value.members[0].value.Str? && v.value.members[1].key == "arguments"
    then Found(Call(v.value.members[0].value.text, v.value.members[1].value), "")
    else Nothing
  }

  /** The tool calls of a turn, up to and including its end. */
  function ReadCalls(s: string): (r: Read<seq<Call>>)
    ensures r.Found? ==> |r.rest| < |s|
    decreases |s|
  {
    if "<|im_end|>\n" <= s then Found([], s[11..])
    else if "<tool_call>" <= s then
      var payload := UpTo(s[11..]);
      if payload.Nothing? || !("</tool_call>" <= payload.rest) then Nothing
      else
        var call, more := ReadPayload(payload.value), ReadCalls(payload.rest[12..]);
        if call.Nothing? || more.Nothing? then Nothing else Found([call.value] + more.value, more.rest)
    else Nothing
  }

  /** The rest of the line that opens a turn names its role. */
  function ReadRole(s: string): (r: Read<Role>)
    ensures r.Found? ==> |r.rest| < |s|
  {
    if "system\n" <= s then Found(System, s[7..])
    else if "user\n" <= s then Found(User, s[5..])
    else if "assistant\n" <= s then Found(Assistant, s[10..])
    else if "tool\n" <= s then Found(Tool, s[5..])
    else Nothing
  }

  function ReadOpening(s: string): (r: Read<Role>)
    ensures r.Found? ==> |r.rest| < |s|
  {
    if "<|im_start|>" <= s then ReadRole(s[12..]) else Nothing
  }

  function ReadTurn(s: string): (r: Read<Turn>)
    ensures r.Found? ==> |r.rest| < |s|
  {
    var role := ReadOpening(s);
    if role.Nothing? then Nothing
    else
      var content := UpTo(role.rest);
      if content.Nothing? then Nothing
      else
        var calls := ReadCalls(content.rest);
        if calls.Nothing? then Nothing else Found(Turn(role.value, content.value, calls.value), calls.rest)
  }

  /** The turns of a prompt, first to last. */
  function ReadTurns(s: string): Read<seq<Turn>>
    decreases |s|
  {
    if s == [] then Found([], "")
    else
      var t := ReadTurn(s);
      if t.Nothing? then Nothing
      else
        var more := ReadTurns(t.rest);
        if more.Nothing? then Nothing else Found([t.value] + more.value, more.rest)
  }

  // ---------------------------------------------------------------- what was rendered reads back

  /** In clean text followed by a control token, no such token begins before the end of the text. */
  lemma NotAtControl(c: string, r: string)
    requires Clean(c) && c != [] && AtControl(r)
    ensures !AtControl(c + r)
  {
    forall t | t in RESERVED ensures !(t <= c + r) {
      TokenShape(t);
      if t <= c + r {
        if |t| <= |c| {
          OccursFirst(c, r, t);
        } else {
          StraddledToken("", c + r, t, c, r);
        }
      }
    }
    assert "<|im_end|>" in RESERVED && "<tool_call>" in RESERVED && "</tool_call>" in RESERVED;
  }

  lemma OccursFirst(c: string, r: string, t: string)
    requires t <= c + r && |t| <= |c|
    ensures OccursAt(c, t, 0)
  {
    assert c[0..0 + |t|] == (c + r)[..|t|];
  }

  lemma OccursLater(c: string, t: string, i: nat)
    requires c != [] && OccursAt(c[1..], t, i)
    ensures OccursAt(c, t, i + 1)
  {
    assert c[i + 1..i + 1 + |t|] == c[1..][i..i + |t|];
  }

  lemma CleanTail(c: string)
    requires Clean(c) && c != []
    ensures Clean(c[1..])
  {
    forall t, i: nat | t in RESERVED ensures !OccursAt(c[1..], t, i) {
      if OccursAt(c[1..], t, i) {
        OccursLater(c, t, i);
      }
    }
  }

  lemma {:induction false} UpToControl(c: string, r: string)
    requires Clean(c) && AtControl(r)
    ensures UpTo(c + r) == Found(c, r)
    decreases |c|
  {
    hide Clean, AtControl;
    if c == [] {
      assert c + r == r;
    } else {
      NotAtControl(c, r);
      CleanTail(c);
      assert (c + r)[1..] == c[1..] + r && (c + r)[0] == c[0];
      UpToControl(c[1..], r);
      assert [c[0]] + c[1..] == c;
    }
  }

  lemma PayloadReadsBack(call: Call)
    requires WellFormed(call.arguments)
    ensures ReadPayload(Payload(call)) == Found(call, "")
  {
    var v := Obj([Member("name", Str(call.name)), Member("arguments", call.arguments)]);
    assert "name"[0] != "arguments"[0];
    assert Text(v) + [] == Text(v);
    hide ReadValue, Text;
    ReadText(v, []);
  }

  lemma {:induction false} CallsReadBack(calls: seq<Call>, x: string)
    requires CallsClean(calls)
    ensures ReadCalls(CallsThenEnd(calls) + x) == Found(calls, x) && AtControl(CallsThenEnd(calls) + x)
  {
    hide Payload, Clean, ReadPayload, UpTo;
    CallsHead(calls, x);
    var s := CallsThenEnd(calls) + x;
    if calls == [] {
      assert s[11..] == x;
    } else {
      var p, rest := Payload(calls[0]), CallsThenEnd(calls[1..]) + x;
      assert s[11..] == p + ("</tool_call>" + rest);
      UpToControl(p, "</tool_call>" + rest);
      assert ("</tool_call>" + rest)[12..] == rest;
      PayloadReadsBack(calls[0]);
      CallsReadBack(calls[1..], x);
      assert s[1] == 't';
      assert [calls[0]] + calls[1..] == calls;
    }
  }

  lemma RoleReadsBack(role: Role, x: string)
    ensures ReadRole(RoleName(role) + ("\n" + x)) == Found(role, x)
  {
    var name := RoleName(role);
    var s := name + ("\n" + x);
    assert s[|name| + 1..] == x;
    assert s[0] == name[0];
    assert s[..|name| + 1] == name + "\n";
  }

  lemma OpeningReadsBack(role: Role, x: string)
    ensures ReadOpening(Opening(role) + x) == Found(role, x)
  {
    hide RoleName, ReadRole;
    var name := RoleName(role);
    Regroup(IM_START + name, "\n", x);
    Regroup(IM_START, name, "\n" + x);
    assert (IM_START + (name + ("\n" + x)))[12..] == name + ("\n" + x);
    RoleReadsBack(role, x);
  }

  /** A turn reads back as itself, whatever follows. */
  lemma TurnReadsBack(t: Turn, x: string)
    requires TurnClean(t)
    ensures ReadTurn(TurnText(t) + x) == Found(t, x)
  {
    hide CallsThenEnd, Clean, Opening, ReadOpening, UpTo, ReadCalls, AtControl;
    var rest := CallsThenEnd(t.calls) + x;
    TurnParts(t, x);
    OpeningReadsBack(t.role, t.content + rest);
    CallsReadBack(t.calls, x);
    UpToControl(t.content, rest);
  }

  /** The turns of a prompt read back as they were, in their order. */
  lemma {:induction false} TurnsReadBack(turns: seq<Turn>)
    requires forall i :: 0 <= i < |turns| ==> TurnClean(turns[i])
    ensures ReadTurns(TurnsText(turns)) == Found(turns, "")
  {
    hide TurnText, TurnClean, ReadTurn;
    TurnsNotEmpty(turns);
    if turns != [] {
      TurnReadsBack(turns[0], TurnsText(turns[1..]));
      TurnsReadBack(turns[1..]);
      assert [turns[0]] + turns[1..] == turns;
    }
  }

  /** So different turns render differently. */
  lemma TurnsInjective(a: seq<Turn>, b: seq<Turn>)
    requires (forall i :: 0 <= i < |a| ==> TurnClean(a[i])) && (forall i :: 0 <= i < |b| ==> TurnClean(b[i]))
    requires TurnsText(a) == TurnsText(b)
    ensures a == b
  {
    hide TurnsText, TurnClean;
    TurnsReadBack(a);
    TurnsReadBack(b);
  }

  // ---------------------------------------------------------------- the end of a prompt

  /** What follows the turns: nothing, or an opened assistant turn, in which thinking is already closed exactly if
      it is not enabled. */
  lemma SuffixMeans(options: QwenOptions)
    ensures !options.addGenerationPrompt ==> Suffix(options) == ""
    ensures options.addGenerationPrompt && options.enableThinking ==> Suffix(options) == Opened
    ensures options.addGenerationPrompt && !options.enableThinking ==> Suffix(options) == Opened + "\n</think>\n\n"
    ensures options.addGenerationPrompt ==>
      ((exists i: nat :: OccursAt(Suffix(options), "</think>", i)) <==> !options.enableThinking)
  {
    hide Suffix, OccursAt, Opened;
    SuffixText(options);
    NoClosing();
    ClosingIn(Opened);
    assert OccursAt(Opened + "\n</think>\n\n", "</think>", |Opened| + 1);
  }

  lemma SuffixText(options: QwenOptions)
    ensures !options.addGenerationPrompt ==> Suffix(options) == ""
    ensures options.addGenerationPrompt && options.enableThinking ==> Suffix(options) == Opened
    ensures options.addGenerationPrompt && !options.enableThinking ==> Suffix(options) == Opened + "\n</think>\n\n"
  {
    var closing := "\n</think>\n\n";
    assert IM_START + "assistant\n<think>\n" == Opened;
    assert "assistant\n<think>\n\n</think>\n\n" == "assistant\n<think>\n" + closing;
    Regroup(IM_START, "assistant\n<think>\n", closing);
  }

  lemma ClosingIn(x: string)
    ensures OccursAt(x + "\n</think>\n\n", "</think>", |x| + 1)
  {
    var closing := "\n</think>\n\n";
    SliceOfConcat(x, closing, |x| + 1, 8);
    assert closing[1..9] == "</think>";
  }

  /** An assistant turn opened for thinking. */
  const Opened: string := "<|im_start|>assistant\n<think>\n"

  lemma NoClosing()
    ensures forall i: nat :: !OccursAt(Opened, "</think>", i)
  {
    forall i: nat ensures !OccursAt(Opened, "</think>", i) {
      if i + 8 <= |Opened| {
        assert Opened[i..i + 8][1] == Opened[i + 1] != '/';
      }
    }
  }

  /** An accepted prompt without tools is its turns, which read back, and then the suffix for the options. */
  lemma PromptReadsBack(ms: seq<Message>, options: QwenOptions)
    requires TurnsWellFormed(ShownAll(ms)) && PromptWithTools(ms, None, options, None).Ok?
    ensures exists turns: string ::
      && PromptWithTools(ms, None, options, None).prompt == turns + Suffix(options)
      && ReadTurns(turns) == Found(ShownAll(ms), "")
  {
    AcceptedTurnsAreClean(ShownAll(ms));
    TurnsReadBack(ShownAll(ms));
    assert PromptWithTools(ms, None, options, None).prompt == TurnsText(ShownAll(ms)) + Suffix(options);
  }

  /** One more message adds one more turn after the others and before the suffix. */
  lemma PromptGrows(ms: seq<Message>, m: Message, options: QwenOptions)
    requires PromptWithTools(ms + [m], None, options, None).Ok?
    ensures PromptWithTools(ms, None, options, None).Ok?
    ensures PromptWithTools(ms, None, options, None).prompt == TurnsText(ShownAll(ms)) + Suffix(options)
    ensures PromptWithTools(ms + [m], None, options, None).prompt ==
      TurnsText(ShownAll(ms)) + TurnText(Shown(m)) + Suffix(options)
  {
    assert ShownAll(ms + [m]) == ShownAll(ms) + [Shown(m)];
    TurnsSnoc(ShownAll(ms), Shown(m));
    TextsSnoc(ShownAll(ms), Shown(m));
    RefusalOfConcat(Texts(ShownAll(ms)), [Shown(m).content] + Payloads(Shown(m).calls));
  }

  /** With no tools and the same options, two accepted requests give the same prompt exactly when they show
      the same roles, contents and tool calls. */
  lemma PromptInjective(ms: seq<Message>, ns: seq<Message>, options: QwenOptions)
    requires TurnsWellFormed(ShownAll(ms)) && TurnsWellFormed(ShownAll(ns))
    requires PromptWithTools(ms, None, options, None).Ok? && PromptWithTools(ns, None, options, None).Ok?
    ensures PromptWithTools(ms, None, options, None) == PromptWithTools(ns, None, options, None) <==>
      ShownAll(ms) == ShownAll(ns)
  {
    var a, b, suffix := ShownAll(ms), ShownAll(ns), Suffix(options);
    if TurnsText(a) + suffix == TurnsText(b) + suffix {
      AcceptedTurnsAreClean(a);
      AcceptedTurnsAreClean(b);
      PrefixesOf(TurnsText(a), TurnsText(b), suffix, suffix);
      TurnsInjective(a, b);
    }
  }

  // ---------------------------------------------------------------- and with tools declared

  /** What a prompt with tools shows of a request: the content of a leading system message, which goes into
      the header, and the turns after it. */
  datatype Seen = Seen(system: Option<string>, turns: seq<Turn>)

  function SeenOf(ms: seq<Message>): Seen {
    if ms != [] && ms[0].role == System then Seen(ms[0].content, ShownAll(ms[1..])) else Seen(None, ShownAll(ms))
  }

  /** The system text and the blank line after it. */
  function Lead(system: Option<string>): string {
    if system.Some? then system.value + "\n\n" else ""
  }

  /** The header after its opening, and everything behind it. */
  function Body(seen: Seen, fixed: string, options: QwenOptions): string {
    Lead(seen.system) + (fixed + ("\n" + (TurnsText(seen.turns) + Suffix(options))))
  }

  function Told(instruction: Option<string>): string {
    if instruction.Some? then instruction.value else ""
  }

  function SystemTexts(seen: Seen): seq<string> {
    if seen.system.Some? then [seen.system.value] else []
  }

  lemma HeaderParts(ms: seq<Message>, toolsJson: string, instruction: Option<string>)
    ensures var (header, skipped) := ToolsHeader(ms, toolsJson, instruction);
            && ShownAll(ms[skipped..]) == SeenOf(ms).turns &&
               HeaderTexts(ms, toolsJson) == [toolsJson] + SystemTexts(SeenOf(ms))
            && header == Opening(System) + (Lead(SeenOf(ms).system) + ((Told(instruction) + toolsJson + IM_END) + "\n"))
  {
    var lead, told := Lead(SeenOf(ms).system), Told(instruction);
    assert ms[0..] == ms;
    assert Opening(System) == IM_START + "system\n";
    Regroup(Opening(System), lead, told);
    Regroup(Opening(System), lead + told, toolsJson);
    Regroup(Opening(System), lead + told + toolsJson, IM_END);
    Regroup(Opening(System), lead + told + toolsJson + IM_END, "\n");
    Regroup(lead, told, toolsJson);
    Regroup(lead, told + toolsJson, IM_END);
    Regroup(lead, told + toolsJson + IM_END, "\n");
  }

  /** With tools, the prompt is a function of what is seen, refused exactly when a text in it is. */
  lemma PromptOfSeen(ms: seq<Message>, toolsJson: string, options: QwenOptions, instruction: Option<string>)
    ensures var seen := SeenOf(ms);
            PromptWithTools(ms, Some(toolsJson), options, instruction) ==
            match Refusal([toolsJson] + SystemTexts(seen) + Texts(seen.turns))
            case Some(token) => ReservedControlToken(token)
            case None => Ok(Opening(System) + Body(seen, Told(instruction) + toolsJson + IM_END, options))
  {
    hide Opening, TurnsText, Suffix, Refusal, ShownAll, Texts, Told, Lead;
    var seen, fixed := SeenOf(ms), Told(instruction) + toolsJson + IM_END;
    HeaderParts(ms, toolsJson, instruction);
    var lead, turns, suffix := Lead(seen.system), TurnsText(seen.turns), Suffix(options);
    hide SeenOf, ToolsHeader, HeaderTexts, SystemTexts;
    Regroup(Opening(System) + (lead + (fixed + "\n")), turns, suffix);
    Regroup(Opening(System), lead + (fixed + "\n"), turns + suffix);
    Regroup(lead, fixed + "\n", turns + suffix);
    Regroup(fixed, "\n", turns + suffix);
  }

  /** With tools, a prompt is one system turn that holds the leading system text, a blank line, the instruction and
      the tools, and then the prompt of the other messages; it is refused exactly when one of the two is. */
  lemma ToolsPromptMeans(ms: seq<Message>, toolsJson: string, options: QwenOptions, instruction: Option<string>)
    ensures var system := if ms != [] && ms[0].role == System then ms[0].content else None;
            var rest := if ms != [] && ms[0].role == System then ms[1..] else ms;
            var r, plain := PromptWithTools(ms, Some(toolsJson), options, instruction),
                            PromptWithTools(rest, None, options, instruction);
            && (r.Ok? <==> Clean(toolsJson) && (system.Some? ==> Clean(system.value)) && plain.Ok?)
            && (r.Ok? ==>
                  r.prompt == "<|im_start|>system\n"
                              + ((if system.Some? then system.value + "\n\n" else "")
                                 + (((if instruction.Some? then instruction.value else "") + toolsJson + "<|im_end|>")
                                    + ("\n" + plain.prompt))))
  {
    hide TurnsText, Suffix, Refusal, ShownAll, Texts, Clean;
    var seen := SeenOf(ms);
    PromptOfSeen(ms, toolsJson, options, instruction);
    RefusalOfConcat([toolsJson] + SystemTexts(seen), Texts(seen.turns));
    RefusalOfConcat([toolsJson], SystemTexts(seen));
    assert Opening(System) == "<|im_start|>system\n";
    assert [toolsJson][0] == toolsJson;
    assert seen.system.Some? ==> SystemTexts(seen)[0] == seen.system.value;
  }

  /** No control token holds a line break. */
  lemma TokenHasNoBreak(t: string)
    requires t in RESERVED
    ensures forall k :: 0 <= k < |t| ==> t[k] != '\n'
  {
  }

  lemma BreakIsOutside(text: string, t: string, i: nat, p: nat)
    requires t in RESERVED && OccursAt(text, t, i) && i <= p < i + |t|
    ensures text[p] != '\n'
  {
    TokenHasNoBreak(t);
    assert text[p] == text[i..i + |t|][p - i];
  }

  /** Clean texts joined by a blank line are clean. */
  lemma LeadIsClean(system: Option<string>, rest: string)
    requires (system.Some? ==> Clean(system.value)) && Clean(rest)
    ensures Clean(Lead(system) + rest)
  {
    var lead := Lead(system);
    var joined := lead + rest;
    forall t, i: nat | t in RESERVED ensures !OccursAt(joined, t, i) {
      if OccursAt(joined, t, i) {
        TokenInJoined(system, rest, t, i);
      }
    }
  }

  lemma TokenInJoined(system: Option<string>, rest: string, t: string, i: nat)
    requires t in RESERVED && OccursAt(Lead(system) + rest, t, i)
    ensures (system.Some? && OccursAt(system.value, t, i)) ||
      (i >= |Lead(system)| && OccursAt(rest, t, i - |Lead(system)|))
  {
    var n := |Lead(system)|;
    var joined := Lead(system) + rest;
    TokenShape(t);
    SliceOfConcat(Lead(system), rest, i, |t|);
    if i < n {
      assert joined[n - 1] == '\n' && joined[n - 2] == '\n';
      if i == n - 1 {
        BreakIsOutside(joined, t, i, i);
      } else if i + |t| > n - 2 {
        BreakIsOutside(joined, t, i, n - 2);
      }
      SliceOfConcat(system.value, "\n\n", i, |t|);
    }
  }

  lemma OccursInPrefix(text: string, n: nat, t: string, k: nat)
    requires n <= |text| && |t| > 0 && OccursAt(text[..n], t, k)
    ensures OccursAt(text, t, k) && k < n
  {
    assert text[..n][k..k + |t|] == text[k..k + |t|];
  }

  lemma CleanBefore(fixed: string, i: nat)
    requires i <= |fixed| && NoneBefore(fixed, RESERVED, i)
    ensures Clean(fixed[..i])
  {
    forall u, k: nat | u in RESERVED ensures !OccursAt(fixed[..i], u, k) {
      TokenShape(u);
      if OccursAt(fixed[..i], u, k) {
        OccursInPrefix(fixed, i, u, k);
      }
    }
  }

  /** The text before the earliest control token is clean, and a text that ends in one has an earliest. */
  lemma EarliestSplits(fixed: string) returns (before: string, token: string, after: string)
    requires exists i: nat :: OccursAt(fixed, IM_END, i)
    ensures Clean(before) && token in RESERVED && fixed == before + (token + after)
  {
    var found := Earliest(fixed, RESERVED);
    assert IM_END in RESERVED;
    var (i, t) := found.value;
    hide Earliest;
    before, token, after := fixed[..i], t, fixed[i + |t|..];
    CleanBefore(fixed, i);
    assert fixed == fixed[..i] + (fixed[i..i + |t|] + fixed[i + |t|..]);
  }

  /** Whatever fixed text follows, the system text is determined: up to the first control token of that text
      everything is clean. */
  lemma LeadIsDetermined(a: Option<string>, b: Option<string>, fixed: string, x: string, y: string)
    requires (a.Some? ==> Clean(a.value)) && (b.Some? ==> Clean(b.value))
    requires exists i: nat :: OccursAt(fixed, IM_END, i)
    requires Lead(a) + (fixed + x) == Lead(b) + (fixed + y)
    ensures a == b && x == y
  {
    hide Clean;
    var before, token, after := EarliestSplits(fixed);
    LeadIsClean(a, before);
    LeadIsClean(b, before);
    LeadParts(Lead(a), before, token, after, x);
    LeadParts(Lead(b), before, token, after, y);
    CleanTextEnds(Lead(a) + before, token + (after + x), Lead(b) + before, token + (after + y), token, token);
    assert |Lead(a)| == |Lead(b)|;
    PrefixesOf(Lead(a), Lead(b), fixed + x, fixed + y);
    PrefixesOf(fixed, fixed, x, y);
    if a.Some? {
      PrefixesOf(a.value, b.value, "\n\n", "\n\n");
    }
  }

  lemma LeadParts(lead: string, before: string, token: string, after: string, x: string)
    ensures lead + ((before + (token + after)) + x) == (lead + before) + (token + (after + x))
    ensures token <= token + (after + x)
  {
    Regroup(before, token + after, x);
    Regroup(token, after, x);
    Regroup(lead, before, token + (after + x));
  }

  lemma SeenTextsAreClean(seen: Seen, toolsJson: string)
    requires TurnsWellFormed(seen.turns) && Refusal([toolsJson] + SystemTexts(seen) + Texts(seen.turns)).None?
    ensures (seen.system.Some? ==> Clean(seen.system.value)) && forall i :: 0 <= i < |seen.turns| ==>
      TurnClean(seen.turns[i])
  {
    hide Clean, TurnClean;
    RefusalOfConcat([toolsJson] + SystemTexts(seen), Texts(seen.turns));
    RefusalOfConcat([toolsJson], SystemTexts(seen));
    AcceptedTurnsAreClean(seen.turns);
    if seen.system.Some? {
      assert SystemTexts(seen)[0] == seen.system.value;
    }
  }

  /** With the same tools, instruction and options, whatever they are, two accepted requests give the same
      prompt exactly when they show the same leading system content and the same turns after it. */
  lemma ToolsPromptInjective(ms: seq<Message>, ns: seq<Message>, toolsJson: string, options: QwenOptions,
                             instruction: Option<string>)
    requires TurnsWellFormed(SeenOf(ms).turns) && TurnsWellFormed(SeenOf(ns).turns)
    requires PromptWithTools(ms, Some(toolsJson), options, instruction).Ok?
    requires PromptWithTools(ns, Some(toolsJson), options, instruction).Ok?
    ensures var prompt, other := PromptWithTools(ms, Some(toolsJson), options, instruction),
                                 PromptWithTools(ns, Some(toolsJson), options, instruction);
            prompt == other <==> SeenOf(ms) == SeenOf(ns)
  {
    hide PromptWithTools, SeenOf, Refusal, Texts, SystemTexts, Lead, TurnsText, Suffix, Opening;
    PromptOfSeen(ms, toolsJson, options, instruction);
    PromptOfSeen(ns, toolsJson, options, instruction);
    var a, b, fixed, suffix := SeenOf(ms), SeenOf(ns), Told(instruction) + toolsJson + IM_END, Suffix(options);
    SeenTextsAreClean(a, toolsJson);
    SeenTextsAreClean(b, toolsJson);
    if Opening(System) + Body(a, fixed, options) == Opening(System) + Body(b, fixed, options) {
      PrefixesOf(Opening(System), Opening(System), Body(a, fixed, options), Body(b, fixed, options));
      assert OccursAt(fixed, IM_END, |Told(instruction) + toolsJson|);
      LeadIsDetermined(a.system, b.system, fixed, "\n" + (TurnsText(a.turns) + suffix),
                       "\n" + (TurnsText(b.turns) + suffix));
      CancelHead('\n', TurnsText(a.turns) + suffix, TurnsText(b.turns) + suffix);
      PrefixesOf(TurnsText(a.turns), TurnsText(b.turns), suffix, suffix);
      TurnsInjective(a.turns, b.turns);
    }
  }

  /** What is lost with tools: a leading system message without content leaves no trace, so the two requests
      render alike although they show different turns. */
  lemma SilentSystemIsLost(m: Message, ns: seq<Message>, toolsJson: string, options: QwenOptions,
                           instruction: Option<string>)
    requires m.role == System && m.content.None? && (ns == [] || ns[0].role != System)
    ensures PromptWithTools([m] + ns, Some(toolsJson), options, instruction) ==
      PromptWithTools(ns, Some(toolsJson), options, instruction)
    ensures ShownAll([m] + ns) != ShownAll(ns)
  {
    assert ([m] + ns)[1..] == ns;
    PromptOfSeen([m] + ns, toolsJson, options, instruction);
    PromptOfSeen(ns, toolsJson, options, instruction);
    assert |ShownAll([m] + ns)| == |ns| + 1;
  }
}
