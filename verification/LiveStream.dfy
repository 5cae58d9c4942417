/** Turning runtime output into a stream of events (internal/app/app.go, pumpSession). */
module LiveStream {
  import opened Model
  import opened Text

  /** The output format of the adapter; the program's four tests exclude one another. */
  datatype Mode = Codex | Opencode | ClaudeCode | Paperclip | Plain

  /**
    What a decoded JSON line says: the agent's own conversation id, the assistant
    text (trimmed, parts joined), the message id it names, and whether it is part
    of a streamed message or ends one.
   */
  datatype Decoded = Decoded(native: string, text: string, messageId: string, streaming: bool, terminal: bool)

  /** The parts of the program nothing is assumed about. */
  datatype Env = Env(
    mode: Mode,
    decode: string -> Option<Decoded>,
    sanitize: string -> string,
    asksInput: (string, string) -> bool,
    extractId: string -> string,
    suffix: nat -> string)

  datatype Event =
    | RawChunk(data: string)
    | Bound(native: string)
    | Started(id: string)
    | Delta(id: string, text: string)
    | Completed(id: string)
    | InputRequested
    | StateChanged

  /** What the runtime reports. */
  datatype Input = Output(data: string) | Exited | Changed | Other

  /**
    The state of the pump apart from the unfinished line: the open message (or
    ""), whether one was streamed, the number of ids drawn, the bound
    conversation, and the events published except raw chunks.
   */
  datatype Core = Core(
    messageId: string,
    streamed: bool,
    drawn: nat,
    native: string,
    bound: bool,
    events: seq<Event>)

  const START: Core := Core("", false, 0, "", false, [])

  function NewId(env: Env, n: nat): (id: string)
    ensures id != ""
  {
    "msg_" + env.suffix(n)
  }

  function Emit(c: Core, e: Event): Core {
    c.(events := c.events + [e])
  }

  // ---- one line -----------------------------------------------------------------

  predicate IsBlankByte(c: char) {
    c == ' ' || c == '\t' || c == '\n' || c == '\r' || c as int == 12
  }

  function SkipBlanks(s: string): string {
    if s != "" && IsBlankByte(s[0]) then SkipBlanks(s[1..]) else s
  }

  /** Case-insensitive: the long s folds to s. */
  function Fold(c: char): char {
    if c as int == 0x17F then 's' else LowerChar(c)
  }

  predicate StreamName(s: string) {
    |s| == 6 && Fold(s[0]) == 's' && Fold(s[1]) == 't' && Fold(s[2]) == 'd'
    && ((Fold(s[3]) == 'o' && Fold(s[4]) == 'u' && Fold(s[5]) == 't')
        || (Fold(s[3]) == 'e' && Fold(s[4]) == 'r' && Fold(s[5]) == 'r'))
  }

  /** normalizeCursorPrefixedLine: drops a leading "stdout:" or "stderr:" before JSON. */
  function Unprefixed(line: string): string {
    if |line| < 6 || !StreamName(line[..6]) then line
    else
      var r := SkipBlanks(line[6..]);
      var s := if r != "" && (r[0] == ':' || r[0] == '=') then SkipBlanks(r[1..]) else r;
      if s != "" && (s[0] == '[' || s[0] == '{') then Trim(s) else line
  }

  function LineText(env: Env, raw: string): string {
    if env.mode == Paperclip then Unprefixed(Trim(raw)) else Trim(raw)
  }

  /** The decoded line, or None if the line is skipped. */
  function DecodeLine(env: Env, raw: string): Option<Decoded> {
    var line := LineText(env, raw);
    if line == "" || line[0] != '{' then None else env.decode(line)
  }

  function BindTo(c: Core, native: string): Core {
    if native == "" || (c.native == native && c.bound) then c
    else Emit(c.(native := native, bound := true), Bound(native))
  }

  /** A message published at once. */
  function Whole(c: Core, id: string, text: string): Core {
    Emit(Emit(Emit(c, Started(id)), Delta(id, text)), Completed(id))
  }

  function WholeNew(env: Env, c: Core, text: string): Core {
    Whole(c.(drawn := c.drawn + 1), NewId(env, c.drawn), text)
  }

  /** publishPaperclipJSONDelta */
  function StreamDelta(env: Env, c: Core, text: string): Core {
    if c.messageId == "" then
      var id := NewId(env, c.drawn);
      Emit(Emit(c.(messageId := id, drawn := c.drawn + 1, streamed := true), Started(id)), Delta(id, text))
    else Emit(c.(streamed := true), Delta(c.messageId, text))
  }

  function Finish(c: Core): Core {
    Emit(c.(messageId := ""), Completed(c.messageId))
  }

  function PaperclipText(env: Env, c: Core, d: Decoded): Core {
    if d.text == "" then c
    else if d.streaming then StreamDelta(env, c, d.text)
    else if !c.streamed then WholeNew(env, c, d.text)
    else c
  }

  function HandleDecoded(env: Env, core: Core, d: Decoded): Core {
    var c := BindTo(core, d.native);
    if env.mode == Paperclip then
      var p := PaperclipText(env, c, d);
      if d.terminal && p.messageId != "" then Finish(p).(streamed := false) else p
    else if d.text == "" then c
    else if env.mode == Opencode && d.messageId != "" then Whole(c, d.messageId, d.text)
    else WholeNew(env, c, d.text)
  }

  function HandleLine(env: Env, c: Core, raw: string): Core {
    var d := DecodeLine(env, raw);
    if d == None then c else HandleDecoded(env, c, d.value)
  }

  // ---- lines out of chunks --------------------------------------------------------

  /** strings.Split(s, "\n") */
  function Split(s: string): (lines: seq<string>)
    ensures |lines| >= 1
    decreases |s|
  {
    var i := NewLine(s);
    if i == |s| then [s] else [s[..i]] + Split(s[i + 1..])
  }

  function HandleAll(env: Env, c: Core, lines: seq<string>): Core
    decreases |lines|
  {
    if lines == [] then c else HandleAll(env, HandleLine(env, c, lines[0]), lines[1..])
  }

  /** All complete lines handled; what follows the last newline is carried over. */
  function Consume(env: Env, c: Core, buffer: string): (r: (Core, string))
    decreases |buffer|
  {
    var i := NewLine(buffer);
    if i == |buffer| then (c, buffer) else Consume(env, HandleLine(env, c, buffer[..i]), buffer[i + 1..])
  }

  // ---- the program ------------------------------------------------------------------

  function Silent(events: seq<Event>): seq<Event> {
    if events == [] then []
    else
      var front, e := Silent(events[..|events| - 1]), events[|events| - 1];
      if e.RawChunk? then front else front + [e]
  }

  lemma SilentAppend(a: seq<Event>, e: Event)
    ensures Silent(a + [e]) == if e.RawChunk? then Silent(a) else Silent(a) + [e]
  {
    assert (a + [e])[..|a|] == a;
  }

  datatype PaperclipState = PaperclipState(remainder: string, messageId: string, streamed: bool)

  class Pump {
    const env: Env
    var messageId: string
    var codexRemainder: string
    var opencodeRemainder: string
    var claudeCodeRemainder: string
    var paperclip: PaperclipState
    var drawn: nat
    var native: string
    var bound: bool
    var published: seq<Event>

    /** The state the specification speaks about. */
    ghost function View(): Core
      reads this
    {
      Core(if env.mode == Plain then messageId else paperclip.messageId,
           paperclip.streamed, drawn, native, bound, Silent(published))
    }

    ghost function Remainder(): string
      reads this
    {
      match env.mode
      case Codex => codexRemainder
      case Opencode => opencodeRemainder
      case ClaudeCode => claudeCodeRemainder
      case Paperclip => paperclip.remainder
      case Plain => ""
    }

    /** The message id of the other mode stays empty. */
    ghost predicate Valid()
      reads this
    {
      if env.mode == Plain then paperclip.messageId == "" && !paperclip.streamed else messageId == ""
    }

    constructor (env: Env)
      ensures this.env == env && Valid() && View() == START && Remainder() == "" && published == []
    {
      this.env := env;
      messageId, codexRemainder, opencodeRemainder, claudeCodeRemainder := "", "", "", "";
      paperclip := PaperclipState("", "", false);
      drawn, native, bound, published := 0, "", false, [];
    }

    method Publish(e: Event)
      modifies this`published
      ensures published == old(published) + [e]
      ensures Silent(published) == if e.RawChunk? then Silent(old(published)) else Silent(old(published)) + [e]
    {
      SilentAppend(published, e);
      published := published + [e];
    }

    method FreshId() returns (id: string)
      modifies this`drawn
      ensures id == NewId(env, old(drawn)) && drawn == old(drawn) + 1
    {
      id := "msg_" + env.suffix(drawn);
      drawn := drawn + 1;
    }

    method BindConversation(id: string)
      modifies this`native, this`bound, this`published
      ensures View() == BindTo(old(View()), id)
    {
      if id == "" { return; }
      var changed := native != id || !bound;
      native, bound := id, true;
      if changed { Publish(Bound(id)); }
    }

    method PublishWhole(id: string, text: string)
      modifies this`published
      ensures View() == Whole(old(View()), id, text)
    {
      hide Silent;
      Publish(Started(id));
      Publish(Delta(id, text));
      Publish(Completed(id));
    }

    /** publishPaperclipJSONDelta */
    method PublishDelta(text: string)
      requires env.mode == Paperclip
      modifies this`published, this`drawn, this`paperclip
      ensures paperclip.remainder == old(paperclip.remainder)
      ensures View() == StreamDelta(env, old(View()), text)
    {
      hide Silent;
      if paperclip.messageId == "" {
        var id := FreshId();
        paperclip := paperclip.(messageId := id);
        Publish(Started(id));
      }
      Publish(Delta(paperclip.messageId, text));
      paperclip := paperclip.(streamed := true);
    }

    /** One line of a JSON mode, as each of the four consumers handles it. */
    method ConsumeLine(raw: string)
      requires Valid() && env.mode != Plain
      modifies this`published, this`drawn, this`paperclip, this`native, this`bound
      ensures Valid() && paperclip.remainder == old(paperclip.remainder)
      ensures View() == HandleLine(env, old(View()), raw)
    {
      hide Silent, Trim, Unprefixed;
      var line := Trim(raw);
      if env.mode == Paperclip {
        line := Unprefixed(line);
      }
      if line == "" || line[0] != '{' { return; }
      var decoded := env.decode(line);
      if decoded == None { return; }
      var d := decoded.value;
      BindConversation(d.native);
      if env.mode == Paperclip {
        if d.text != "" {
          if d.streaming {
            PublishDelta(d.text);
          } else if !paperclip.streamed {
            var id := FreshId();
            PublishWhole(id, d.text);
          }
        }
        if d.terminal && paperclip.messageId != "" {
          Publish(Completed(paperclip.messageId));
          paperclip := paperclip.(messageId := "", streamed := false);
        }
        return;
      }
      if d.text == "" { return; }
      var id := if env.mode == Opencode then d.messageId else "";
      if id == "" {
        id := FreshId();
      }
      PublishWhole(id, d.text);
    }

    /** The reassembly shared by the four consumers. */
    method ConsumeOutput(data: string, remainder: string) returns (nextRemainder: string)
      requires Valid() && env.mode != Plain
      modifies this`published, this`drawn, this`paperclip, this`native, this`bound
      ensures Valid() && paperclip.remainder == old(paperclip.remainder)
      ensures (View(), nextRemainder) == Consume(env, old(View()), remainder + data)
    {
      hide HandleLine, Silent;
      var buffer := remainder + data;
      var lines := Split(buffer);
      SplitConsume(env, View(), buffer);
      nextRemainder := "";
      if buffer == "" || buffer[|buffer| - 1] != '\n' {
        nextRemainder := lines[|lines| - 1];
        lines := lines[..|lines| - 1];
      }
      ghost var start := View();
      for i := 0 to |lines|
        invariant Valid() && paperclip.remainder == old(paperclip.remainder)
        invariant HandleAll(env, View(), lines[i..]) == HandleAll(env, start, lines)
      {
        assert lines[i..][1..] == lines[i + 1..];
        ConsumeLine(lines[i]);
      }
    }

    /** Output of the current mode; a JSON mode consumes it, plain text is one delta. */
    method HandleOutput(data: string)
      requires Valid()
      modifies this
      ensures Valid()
      ensures (View(), Remainder()) == OnOutput(env, old(View()), old(Remainder()), data)
    {
      hide HandleLine, Consume, Silent;
      if data == "" { return; }
      Publish(RawChunk(data));
      match env.mode
      case Codex => codexRemainder := ConsumeOutput(data, codexRemainder);
      case Opencode => opencodeRemainder := ConsumeOutput(data, opencodeRemainder);
      case ClaudeCode => claudeCodeRemainder := ConsumeOutput(data, claudeCodeRemainder);
      case Paperclip =>
        var next := ConsumeOutput(data, paperclip.remainder);
        paperclip := paperclip.(remainder := next);
      case Plain => HandlePlain(data);
    }

    method HandlePlain(data: string)
      requires Valid() && env.mode == Plain
      modifies this`published, this`drawn, this`messageId, this`native, this`bound
      ensures Valid()
      ensures View() == OnPlain(env, old(View()), data)
    {
      hide Silent;
      var text := env.sanitize(data);
      if text == "" { return; }
      BindConversation(env.extractId(text));
      if messageId == "" {
        messageId := FreshId();
        Publish(Started(messageId));
      }
      Publish(Delta(messageId, text));
      if env.asksInput(data, text) {
        Publish(InputRequested);
        Publish(Completed(messageId));
        messageId := "";
      }
    }

    /** The exit: the unfinished line is flushed and an open message completed. */
    method HandleExit()
      requires Valid()
      modifies this
      ensures Valid()
      ensures (View(), Remainder()) == OnExit(env, old(View()), old(Remainder()))
    {
      hide HandleLine, Consume, Silent, Trim;
      Flush();
      if paperclip.messageId != "" {
        Publish(Completed(paperclip.messageId));
        paperclip := paperclip.(messageId := "");
      }
      if messageId != "" {
        Publish(Completed(messageId));
        messageId := "";
      }
      Publish(StateChanged);
    }

    /** A newline completes the unfinished line, unless it is blank. */
    method Flush()
      requires Valid()
      modifies this
      ensures Valid()
      ensures (View(), Remainder()) ==
              if env.mode != Plain && !Blank(old(Remainder())) then Consume(env, old(View()), old(Remainder()) + "\n")
              else (old(View()), old(Remainder()))
    {
      hide HandleLine, Consume, Silent, Trim;
      if env.mode == Codex && Trim(codexRemainder) != "" {
        codexRemainder := ConsumeOutput("\n", codexRemainder);
      }
      if env.mode == Opencode && Trim(opencodeRemainder) != "" {
        opencodeRemainder := ConsumeOutput("\n", opencodeRemainder);
      }
      if env.mode == ClaudeCode && Trim(claudeCodeRemainder) != "" {
        claudeCodeRemainder := ConsumeOutput("\n", claudeCodeRemainder);
      }
      if env.mode == Paperclip && Trim(paperclip.remainder) != "" {
        var next := ConsumeOutput("\n", paperclip.remainder);
        paperclip := paperclip.(remainder := next);
      }
    }

    method Handle(input: Input)
      requires Valid()
      modifies this
      ensures Valid()
      ensures (View(), Remainder()) == Step(env, old(View()), old(Remainder()), input)
    {
      hide OnOutput, OnExit;
      match input
      case Output(data) => HandleOutput(data);
      case Exited => HandleExit();
      case Changed => Publish(StateChanged);
      case Other =>
    }
  }

  /** Splitting and then handling the complete lines is consuming the buffer. */
  lemma {:induction false} SplitConsume(env: Env, c: Core, buffer: string)
    ensures var lines := Split(buffer);
            if buffer == "" || buffer[|buffer| - 1] != '\n'
            then Consume(env, c, buffer) == (HandleAll(env, c, lines[..|lines| - 1]), lines[|lines| - 1])
            else Consume(env, c, buffer) == (HandleAll(env, c, lines), "")
    decreases |buffer|
  {
    hide HandleLine, Trim, NewLine;
    var i, lines := NewLine(buffer), Split(buffer);
    if i < |buffer| {
      var rest := buffer[i + 1..];
      var c' := HandleLine(env, c, buffer[..i]);
      SplitConsume(env, c', rest);
      var more := Split(rest);
      assert lines == [buffer[..i]] + more;
      if rest == "" {
        assert more == [""] && lines[1..] == [""];
        BlankLineSkipped(env, c', "");
        assert HandleAll(env, c', [""]) == HandleAll(env, HandleLine(env, c', ""), []);
      } else {
        assert lines[..|lines| - 1][1..] == more[..|more| - 1] && lines[1..] == more;
      }
    }
  }

  /** A blank line is skipped in every mode. */
  lemma BlankLineSkipped(env: Env, c: Core, raw: string)
    ensures Blank(raw) ==> HandleLine(env, c, raw) == c
    ensures Blank("")
  {
  }

  // ---- the specification of one input ------------------------------------------------

  function OnPlain(env: Env, core: Core, data: string): Core {
    var text := env.sanitize(data);
    if text == "" then core
    else
      var b := BindTo(core, env.extractId(text));
      var c :=
        if b.messageId == "" then Emit(b.(messageId := NewId(env, b.drawn), drawn := b.drawn + 1), Started(NewId(env, b.drawn)))
        else b;
      var e := Emit(c, Delta(c.messageId, text));
      if env.asksInput(data, text) then Finish(Emit(e, InputRequested)) else e
  }

  function OnOutput(env: Env, c: Core, remainder: string, data: string): (Core, string) {
    if data == "" then (c, remainder)
    else if env.mode == Plain then (OnPlain(env, c, data), remainder)
    else Consume(env, c, remainder + data)
  }

  function OnExit(env: Env, core: Core, remainder: string): (Core, string) {
    var r := if env.mode != Plain && !Blank(remainder) then Consume(env, core, remainder + "\n") else (core, remainder);
    var c := if r.0.messageId == "" then r.0 else Finish(r.0);
    (Emit(c, StateChanged), r.1)
  }

  function Step(env: Env, c: Core, remainder: string, input: Input): (Core, string) {
    match input
    case Output(data) => OnOutput(env, c, remainder, data)
    case Exited => OnExit(env, c, remainder)
    case Changed => (Emit(c, StateChanged), remainder)
    case Other => (c, remainder)
  }

  function Run(env: Env, c: Core, remainder: string, inputs: seq<Input>): (Core, string)
    decreases |inputs|
  {
    if inputs == [] then (c, remainder)
    else
      var r := Step(env, c, remainder, inputs[0]);
      Run(env, r.0, r.1, inputs[1..])
  }
}
