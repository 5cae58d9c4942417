/**
  What a viewer is told: the texts, ids and notices a run of the pump publishes,
  given by listening to the decoded lines (or, in plain mode, the chunks) alone.
 */
module LiveContent {
  import opened Model
  import opened Text
  import opened LiveStream
  import opened LiveFacts

  /** A complete message: the id the agent gave it, or "", and its texts. */
  datatype Spoken = Spoken(name: string, texts: seq<string>)

  /**
    The complete messages so far; the texts of the one still open; whether the exit
    cut a streamed message off, so that its repetition as a whole is not told again;
    the agent's conversation id; and the other events.
   */
  datatype Heard = Heard(said: seq<Spoken>, current: seq<string>, hushed: bool, native: string, notices: seq<Event>)

  const SILENCE: Heard := Heard([], [], false, "", [])

  // ---- listening ------------------------------------------------------------------------

  function Notice(h: Heard, e: Event): Heard {
    h.(notices := h.notices + [e])
  }

  /** A conversation id is announced when it is new. */
  function Learn(h: Heard, native: string): Heard {
    if native == "" || native == h.native then h else Notice(h.(native := native), Bound(native))
  }

  function Say(h: Heard, s: Spoken): Heard {
    h.(said := h.said + [s])
  }

  function EndMessage(h: Heard): Heard {
    if h.current == [] then h else Say(h, Spoken("", h.current)).(current := [])
  }

  /**
    A streaming line adds its text to the open message. A whole one is a message of
    its own, except while or after it was streamed. A terminal line ends the open message.
   */
  function ListenStreaming(h: Heard, d: Decoded): Heard {
    var a :=
      if d.text == "" then h
      else if d.streaming then h.(current := h.current + [d.text])
      else if h.current == [] && !h.hushed then Say(h, Spoken("", [d.text]))
      else h;
    if d.terminal && a.current != [] then EndMessage(a).(hushed := false) else a
  }

  /** Every line with text is one message; only opencode names it. */
  function ListenWhole(mode: Mode, h: Heard, d: Decoded): Heard {
    if d.text == "" then h
    else if mode == Opencode then Say(h, Spoken(d.messageId, [d.text]))
    else Say(h, Spoken("", [d.text]))
  }

  function Listen(env: Env, h: Heard, raw: string): Heard {
    var d := DecodeLine(env, raw);
    if d == None then h
    else if env.mode == Paperclip then ListenStreaming(Learn(h, d.value.native), d.value)
    else ListenWhole(env.mode, Learn(h, d.value.native), d.value)
  }

  function ListenAll(env: Env, h: Heard, lines: seq<string>): Heard
    decreases |lines|
  {
    if lines == [] then h else ListenAll(env, Listen(env, h, lines[0]), lines[1..])
  }

  /** A chunk of plain output that is not empty once sanitized; a request for input ends the message. */
  function ListenPlain(env: Env, h: Heard, data: string): Heard {
    var text := env.sanitize(data);
    if text == "" then h
    else
      var l := Learn(h, env.extractId(text));
      var a := l.(current := l.current + [text]);
      if env.asksInput(data, text) then EndMessage(Notice(a, InputRequested)) else a
  }

  /** The exit ends the open message. */
  function HangUp(h: Heard): Heard {
    Notice(EndMessage(h).(hushed := h.hushed || h.current != []), StateChanged)
  }

  /** A whole run: what was heard, and the unfinished line. */
  function Attend(env: Env, h: Heard, remainder: string, inputs: seq<Input>): (Heard, string)
    decreases |inputs|
  {
    if inputs == [] then (h, remainder)
    else
      match inputs[0]
      case Output(data) =>
        if data == "" then Attend(env, h, remainder, inputs[1..])
        else if env.mode == Plain then Attend(env, ListenPlain(env, h, data), remainder, inputs[1..])
        else
          var lines := Split(remainder + data);
          Attend(env, ListenAll(env, h, lines[..|lines| - 1]), lines[|lines| - 1], inputs[1..])
      case Exited =>
        if env.mode == Plain || Blank(remainder) then Attend(env, HangUp(h), remainder, inputs[1..])
        else Attend(env, HangUp(Listen(env, h, remainder)), "", inputs[1..])
      case Changed => Attend(env, Notice(h, StateChanged), remainder, inputs[1..])
      case Other => Attend(env, h, remainder, inputs[1..])
  }

  // ---- telling ----------------------------------------------------------------------------

  /** How many messages got an id of the program's own. */
  function Unnamed(said: seq<Spoken>): nat {
    if said == [] then 0 else Unnamed(said[..|said| - 1]) + if said[|said| - 1].name == "" then 1 else 0
  }

  function OwnId(env: Env, n: nat): string {
    "msg_" + env.suffix(n)
  }

  /** The messages with their ids: the agent's, or the next of the program's own. */
  function Brackets(env: Env, said: seq<Spoken>): (bs: seq<Bracket>)
    ensures |bs| == |said|
  {
    if said == [] then []
    else
      var front, s := said[..|said| - 1], said[|said| - 1];
      Brackets(env, front) + [Bracket(if s.name != "" then s.name else OwnId(env, Unnamed(front)), s.texts)]
  }

  /** The message events for what was heard. */
  function Told(env: Env, h: Heard): seq<Event> {
    Render(Brackets(env, h.said))
    + if h.current == [] then [] else Opening(Bracket(OwnId(env, Unnamed(h.said)), h.current))
  }

  function Notices(events: seq<Event>): seq<Event> {
    if events == [] then []
    else
      var front, e := Notices(events[..|events| - 1]), events[|events| - 1];
      if e.Bound? || e.InputRequested? || e.StateChanged? then front + [e] else front
  }

  /** The pump has published exactly what was heard. */
  ghost predicate Tells(env: Env, c: Core, h: Heard) {
    && Messages(c.events) == Told(env, h)
    && Notices(c.events) == h.notices
    && c.messageId == (if h.current == [] then "" else OwnId(env, Unnamed(h.said)))
    && c.drawn == Unnamed(h.said) + (if h.current == [] then 0 else 1)
    && c.native == h.native && c.bound == (h.native != "")
    && (env.mode == Paperclip ==> c.streamed == (h.current != [] || h.hushed))
    && (env.mode != Paperclip && env.mode != Plain ==> h.current == [])
  }

  lemma EmitTold(c: Core, e: Event)
    ensures Messages(Emit(c, e).events) ==
            if e.Started? || e.Delta? || e.Completed? then Messages(c.events) + [e] else Messages(c.events)
    ensures Notices(Emit(c, e).events) ==
            if e.Bound? || e.InputRequested? || e.StateChanged? then Notices(c.events) + [e] else Notices(c.events)
  {
    assert (c.events + [e])[..|c.events|] == c.events;
  }

  lemma BracketsSnoc(env: Env, said: seq<Spoken>, s: Spoken)
    ensures Unnamed(said + [s]) == Unnamed(said) + if s.name == "" then 1 else 0
    ensures Render(Brackets(env, said + [s])) ==
            Render(Brackets(env, said)) + Opening(Bracket(if s.name != "" then s.name else OwnId(env, Unnamed(said)), s.texts))
            + [Completed(if s.name != "" then s.name else OwnId(env, Unnamed(said)))]
  {
    hide Opening;
    assert (said + [s])[..|said|] == said;
    var b := Bracket(if s.name != "" then s.name else OwnId(env, Unnamed(said)), s.texts);
    assert Brackets(env, said + [s]) == Brackets(env, said) + [b];
    assert (Brackets(env, said) + [b])[..|said|] == Brackets(env, said);
  }

  lemma OpeningSnoc(id: string, texts: seq<string>, text: string)
    ensures Opening(Bracket(id, texts + [text])) == Opening(Bracket(id, texts)) + [Delta(id, text)]
    ensures Opening(Bracket(id, [])) == [Started(id)]
    ensures Opening(Bracket(id, [text])) == [Started(id), Delta(id, text)]
  {
    var a, b := Opening(Bracket(id, texts + [text])), Opening(Bracket(id, texts)) + [Delta(id, text)];
    forall i | 0 <= i < |a| ensures a[i] == b[i] {
      if 0 < i <= |texts| { assert (texts + [text])[i - 1] == texts[i - 1]; }
    }
    assert [text][0] == text;
  }

  lemma NoticeTells(env: Env, c: Core, h: Heard, e: Event)
    requires Tells(env, c, h) && (e.Bound? || e.InputRequested? || e.StateChanged?)
    ensures Tells(env, Emit(c, e), Notice(h, e))
  {
    hide Render, Brackets, Opening, Messages, Notices, Unnamed, OwnId;
    EmitTold(c, e);
  }

  lemma LearnTells(env: Env, c: Core, h: Heard, native: string)
    requires Tells(env, c, h)
    ensures Tells(env, BindTo(c, native), Learn(h, native))
  {
    hide Render, Brackets, Opening, Messages, Notices, Unnamed, OwnId;
    EmitTold(c.(native := native, bound := true), Bound(native));
  }

  /** A message published at once. */
  lemma SayTells(env: Env, c: Core, h: Heard, name: string, text: string)
    requires Tells(env, c, h) && h.current == []
    ensures name != "" ==> Tells(env, Whole(c, name, text), Say(h, Spoken(name, [text])))
    ensures Tells(env, WholeNew(env, c, text), Say(h, Spoken("", [text])))
  {
    hide Messages, Notices, Unnamed, Render, Opening, Brackets;
    WholeTold(c, name, text);
    BracketsSnoc(env, h.said, Spoken(name, [text]));
    OpeningSnoc(name, [], text);
    var id := OwnId(env, Unnamed(h.said));
    WholeTold(c.(drawn := c.drawn + 1), id, text);
    BracketsSnoc(env, h.said, Spoken("", [text]));
    OpeningSnoc(id, [], text);
  }

  lemma WholeTold(c: Core, id: string, text: string)
    ensures Messages(Whole(c, id, text).events) == Messages(c.events) + [Started(id), Delta(id, text), Completed(id)]
    ensures Notices(Whole(c, id, text).events) == Notices(c.events)
  {
    hide Messages, Notices;
    var c1 := Emit(c, Started(id));
    var c2 := Emit(c1, Delta(id, text));
    EmitTold(c, Started(id));
    EmitTold(c1, Delta(id, text));
    EmitTold(c2, Completed(id));
  }

  /** A delta of the open message, which it starts if need be. */
  lemma DeltaTells(env: Env, c: Core, h: Heard, text: string)
    requires Tells(env, c, h) && (env.mode == Paperclip || env.mode == Plain)
    ensures var id := OwnId(env, Unnamed(h.said));
            var s := if h.current == [] then Emit(c.(messageId := id, drawn := c.drawn + 1), Started(id)) else c;
            var e := Emit(s, Delta(id, text));
            Tells(env, if env.mode == Paperclip then e.(streamed := true) else e, h.(current := h.current + [text]))
  {
    hide Messages, Notices, Unnamed, Render, Opening, Brackets, OwnId;
    var id := OwnId(env, Unnamed(h.said));
    var s := if h.current == [] then Emit(c.(messageId := id, drawn := c.drawn + 1), Started(id)) else c;
    EmitTold(c.(messageId := id, drawn := c.drawn + 1), Started(id));
    EmitTold(s, Delta(id, text));
    OpeningSnoc(id, h.current, text);
  }

  lemma FinishTells(env: Env, c: Core, h: Heard)
    requires Tells(env, c, h) && h.current != []
    ensures Tells(env, Finish(c).(streamed := false), EndMessage(h).(hushed := false))
    ensures Tells(env, Finish(c), EndMessage(h).(hushed := true))
    ensures env.mode == Plain ==> Tells(env, Finish(c), EndMessage(h))
  {
    hide Messages, Notices, Unnamed, Render, Opening, Brackets, OwnId;
    EmitTold(c.(messageId := ""), Completed(c.messageId));
    BracketsSnoc(env, h.said, Spoken("", h.current));
  }

  lemma OwnIdIsNotEmpty(env: Env, n: nat)
    ensures OwnId(env, n) == NewId(env, n) && OwnId(env, n) != ""
  {
  }

  lemma LineTells(env: Env, c: Core, h: Heard, raw: string)
    requires Tells(env, c, h) && env.mode != Plain
    ensures Tells(env, HandleLine(env, c, raw), Listen(env, h, raw))
  {
    hide Told, Messages, Notices, Unnamed, OwnId, DecodeLine, ListenStreaming, Learn, BindTo;
    var d := DecodeLine(env, raw);
    if d != None {
      LearnTells(env, c, h, d.value.native);
      var b, l := BindTo(c, d.value.native), Learn(h, d.value.native);
      if env.mode == Paperclip {
        StreamingTells(env, b, l, d.value);
      } else if d.value.text != "" {
        SayTells(env, b, l, d.value.messageId, d.value.text);
      }
    }
  }

  lemma StreamingTells(env: Env, c: Core, h: Heard, d: Decoded)
    requires Tells(env, c, h) && env.mode == Paperclip
    ensures var p := PaperclipText(env, c, d);
            Tells(env, if d.terminal && p.messageId != "" then Finish(p).(streamed := false) else p, ListenStreaming(h, d))
  {
    hide Told, Messages, Notices, Unnamed, OwnId;
    var a :=
      if d.text == "" then h
      else if d.streaming then h.(current := h.current + [d.text])
      else if h.current == [] && !h.hushed then Say(h, Spoken("", [d.text]))
      else h;
    OwnIdIsNotEmpty(env, Unnamed(h.said));
    OwnIdIsNotEmpty(env, Unnamed(a.said));
    if d.text != "" && d.streaming {
      DeltaTells(env, c, h, d.text);
    } else if d.text != "" && h.current == [] {
      SayTells(env, c, h, "", d.text);
    }
    var p := PaperclipText(env, c, d);
    assert Tells(env, p, a);
    if a.current != [] { FinishTells(env, p, a); }
  }

  lemma {:induction false} LinesTell(env: Env, c: Core, h: Heard, lines: seq<string>)
    requires Tells(env, c, h) && env.mode != Plain
    ensures Tells(env, HandleAll(env, c, lines), ListenAll(env, h, lines))
    decreases |lines|
  {
    hide Tells, HandleLine, Listen;
    if lines != [] {
      LineTells(env, c, h, lines[0]);
      LinesTell(env, HandleLine(env, c, lines[0]), Listen(env, h, lines[0]), lines[1..]);
    }
  }

  lemma PlainTells(env: Env, c: Core, h: Heard, data: string)
    requires Tells(env, c, h) && env.mode == Plain
    ensures Tells(env, OnPlain(env, c, data), ListenPlain(env, h, data))
  {
    hide Told, Messages, Notices, Unnamed, OwnId, Learn, BindTo;
    var text := env.sanitize(data);
    if text != "" {
      LearnTells(env, c, h, env.extractId(text));
      var b, l := BindTo(c, env.extractId(text)), Learn(h, env.extractId(text));
      OwnIdIsNotEmpty(env, Unnamed(l.said));
      DeltaTells(env, b, l, text);
      var id := OwnId(env, Unnamed(l.said));
      var s := if l.current == [] then Emit(b.(messageId := id, drawn := b.drawn + 1), Started(id)) else b;
      var e, a := Emit(s, Delta(id, text)), l.(current := l.current + [text]);
      if env.asksInput(data, text) {
        NoticeTells(env, e, a, InputRequested);
        FinishTells(env, Emit(e, InputRequested), Notice(a, InputRequested));
      }
    }
  }

  lemma HangUpTells(env: Env, c: Core, h: Heard)
    requires Tells(env, c, h)
    ensures Tells(env, Closed(c), HangUp(h))
  {
    hide Told, Messages, Notices, Unnamed, OwnId;
    OwnIdIsNotEmpty(env, Unnamed(h.said));
    if h.current != [] {
      FinishTells(env, c, h);
      NoticeTells(env, Finish(c), EndMessage(h).(hushed := true), StateChanged);
    } else {
      NoticeTells(env, c, h, StateChanged);
    }
  }

  /** Consuming a buffer handles all pieces but the last, which is carried over. */
  lemma ConsumeIsSplit(env: Env, c: Core, buffer: string)
    ensures var lines := Split(buffer);
            Consume(env, c, buffer) == (HandleAll(env, c, lines[..|lines| - 1]), lines[|lines| - 1])
  {
    hide HandleLine, Trim;
    SplitConsume(env, c, buffer);
    if buffer != "" && buffer[|buffer| - 1] == '\n' {
      var lines := Split(buffer);
      LastPieceIsEmpty(buffer);
      assert lines == lines[..|lines| - 1] + [""];
      HandleAllLast(env, c, lines[..|lines| - 1], "");
      BlankLineSkipped(env, HandleAll(env, c, lines[..|lines| - 1]), "");
    }
  }

  lemma {:induction false} LastPieceIsEmpty(s: string)
    requires s != "" && s[|s| - 1] == '\n'
    ensures Split(s)[|Split(s)| - 1] == ""
    decreases |s|
  {
    var i := NewLine(s);
    if s[i + 1..] != "" {
      LastPieceIsEmpty(s[i + 1..]);
    }
  }

  lemma StepTells(env: Env, c: Core, h: Heard, remainder: string, input: Input)
    requires Tells(env, c, h) && '\n' !in remainder
    ensures var r, a := Step(env, c, remainder, input), Attend(env, h, remainder, [input]);
            Tells(env, r.0, a.0) && r.1 == a.1 && '\n' !in r.1
  {
    hide Tells, HandleLine, Listen, Consume, HandleAll, ListenAll, OnPlain, ListenPlain, HangUp;
    AttendOne(env, h, remainder, input);
    match input
    case Output(data) =>
      if data != "" && env.mode == Plain {
        PlainTells(env, c, h, data);
      } else if data != "" {
        ConsumeIsSplit(env, c, remainder + data);
        RemainderHasNoNewline(env, c, remainder + data);
        var lines := Split(remainder + data);
        LinesTell(env, c, h, lines[..|lines| - 1]);
      }
    case Exited =>
      if env.mode == Plain || Blank(remainder) {
        HangUpTells(env, c, h);
      } else {
        NoNewlineNothingConsumed(env, c, remainder);
        LineTells(env, c, h, remainder);
        HangUpTells(env, HandleLine(env, c, remainder), Listen(env, h, remainder));
      }
    case Changed => NoticeTells(env, c, h, StateChanged);
    case Other =>
  }

  /** One input at a time. */
  lemma AttendOne(env: Env, h: Heard, remainder: string, input: Input)
    ensures Attend(env, h, remainder, [input]) ==
            match input
            case Output(data) =>
              if data == "" then (h, remainder)
              else if env.mode == Plain then (ListenPlain(env, h, data), remainder)
              else
                var lines := Split(remainder + data);
                (ListenAll(env, h, lines[..|lines| - 1]), lines[|lines| - 1])
            case Exited =>
              if env.mode == Plain || Blank(remainder) then (HangUp(h), remainder)
              else (HangUp(Listen(env, h, remainder)), "")
            case Changed => (Notice(h, StateChanged), remainder)
            case Other => (h, remainder)
  {
    hide Listen, ListenAll, ListenPlain, HangUp, Split, Blank;
    assert [input][1..] == [];
  }

  lemma AttendStep(env: Env, h: Heard, remainder: string, inputs: seq<Input>)
    requires inputs != []
    ensures var a := Attend(env, h, remainder, [inputs[0]]);
            Attend(env, h, remainder, inputs) == Attend(env, a.0, a.1, inputs[1..])
  {
    hide Listen, ListenAll, ListenPlain, HangUp, Split, Blank, Notice;
    assert [inputs[0]][1..] == [];
  }

  lemma {:induction false} RunTells(env: Env, c: Core, h: Heard, remainder: string, inputs: seq<Input>)
    requires Tells(env, c, h) && '\n' !in remainder
    ensures Tells(env, Run(env, c, remainder, inputs).0, Attend(env, h, remainder, inputs).0)
    decreases |inputs|
  {
    hide Tells, Step;
    if inputs == [] {
      AttendNothing(env, h, remainder);
    } else {
      hide Attend;
      StepTells(env, c, h, remainder, inputs[0]);
      AttendStep(env, h, remainder, inputs);
      var r, a := Step(env, c, remainder, inputs[0]), Attend(env, h, remainder, [inputs[0]]);
      RunTells(env, r.0, a.0, r.1, inputs[1..]);
    }
  }

  lemma AttendNothing(env: Env, h: Heard, remainder: string)
    ensures Attend(env, h, remainder, []) == (h, remainder)
  {
  }

  lemma SilenceTells(env: Env)
    ensures Tells(env, START, SILENCE)
  {
  }

  /**
    On every run, in every mode, exactly what was heard is told: the message events
    are the messages heard, with their texts and ids, and the open one; the other
    events are the notices.
   */
  lemma EverythingIsTold(env: Env, inputs: seq<Input>)
    ensures var c, h := Run(env, START, "", inputs).0, Attend(env, SILENCE, "", inputs).0;
            && Messages(c.events) == Told(env, h)
            && Notices(c.events) == h.notices
            && c.native == h.native && (c.messageId != "" <==> h.current != [])
  {
    SilenceTells(env);
    RunTells(env, START, SILENCE, "", inputs);
    var h := Attend(env, SILENCE, "", inputs).0;
    OwnIdIsNotEmpty(env, Unnamed(h.said));
    hide Run, Attend, Told, OwnId;
  }

  // ---- the modes without streaming, line by line ---------------------------------------------

  /** The decoded lines that have text, in order. */
  function WithText(env: Env, lines: seq<string>): seq<Decoded>
  {
    if lines == [] then []
    else
      var front, d := WithText(env, lines[..|lines| - 1]), DecodeLine(env, lines[|lines| - 1]);
      if d != None && d.value.text != "" then front + [d.value] else front
  }

  lemma {:induction false} ListenLast(env: Env, h: Heard, lines: seq<string>, last: string)
    ensures ListenAll(env, h, lines + [last]) == Listen(env, ListenAll(env, h, lines), last)
    decreases |lines|
  {
    hide Listen;
    if lines == [] {
      assert [last][1..] == [];
    } else {
      assert (lines + [last])[1..] == lines[1..] + [last];
      ListenLast(env, Listen(env, h, lines[0]), lines[1..], last);
    }
  }

  lemma {:induction false} OneMessageALine(env: Env, lines: seq<string>)
    requires env.mode == Codex || env.mode == Opencode || env.mode == ClaudeCode
    ensures var h, ds := ListenAll(env, SILENCE, lines), WithText(env, lines);
            && h.current == [] && |h.said| == |ds|
            && (forall i :: 0 <= i < |ds| ==>
                  h.said[i] == Spoken(if env.mode == Opencode then ds[i].messageId else "", [ds[i].text]))
    decreases |lines|
  {
    hide DecodeLine;
    if lines != [] {
      var front, last := lines[..|lines| - 1], lines[|lines| - 1];
      assert lines == front + [last];
      OneMessageALine(env, front);
      ListenLast(env, SILENCE, front, last);
      hide ListenAll;
    }
  }

  /**
    Codex, opencode and claudecode, over every output cut into chunks in any way and
    then the exit: the messages told are, in order, one for each line that decodes
    to some text, with just this text, and for opencode with the id the line names.
   */
  lemma EveryLineIsAMessage(env: Env, chunks: seq<string>) returns (bs: seq<Bracket>)
    requires env.mode == Codex || env.mode == Opencode || env.mode == ClaudeCode
    ensures var r := Run(env, START, "", Outputs(chunks));
            Messages(OnExit(env, r.0, r.1).0.events) == Render(bs)
    ensures var ds := WithText(env, Split(Concat(chunks)));
            && |bs| == |ds|
            && (forall i :: 0 <= i < |ds| ==> bs[i].texts == [ds[i].text])
            && (forall i :: 0 <= i < |ds| && env.mode == Opencode && ds[i].messageId != "" ==> bs[i].id == ds[i].messageId)
  {
    hide Run, OnExit, Listen, HandleLine, Split, Render, Opening, Unnamed, Messages, Notices, WithText;
    var lines := Split(Concat(chunks));
    var h := ListenAll(env, SILENCE, lines);
    ExitFlushes(env, chunks);
    SilenceTells(env);
    LinesTell(env, START, SILENCE, lines);
    HangUpTells(env, HandleAll(env, START, lines), h);
    OneMessageALine(env, lines);
    bs := Brackets(env, h.said);
    forall i | 0 <= i < |h.said|
      ensures bs[i].texts == h.said[i].texts && (h.said[i].name != "" ==> bs[i].id == h.said[i].name)
    {
      BracketAt(env, h.said, i);
    }
    assert Render(bs) + [] == Render(bs);
  }

  lemma {:induction false} BracketAt(env: Env, said: seq<Spoken>, i: nat)
    requires i < |said|
    ensures Brackets(env, said)[i] ==
            Bracket(if said[i].name != "" then said[i].name else OwnId(env, Unnamed(said[..i])), said[i].texts)
  {
    hide OwnId, Unnamed;
    if i < |said| - 1 {
      BracketAt(env, said[..|said| - 1], i);
      assert said[..|said| - 1][..i] == said[..i];
    }
  }

  /** The streaming modes likewise: what is told at the exit is what was heard line by line. */
  lemma EveryStreamIsTold(env: Env, chunks: seq<string>)
    requires env.mode != Plain
    ensures var r, h := Run(env, START, "", Outputs(chunks)), HangUp(ListenAll(env, SILENCE, Split(Concat(chunks))));
            && Messages(OnExit(env, r.0, r.1).0.events) == Render(Brackets(env, h.said))
            && Notices(OnExit(env, r.0, r.1).0.events) == h.notices
  {
    hide Run, OnExit, Listen, HandleLine, Split, Render, Opening, Unnamed, Messages, Notices, Brackets;
    var lines := Split(Concat(chunks));
    var h := ListenAll(env, SILENCE, lines);
    ExitFlushes(env, chunks);
    SilenceTells(env);
    LinesTell(env, START, SILENCE, lines);
    HangUpTells(env, HandleAll(env, START, lines), h);
    assert HangUp(h).current == [];
    var bs := Brackets(env, HangUp(h).said);
    assert Render(bs) + [] == Render(bs);
  }

  // ---- the texts alone -------------------------------------------------------------------------

  /** The texts of all deltas, in order. */
  function DeltaTexts(events: seq<Event>): seq<string> {
    if events == [] then []
    else
      var front, e := DeltaTexts(events[..|events| - 1]), events[|events| - 1];
      if e.Delta? then front + [e.text] else front
  }

  function SaidTexts(said: seq<Spoken>): seq<string> {
    if said == [] then [] else SaidTexts(said[..|said| - 1]) + said[|said| - 1].texts
  }

  /** All texts heard, in order. */
  function HeardTexts(h: Heard): seq<string> {
    SaidTexts(h.said) + h.current
  }

  lemma {:induction false} DeltasConcat(a: seq<Event>, b: seq<Event>)
    ensures DeltaTexts(a + b) == DeltaTexts(a) + DeltaTexts(b)
  {
    if b == [] {
      assert a + b == a;
    } else {
      assert (a + b)[..|a + b| - 1] == a + b[..|b| - 1];
      DeltasConcat(a, b[..|b| - 1]);
    }
  }

  lemma {:induction false} DeltasOfMessages(events: seq<Event>)
    ensures DeltaTexts(Messages(events)) == DeltaTexts(events)
  {
    if events != [] {
      var front, e := events[..|events| - 1], events[|events| - 1];
      DeltasOfMessages(front);
      assert (Messages(front) + [e])[..|Messages(front)|] == Messages(front);
    }
  }

  lemma {:induction false} DeltasOfOpening(id: string, texts: seq<string>)
    ensures DeltaTexts(Opening(Bracket(id, texts))) == texts
  {
    OpeningSnoc(id, [], "");
    if texts == [] {
      assert [Started(id)][..0] == [];
    } else {
      var front, last := texts[..|texts| - 1], texts[|texts| - 1];
      assert texts == front + [last];
      OpeningSnoc(id, front, last);
      DeltasOfOpening(id, front);
      var o := Opening(Bracket(id, front));
      assert (o + [Delta(id, last)])[..|o|] == o;
    }
  }

  lemma {:induction false} DeltasOfBrackets(env: Env, said: seq<Spoken>)
    ensures DeltaTexts(Render(Brackets(env, said))) == SaidTexts(said)
  {
    if said != [] {
      var front, s := said[..|said| - 1], said[|said| - 1];
      assert said == front + [s];
      DeltasOfBrackets(env, front);
      BracketsSnoc(env, front, s);
      var id := if s.name != "" then s.name else OwnId(env, Unnamed(front));
      hide Render, Brackets, Opening, Unnamed, OwnId;
      var r, o := Render(Brackets(env, front)), Opening(Bracket(id, s.texts));
      DeltasConcat(r, o);
      DeltasOfOpening(id, s.texts);
      assert (r + o + [Completed(id)])[..|r + o|] == r + o;
    }
  }

  /** The deltas published are the texts heard. */
  lemma TextsAreTold(env: Env, c: Core, h: Heard)
    requires Tells(env, c, h)
    ensures DeltaTexts(c.events) == HeardTexts(h)
  {
    hide Render, Brackets, Opening, Messages, Notices, Unnamed, OwnId, DeltaTexts, SaidTexts;
    DeltasOfMessages(c.events);
    DeltasOfBrackets(env, h.said);
    var open := if h.current == [] then [] else Opening(Bracket(OwnId(env, Unnamed(h.said)), h.current));
    DeltasConcat(Render(Brackets(env, h.said)), open);
    DeltasOfOpening(OwnId(env, Unnamed(h.said)), h.current);
    assert DeltaTexts([]) == [] by { NoDeltas(); }
  }

  lemma NoDeltas()
    ensures DeltaTexts([]) == []
  {
  }

  lemma SaidSnoc(said: seq<Spoken>, s: Spoken)
    ensures SaidTexts(said + [s]) == SaidTexts(said) + s.texts
  {
    assert (said + [s])[..|said|] == said;
  }

  function DecodedLines(env: Env, lines: seq<string>): seq<Decoded> {
    if lines == [] then []
    else
      var front, d := DecodedLines(env, lines[..|lines| - 1]), DecodeLine(env, lines[|lines| - 1]);
      if d == None then front else front + [d.value]
  }

  /** Before line `n` a streamed text came that no terminal line has ended yet. */
  ghost predicate StreamOpen(ds: seq<Decoded>, n: nat)
    requires n <= |ds|
  {
    exists j :: 0 <= j < n && ds[j].streaming && ds[j].text != "" && Unended(ds, j, n)
  }

  ghost predicate Unended(ds: seq<Decoded>, j: nat, n: nat)
    requires n <= |ds|
  {
    forall k :: j <= k < n ==> !ds[k].terminal
  }

  /** The texts of the streaming lines, and of the whole lines that come while no stream is open. */
  ghost function StreamTexts(ds: seq<Decoded>, n: nat): seq<string>
    requires n <= |ds|
  {
    if n == 0 then []
    else if ds[n - 1].text != "" && (ds[n - 1].streaming || !StreamOpen(ds, n - 1))
    then StreamTexts(ds, n - 1) + [ds[n - 1].text]
    else StreamTexts(ds, n - 1)
  }

  lemma StreamOpenStep(ds: seq<Decoded>, n: nat)
    requires n < |ds|
    ensures StreamOpen(ds, n + 1) <==>
            !ds[n].terminal && (StreamOpen(ds, n) || (ds[n].streaming && ds[n].text != ""))
    ensures !StreamOpen(ds, 0)
  {
    if StreamOpen(ds, n + 1) {
      var j :| 0 <= j < n + 1 && ds[j].streaming && ds[j].text != "" && Unended(ds, j, n + 1);
      assert j < n ==> Unended(ds, j, n);
    }
    if StreamOpen(ds, n) && !ds[n].terminal {
      var j :| 0 <= j < n && ds[j].streaming && ds[j].text != "" && Unended(ds, j, n);
      assert Unended(ds, j, n + 1);
    }
    if ds[n].streaming && ds[n].text != "" && !ds[n].terminal {
      assert Unended(ds, n, n + 1);
    }
  }

  lemma {:induction false} StreamPrefix(ds: seq<Decoded>, d: Decoded, n: nat)
    requires n <= |ds|
    ensures StreamTexts(ds + [d], n) == StreamTexts(ds, n) && (StreamOpen(ds + [d], n) <==> StreamOpen(ds, n))
  {
    forall j: nat | j < n ensures Unended(ds + [d], j, n) <==> Unended(ds, j, n) {
      assert forall k :: j <= k < n ==> (ds + [d])[k] == ds[k];
    }
    assert forall j :: 0 <= j < n ==> (ds + [d])[j] == ds[j];
    if n > 0 { StreamPrefix(ds, d, n - 1); }
  }

  lemma {:induction false} StreamHeard(env: Env, lines: seq<string>)
    requires env.mode == Paperclip
    ensures var h, ds := ListenAll(env, SILENCE, lines), DecodedLines(env, lines);
            && !h.hushed && (h.current != [] <==> StreamOpen(ds, |ds|))
            && HeardTexts(h) == StreamTexts(ds, |ds|)
    decreases |lines|
  {
    hide DecodeLine, StreamOpen, SaidTexts;
    if lines == [] {
      NothingStreamed();
    } else {
      var front, last := lines[..|lines| - 1], lines[|lines| - 1];
      assert lines == front + [last];
      StreamHeard(env, front);
      ListenLast(env, SILENCE, front, last);
      var h, ds, d := ListenAll(env, SILENCE, front), DecodedLines(env, front), DecodeLine(env, last);
      hide ListenAll;
      if d != None {
        StreamPrefix(ds, d.value, |ds|);
        StreamOpenStep(ds + [d.value], |ds|);
        ListenedTexts(Learn(h, d.value.native), d.value);
      }
    }
  }

  lemma NothingStreamed()
    ensures !StreamOpen([], 0) && SaidTexts([]) == []
  {
  }

  lemma ListenedTexts(h: Heard, d: Decoded)
    requires !h.hushed
    ensures var a := ListenStreaming(h, d);
            && !a.hushed
            && (a.current != [] <==> !d.terminal && (h.current != [] || (d.streaming && d.text != "")))
            && HeardTexts(a) == if d.text != "" && (d.streaming || h.current == []) then HeardTexts(h) + [d.text] else HeardTexts(h)
  {
    hide SaidTexts;
    SaidSnoc(h.said, Spoken("", [d.text]));
    SaidSnoc(h.said, Spoken("", h.current + [d.text]));
    SaidSnoc(h.said, Spoken("", h.current));
  }

  /**
    The streaming modes, over every output cut into chunks in any way and then the
    exit: the deltas told are the texts of the streaming lines, and of the whole
    lines that come while no stream is open.
   */
  lemma StreamedTextsAreTold(env: Env, chunks: seq<string>)
    requires env.mode == Paperclip
    ensures var r, ds := Run(env, START, "", Outputs(chunks)), DecodedLines(env, Split(Concat(chunks)));
            DeltaTexts(OnExit(env, r.0, r.1).0.events) == StreamTexts(ds, |ds|)
  {
    hide Run, OnExit, Listen, HandleLine, Split, Tells, DecodedLines, StreamTexts, SaidTexts;
    var lines := Split(Concat(chunks));
    var h := ListenAll(env, SILENCE, lines);
    ExitFlushes(env, chunks);
    SilenceTells(env);
    LinesTell(env, START, SILENCE, lines);
    HangUpTells(env, HandleAll(env, START, lines), h);
    TextsAreTold(env, Closed(HandleAll(env, START, lines)), HangUp(h));
    SaidSnoc(h.said, Spoken("", h.current));
    StreamHeard(env, lines);
  }

  /** The chunks that are not empty, nor once sanitized. */
  function PlainTexts(env: Env, inputs: seq<Input>): seq<string> {
    if inputs == [] then []
    else
      var front, i := PlainTexts(env, inputs[..|inputs| - 1]), inputs[|inputs| - 1];
      if i.Output? && i.data != "" && env.sanitize(i.data) != "" then front + [env.sanitize(i.data)] else front
  }

  lemma {:induction false} AttendLast(env: Env, h: Heard, remainder: string, inputs: seq<Input>, last: Input)
    ensures var a := Attend(env, h, remainder, inputs);
            Attend(env, h, remainder, inputs + [last]) == Attend(env, a.0, a.1, [last])
    decreases |inputs|
  {
    hide Attend;
    AttendNothing(env, h, remainder);
    if inputs == [] {
      assert inputs + [last] == [last];
    } else {
      var a := Attend(env, h, remainder, [inputs[0]]);
      AttendStep(env, h, remainder, inputs + [last]);
      AttendStep(env, h, remainder, inputs);
      assert (inputs + [last])[1..] == inputs[1..] + [last];
      AttendLast(env, a.0, a.1, inputs[1..], last);
    }
  }

  lemma {:induction false} PlainHeard(env: Env, inputs: seq<Input>)
    requires env.mode == Plain
    ensures HeardTexts(Attend(env, SILENCE, "", inputs).0) == PlainTexts(env, inputs)
    decreases |inputs|
  {
    hide SaidTexts, Attend;
    if inputs == [] {
      AttendNothing(env, SILENCE, "");
      NothingStreamed();
    } else {
      var front, last := inputs[..|inputs| - 1], inputs[|inputs| - 1];
      assert inputs == front + [last];
      PlainHeard(env, front);
      AttendLast(env, SILENCE, "", front, last);
      var a := Attend(env, SILENCE, "", front);
      AttendOne(env, a.0, a.1, last);
      SaidSnoc(a.0.said, Spoken("", a.0.current));
      if last.Output? { SaidSnoc(a.0.said, Spoken("", a.0.current + [env.sanitize(last.data)])); }
    }
  }

  /** Plain mode, on every run: the deltas told are the sanitized chunks that are not empty. */
  lemma PlainTextsAreTold(env: Env, inputs: seq<Input>)
    requires env.mode == Plain
    ensures DeltaTexts(Run(env, START, "", inputs).0.events) == PlainTexts(env, inputs)
  {
    hide Run, Attend, Tells, HeardTexts, PlainTexts, DeltaTexts;
    SilenceTells(env);
    RunTells(env, START, SILENCE, "", inputs);
    TextsAreTold(env, Run(env, START, "", inputs).0, Attend(env, SILENCE, "", inputs).0);
    PlainHeard(env, inputs);
  }
}
