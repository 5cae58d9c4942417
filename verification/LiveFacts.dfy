/** Chunking does not matter, and assistant messages form a flat sequence of brackets. */
module LiveFacts {
  import opened Model
  import opened Text
  import opened LiveStream

  // ---- chunk independence --------------------------------------------------------

  /** Carrying the remainder over is the same as having had one longer chunk. */
  lemma {:induction false} ConsumeConcat(env: Env, c: Core, a: string, b: string)
    ensures var r := Consume(env, c, a); Consume(env, r.0, r.1 + b) == Consume(env, c, a + b)
    decreases |a|
  {
    hide NewLine, HandleLine;
    var i := NewLine(a);
    if i < |a| {
      NewLineConcat(a, b);
      ConsumeConcat(env, HandleLine(env, c, a[..i]), a[i + 1..], b);
    }
  }

  /** What is carried over never contains a newline. */
  lemma {:induction false} RemainderHasNoNewline(env: Env, c: Core, buffer: string)
    ensures '\n' !in Consume(env, c, buffer).1
    decreases |buffer|
  {
    hide HandleLine;
    var i := NewLine(buffer);
    if i < |buffer| {
      RemainderHasNoNewline(env, HandleLine(env, c, buffer[..i]), buffer[i + 1..]);
    }
  }

  lemma NoNewlineNothingConsumed(env: Env, c: Core, s: string)
    requires '\n' !in s
    ensures Consume(env, c, s) == (c, s)
    ensures Consume(env, c, s + "\n") == (HandleLine(env, c, s), "")
  {
    hide HandleLine;
    NewLineIs(s, |s|);
    NewLineIs(s + "\n", |s|);
    assert (s + "\n")[..|s|] == s && (s + "\n")[|s| + 1..] == "";
    assert NewLine("") == 0;
  }

  function Concat(chunks: seq<string>): string {
    if chunks == [] then "" else chunks[0] + Concat(chunks[1..])
  }

  function Outputs(chunks: seq<string>): (inputs: seq<Input>)
    ensures |inputs| == |chunks|
  {
    if chunks == [] then [] else [Output(chunks[0])] + Outputs(chunks[1..])
  }

  /** Feeding chunks one by one is consuming their concatenation. */
  lemma {:induction false} ChunksConsumed(env: Env, c: Core, remainder: string, chunks: seq<string>)
    requires env.mode != Plain && '\n' !in remainder
    ensures Run(env, c, remainder, Outputs(chunks)) == Consume(env, c, remainder + Concat(chunks))
    decreases |chunks|
  {
    hide Consume, HandleLine;
    NoNewlineNothingConsumed(env, c, remainder);
    if chunks == [] {
      assert remainder + "" == remainder;
    } else {
      var r := Consume(env, c, remainder + chunks[0]);
      RemainderHasNoNewline(env, c, remainder + chunks[0]);
      ConsumeConcat(env, c, remainder + chunks[0], Concat(chunks[1..]));
      assert remainder + chunks[0] + Concat(chunks[1..]) == remainder + Concat(chunks);
      ChunksConsumed(env, r.0, r.1, chunks[1..]);
      assert chunks[0] == "" ==> remainder + chunks[0] == remainder;
      assert Outputs(chunks)[1..] == Outputs(chunks[1..]);
    }
  }

  /**
    Chunk independence: however the same bytes are cut into chunks, the events
    (raw chunks aside), the ids drawn, the bound conversation and the carried
    remainder are those of one single chunk.
   */
  lemma ChunkIndependence(env: Env, chunks: seq<string>)
    requires env.mode != Plain
    ensures Run(env, START, "", Outputs(chunks)) == Run(env, START, "", [Output(Concat(chunks))])
  {
    hide Consume;
    ChunksConsumed(env, START, "", chunks);
    ChunksConsumed(env, START, "", [Concat(chunks)]);
    assert Outputs([Concat(chunks)]) == [Output(Concat(chunks))] + Outputs([]);
    assert Concat([Concat(chunks)]) == Concat(chunks) + Concat([]);
  }

  lemma {:induction false} HandleAllLast(env: Env, c: Core, lines: seq<string>, last: string)
    ensures HandleAll(env, c, lines + [last]) == HandleLine(env, HandleAll(env, c, lines), last)
    decreases |lines|
  {
    hide HandleLine;
    if lines != [] {
      assert (lines + [last])[1..] == lines[1..] + [last];
      HandleAllLast(env, HandleLine(env, c, lines[0]), lines[1..], last);
    } else {
      assert [last][1..] == [];
      assert HandleAll(env, HandleLine(env, c, last), []) == HandleLine(env, c, last);
    }
  }

  /** Completing an open message at the exit. */
  function Closed(c: Core): Core {
    Emit(if c.messageId == "" then c else Finish(c), StateChanged)
  }

  /** The newline fed at the exit flushes the remainder: every line of the output was handled, the last one too. */
  lemma ExitFlushes(env: Env, chunks: seq<string>)
    requires env.mode != Plain
    ensures var r := Run(env, START, "", Outputs(chunks));
            OnExit(env, r.0, r.1).0 == Closed(HandleAll(env, START, Split(Concat(chunks)))) && Blank(OnExit(env, r.0, r.1).1)
  {
    hide Consume, HandleLine, Split, HandleAll, Trim, Finish, Emit;
    var all := Concat(chunks);
    var r := Run(env, START, "", Outputs(chunks));
    ChunksConsumed(env, START, "", chunks);
    assert "" + all == all;
    RemainderHasNoNewline(env, START, all);
    NoNewlineNothingConsumed(env, r.0, r.1);
    BlankLineSkipped(env, r.0, r.1);
    BlankLineSkipped(env, r.0, "");
    SplitConsume(env, START, all);
    var lines := Split(all);
    if all == "" || all[|all| - 1] != '\n' {
      HandleAllLast(env, START, lines[..|lines| - 1], lines[|lines| - 1]);
      assert lines == lines[..|lines| - 1] + [lines[|lines| - 1]];
    }
  }

  // ---- brackets ------------------------------------------------------------------------

  /** Where a reader of the message events stands. */
  datatype Track = Idle | Open(id: string, deltas: nat) | Broken

  function Advance(t: Track, e: Event): Track {
    match e
    case Started(id) => if t == Idle then Open(id, 0) else Broken
    case Delta(id, _) => if t.Open? && t.id == id then Open(id, t.deltas + 1) else Broken
    case Completed(id) => if t.Open? && t.id == id && t.deltas > 0 then Idle else Broken
    case _ => t
  }

  function Reading(events: seq<Event>): Track {
    if events == [] then Idle else Advance(Reading(events[..|events| - 1]), events[|events| - 1])
  }

  /** The pump's message id is the one open message, which has a delta and was streamed. */
  ghost predicate InStep(env: Env, c: Core) {
    && (if c.messageId == "" then Reading(c.events) == Idle
        else Reading(c.events).Open? && Reading(c.events).id == c.messageId && Reading(c.events).deltas > 0)
    && (c.messageId != "" && env.mode == Paperclip ==> c.streamed)
    && (env.mode != Paperclip && env.mode != Plain ==> c.messageId == "")
  }

  lemma EmitReads(c: Core, e: Event)
    ensures Reading(Emit(c, e).events) == Advance(Reading(c.events), e)
  {
    assert (c.events + [e])[..|c.events|] == c.events;
  }

  lemma BindKeepsStep(env: Env, c: Core, native: string)
    requires InStep(env, c)
    ensures InStep(env, BindTo(c, native)) && BindTo(c, native).messageId == c.messageId
    ensures BindTo(c, native).streamed == c.streamed
  {
    hide Reading;
    EmitReads(c.(native := native, bound := true), Bound(native));
  }

  lemma WholeKeepsStep(env: Env, c: Core, id: string, text: string)
    requires InStep(env, c) && c.messageId == ""
    ensures InStep(env, Whole(c, id, text)) && Whole(c, id, text).messageId == ""
  {
    hide Reading;
    EmitReads(c, Started(id));
    EmitReads(Emit(c, Started(id)), Delta(id, text));
    EmitReads(Emit(Emit(c, Started(id)), Delta(id, text)), Completed(id));
  }

  lemma StreamKeepsStep(env: Env, c: Core, text: string)
    requires InStep(env, c) && env.mode == Paperclip
    ensures InStep(env, StreamDelta(env, c, text))
  {
    hide Reading;
    if c.messageId == "" {
      var id := NewId(env, c.drawn);
      var s := c.(messageId := id, drawn := c.drawn + 1, streamed := true);
      EmitReads(s, Started(id));
      EmitReads(Emit(s, Started(id)), Delta(id, text));
    } else {
      EmitReads(c.(streamed := true), Delta(c.messageId, text));
    }
  }

  lemma FinishKeepsStep(env: Env, c: Core)
    requires InStep(env, c) && c.messageId != ""
    ensures InStep(env, Finish(c)) && Finish(c).messageId == "" && InStep(env, Finish(c).(streamed := false))
  {
    hide Reading;
    EmitReads(c.(messageId := ""), Completed(c.messageId));
  }

  lemma LineKeepsStep(env: Env, c: Core, raw: string)
    requires InStep(env, c) && env.mode != Plain
    ensures InStep(env, HandleLine(env, c, raw))
  {
    hide InStep, BindTo, Whole, StreamDelta, Finish, DecodeLine;
    var line := DecodeLine(env, raw);
    if line != None {
      var d := line.value;
      BindKeepsStep(env, c, d.native);
      var b := BindTo(c, d.native);
      DecodedKeepsStep(env, b, d);
    }
  }

  /** Stated on the core after binding. */
  lemma DecodedKeepsStep(env: Env, c: Core, d: Decoded)
    requires InStep(env, c) && env.mode != Plain
    ensures env.mode == Paperclip ==>
              var p := PaperclipText(env, c, d);
              InStep(env, p) && InStep(env, if d.terminal && p.messageId != "" then Finish(p).(streamed := false) else p)
    ensures env.mode != Paperclip ==> InStep(env, WholeNew(env, c, d.text)) && InStep(env, Whole(c, d.messageId, d.text))
  {
    hide Reading, Whole, StreamDelta, Finish;
    var n := c.(drawn := c.drawn + 1);
    assert InStep(env, n);
    if env.mode == Paperclip {
      if d.text != "" {
        if d.streaming {
          StreamKeepsStep(env, c, d.text);
        } else if !c.streamed {
          WholeKeepsStep(env, n, NewId(env, c.drawn), d.text);
        }
      }
      var p := PaperclipText(env, c, d);
      if p.messageId != "" { FinishKeepsStep(env, p); }
    } else {
      WholeKeepsStep(env, n, NewId(env, c.drawn), d.text);
      WholeKeepsStep(env, c, d.messageId, d.text);
    }
  }

  lemma {:induction false} ConsumeKeepsStep(env: Env, c: Core, buffer: string)
    requires InStep(env, c) && env.mode != Plain
    ensures InStep(env, Consume(env, c, buffer).0)
    decreases |buffer|
  {
    hide InStep, HandleLine;
    var i := NewLine(buffer);
    if i < |buffer| {
      LineKeepsStep(env, c, buffer[..i]);
      ConsumeKeepsStep(env, HandleLine(env, c, buffer[..i]), buffer[i + 1..]);
    }
  }

  lemma PlainKeepsStep(env: Env, c: Core, data: string)
    requires InStep(env, c) && env.mode == Plain
    ensures InStep(env, OnPlain(env, c, data))
  {
    hide Reading, BindTo, Finish;
    var text := env.sanitize(data);
    if text != "" {
      BindKeepsStep(env, c, env.extractId(text));
      var b := BindTo(c, env.extractId(text));
      var id := NewId(env, b.drawn);
      var s := b.(messageId := id, drawn := b.drawn + 1);
      EmitReads(s, Started(id));
      var o := if b.messageId == "" then Emit(s, Started(id)) else b;
      EmitReads(o, Delta(o.messageId, text));
      var e := Emit(o, Delta(o.messageId, text));
      assert InStep(env, e);
      EmitReads(e, InputRequested);
      assert InStep(env, Emit(e, InputRequested));
      FinishKeepsStep(env, Emit(e, InputRequested));
    }
  }

  lemma OtherEvent(env: Env, c: Core)
    requires InStep(env, c)
    ensures InStep(env, Emit(c, StateChanged))
  {
    hide Reading;
    EmitReads(c, StateChanged);
  }

  /** Every input keeps the pump in step; right after an exit no message is open. */
  lemma StepKeepsStep(env: Env, c: Core, remainder: string, input: Input)
    requires InStep(env, c)
    ensures InStep(env, Step(env, c, remainder, input).0)
    ensures input.Exited? ==> Reading(Step(env, c, remainder, input).0.events) == Idle
  {
    hide Reading, Consume, Finish, OnPlain;
    match input
    case Output(data) =>
      if data != "" {
        if env.mode == Plain { PlainKeepsStep(env, c, data); } else { ConsumeKeepsStep(env, c, remainder + data); }
      }
    case Exited =>
      if env.mode != Plain { ConsumeKeepsStep(env, c, remainder + "\n"); }
      var r := if env.mode != Plain && !Blank(remainder) then Consume(env, c, remainder + "\n") else (c, remainder);
      if r.0.messageId != "" { FinishKeepsStep(env, r.0); }
      OtherEvent(env, if r.0.messageId == "" then r.0 else Finish(r.0));
    case Changed => OtherEvent(env, c);
    case Other =>
  }

  lemma {:induction false} RunKeepsStep(env: Env, c: Core, remainder: string, inputs: seq<Input>)
    requires InStep(env, c)
    ensures InStep(env, Run(env, c, remainder, inputs).0)
    decreases |inputs|
  {
    hide InStep, Step;
    if inputs != [] {
      StepKeepsStep(env, c, remainder, inputs[0]);
      var r := Step(env, c, remainder, inputs[0]);
      RunKeepsStep(env, r.0, r.1, inputs[1..]);
    }
  }

  /** A complete message. */
  datatype Bracket = Bracket(id: string, texts: seq<string>)

  function Messages(events: seq<Event>): seq<Event> {
    if events == [] then []
    else
      var front, e := Messages(events[..|events| - 1]), events[|events| - 1];
      if e.Started? || e.Delta? || e.Completed? then front + [e] else front
  }

  function Opening(b: Bracket): seq<Event> {
    [Started(b.id)] + seq(|b.texts|, i requires 0 <= i < |b.texts| => Delta(b.id, b.texts[i]))
  }

  function Render(bs: seq<Bracket>): seq<Event> {
    if bs == [] then []
    else Render(bs[..|bs| - 1]) + Opening(bs[|bs| - 1]) + [Completed(bs[|bs| - 1].id)]
  }

  /**
    What being readable means: the message events are complete messages of one
    or more deltas each, one after the other, and at the end the start and the
    deltas of the open one, if any.
   */
  lemma {:induction false} ReadableIsFlat(events: seq<Event>) returns (bs: seq<Bracket>, open: Bracket)
    requires Reading(events) != Broken
    ensures forall b :: b in bs ==> b.texts != []
    ensures Messages(events) == Render(bs) + (if Reading(events) == Idle then [] else Opening(open))
    ensures Reading(events) != Idle ==> open.id == Reading(events).id && |open.texts| == Reading(events).deltas
  {
    hide Opening, Render;
    if events == [] {
      bs, open := [], Bracket("", []);
      RenderNone();
    } else {
      var front, e := events[..|events| - 1], events[|events| - 1];
      bs, open := ReadableIsFlat(front);
      FlatStep(Messages(front), Reading(front), bs, open, e);
      match e {
        case Started(id) => open := Bracket(id, []);
        case Delta(id, text) => open := Bracket(id, open.texts + [text]);
        case Completed(id) => bs := bs + [open];
        case _ =>
      }
    }
  }

  lemma RenderNone()
    ensures Render([]) == []
  {
  }

  lemma FlatStep(ms: seq<Event>, t: Track, bs: seq<Bracket>, open: Bracket, e: Event)
    requires ms == Render(bs) + (if t == Idle then [] else Opening(open))
    ensures t == Idle && e.Started? ==> ms + [e] == Render(bs) + Opening(Bracket(e.id, []))
    ensures t.Open? && e.Delta? && e.id == open.id ==> ms + [e] == Render(bs) + Opening(Bracket(e.id, open.texts + [e.text]))
    ensures t.Open? && e.Completed? && e.id == open.id ==> ms + [e] == Render(bs + [open]) + []
  {
    assert (bs + [open])[..|bs|] == bs;
  }

  /**
    In every mode and on every run the assistant messages form a flat sequence:
    started, one or more deltas, completed, all with the id of the latest started,
    at most one open at a time.
   */
  lemma MessagesAreFlat(env: Env, inputs: seq<Input>) returns (bs: seq<Bracket>, open: Bracket)
    ensures var c := Run(env, START, "", inputs).0;
            && Messages(c.events) == Render(bs) + (if c.messageId == "" then [] else Opening(open))
            && (forall b :: b in bs ==> b.texts != [])
            && (c.messageId != "" ==> open.id == c.messageId && open.texts != [])
  {
    hide Render, Opening, Messages, Run;
    assert InStep(env, START);
    RunKeepsStep(env, START, "", inputs);
    bs, open := ReadableIsFlat(Run(env, START, "", inputs).0.events);
  }

  // ---- lines with a prefix ----------------------------------------------------------------------

  predicate AllBlank(s: string) {
    forall i :: 0 <= i < |s| ==> IsBlankByte(s[i])
  }

  /**
    A line that is "stdout" or "stderr" in any case, blanks, at most one colon or
    equals sign, blanks, and then JSON.
   */
  predicate Prefixed(name: string, gap: string, sign: string, indent: string, json: string) {
    && StreamName(name) && AllBlank(gap) && AllBlank(indent)
    && (sign == "" || sign == ":" || sign == "=")
    && json != "" && (json[0] == '[' || json[0] == '{')
  }

  lemma {:induction false} SkipsBlanks(gap: string, rest: string)
    requires AllBlank(gap) && (rest == "" || !IsBlankByte(rest[0]))
    ensures SkipBlanks(gap + rest) == rest
  {
    if gap == "" {
      assert gap + rest == rest;
    } else {
      assert (gap + rest)[1..] == gap[1..] + rest;
      SkipsBlanks(gap[1..], rest);
    }
  }

  lemma {:induction false} BlanksSkipped(s: string) returns (gap: string)
    ensures s == gap + SkipBlanks(s) && AllBlank(gap)
    ensures SkipBlanks(s) != "" ==> !IsBlankByte(SkipBlanks(s)[0])
  {
    if s != "" && IsBlankByte(s[0]) {
      gap := BlanksSkipped(s[1..]);
      gap := [s[0]] + gap;
    } else {
      gap := "";
    }
  }

  /** Such a line is taken for its JSON. */
  lemma PrefixIsDropped(name: string, gap: string, sign: string, indent: string, json: string)
    requires Prefixed(name, gap, sign, indent, json)
    ensures Unprefixed(name + gap + sign + indent + json) == Trim(json)
  {
    hide Trim, SkipBlanks;
    var line := name + gap + sign + indent + json;
    assert line[..6] == name;
    SkipsBlanks(indent, json);
    if sign == "" {
      assert line[6..] == (gap + indent) + json;
      SkipsBlanks(gap + indent, json);
    } else {
      assert line[6..] == gap + (sign + indent + json);
      SkipsBlanks(gap, sign + indent + json);
      assert (sign + indent + json)[1..] == indent + json;
    }
  }

  /** Any other line is left alone. */
  lemma OthersAreKept(line: string) returns (name: string, gap: string, sign: string, indent: string, json: string)
    ensures Unprefixed(line) == line
            || (Prefixed(name, gap, sign, indent, json) && line == name + gap + sign + indent + json)
  {
    name, gap, sign, indent, json := "", "", "", "", "";
    if |line| >= 6 && StreamName(line[..6]) {
      name := line[..6];
      gap := BlanksSkipped(line[6..]);
      var r := SkipBlanks(line[6..]);
      if r != "" && (r[0] == ':' || r[0] == '=') {
        sign := [r[0]];
        indent := BlanksSkipped(r[1..]);
        json := SkipBlanks(r[1..]);
      } else {
        json := r;
      }
      hide SkipBlanks, Trim;
      assert line == name + line[6..];
      assert r == sign + indent + json;
      assert name + (gap + (sign + indent + json)) == name + gap + sign + indent + json;
    }
  }
}
