/** Reading a page of a transcript from the tail of its file (internal/history/history.go). */
module Paging {
  import opened Model
  import opened Text
  import opened Transcript
  import opened TranscriptFacts

  const DEFAULT_LIMIT: int := 100
  const MAX_LIMIT: int := 500
  const MAX_TOKEN: int := 16 * 1024 * 1024
  const INITIAL_TAIL: int := 256 * 1024

  /** Decodes one line; nothing is assumed about it. */
  type Parser = string -> Option<Message>

  datatype Options = Options(limit: int, offset: int)

  datatype Page = Page(messages: seq<Message>, limit: int, offset: int, returned: nat, hasMore: bool, nextOffset: int)

  function Normalize(o: Options): (r: Options)
    ensures 1 <= r.limit <= MAX_LIMIT && 0 <= r.offset
  {
    var limit := if o.limit <= 0 then DEFAULT_LIMIT else o.limit;
    Options(if limit > MAX_LIMIT then MAX_LIMIT else limit, if o.offset < 0 then 0 else o.offset)
  }

  /** paginateMessages: pages count from the end of the list. */
  function Paginate(ms: seq<Message>, o: Options): Page {
    var opts := Normalize(o);
    if |ms| == 0 || opts.offset >= |ms| then Page([], opts.limit, opts.offset, 0, false, 0)
    else
      var end := |ms| - opts.offset;
      var start := if end - opts.limit < 0 then 0 else end - opts.limit;
      var page := ms[start..end];
      Page(page, opts.limit, opts.offset, |page|, start > 0, if start > 0 then opts.offset + |page| else 0)
  }

  // ---- lines --------------------------------------------------------------------

  function DropCarriageReturn(line: string): string {
    if line != "" && line[|line| - 1] == '\r' then line[..|line| - 1] else line
  }

  function ParseLine(parse: Parser, raw: string): seq<Message> {
    var line := Trim(DropCarriageReturn(raw));
    if line == "" then []
    else
      var m := parse(line);
      if m == None then [] else [m.value]
  }

  function Rest(data: string): (r: string)
    requires data != ""
    ensures |r| < |data|
  {
    if NewLine(data) == |data| then "" else data[NewLine(data) + 1..]
  }

  /** The decoded messages of a file, in order; the scanner stops at the first line that is too long. */
  function Raw(parse: Parser, data: string): seq<Message>
    decreases |data|
  {
    if data == "" || NewLine(data) >= MAX_TOKEN then []
    else ParseLine(parse, data[..NewLine(data)]) + Raw(parse, Rest(data))
  }

  /** What parseMessages returns. */
  function Parsed(parse: Parser, data: string): seq<Message> {
    Merged(Raw(parse, data))
  }

  /** parseMessages */
  method ParseMessages(parse: Parser, data: string) returns (ms: seq<Message>)
    ensures ms == Parsed(parse, data)
  {
    hide Raw, ParseLine, Rest, NewLine, Trim, DropCarriageReturn;
    var out: seq<Message> := [];
    var rest := data;
    while rest != "" && NewLine(rest) < MAX_TOKEN
      invariant out + Raw(parse, rest) == Raw(parse, data)
      decreases |rest|
    {
      RawStep(parse, rest, out);
      LineParsed(parse, rest[..NewLine(rest)]);
      var line := Trim(DropCarriageReturn(rest[..NewLine(rest)]));
      rest := Rest(rest);
      if line == "" { continue; }
      var message := parse(line);
      if message == None { continue; }
      out := out + [message.value];
    }
    RawEnd(parse, rest, out);
    ms := Merge(out);
  }

  lemma RawStep(parse: Parser, data: string, out: seq<Message>)
    requires data != "" && NewLine(data) < MAX_TOKEN
    ensures out + Raw(parse, data) == out + ParseLine(parse, data[..NewLine(data)]) + Raw(parse, Rest(data))
    ensures out + [] == out
  {
    hide ParseLine, NewLine, Rest;
    Associates(out, ParseLine(parse, data[..NewLine(data)]), Raw(parse, Rest(data)));
  }

  lemma Associates<T>(a: seq<T>, b: seq<T>, c: seq<T>)
    ensures a + (b + c) == a + b + c
  {
  }

  lemma RawEnd(parse: Parser, data: string, out: seq<Message>)
    requires data == "" || NewLine(data) >= MAX_TOKEN
    ensures out + Raw(parse, data) == out
  {
  }

  lemma LineParsed(parse: Parser, raw: string)
    ensures var line := Trim(DropCarriageReturn(raw));
            ParseLine(parse, raw) == if line == "" || parse(line) == None then [] else [parse(line).value]
  {
  }

  // ---- the tail of a file -----------------------------------------------------------

  /** Where the chunk starts that readTailChunk returns for the last `maxBytes` of the file. */
  function TailStart(file: string, maxBytes: int): (s: nat)
    requires file != "" && maxBytes > 0
    ensures s < |file|
  {
    if |file| <= maxBytes then 0
    else
      var start := |file| - maxBytes;
      var i := NewLine(file[start..]);
      if i + 1 < |file[start..]| then start + i + 1 else start
  }

  method ReadTailChunk(file: string, maxBytes: int) returns (chunk: string)
    ensures file == "" || maxBytes <= 0 ==> chunk == ""
    ensures file != "" && maxBytes > 0 ==> chunk == file[TailStart(file, maxBytes)..]
  {
    if maxBytes <= 0 || |file| <= 0 { return ""; }
    var start := 0;
    if |file| > maxBytes {
      start := |file| - maxBytes;
    }
    chunk := file[start..];
    if start > 0 {
      var i := NewLine(chunk);
      if i + 1 < |chunk| {
        chunk := chunk[i + 1..];
      }
    }
  }

  /** Where the chunk starts that the doubling loop settles on. */
  function LoadFrom(parse: Parser, file: string, need: int, readBytes: int): (s: nat)
    requires file != "" && 0 < readBytes <= |file|
    ensures s < |file|
    decreases |file| - readBytes
  {
    var s := TailStart(file, readBytes);
    if |Parsed(parse, file[s..])| >= need || readBytes >= |file| then s
    else LoadFrom(parse, file, need, if 2 * readBytes > |file| then |file| else 2 * readBytes)
  }

  function Need(o: Options): int {
    Normalize(o).offset + Normalize(o).limit + 1
  }

  function FirstRead(file: string): int {
    if |file| < INITIAL_TAIL then |file| else INITIAL_TAIL
  }

  /** The part of a file a page is computed from. */
  function TailOf(parse: Parser, file: string, o: Options): (s: nat)
    ensures s <= |file|
  {
    if file == "" then 0 else LoadFrom(parse, file, Need(o), FirstRead(file))
  }

  /** loadMessagePageFromPath on the contents of a readable file, or None if there is none. */
  method LoadMessagePage(parse: Parser, contents: Option<string>, o: Options) returns (page: Page)
    ensures contents == None ==> page == Paginate([], o)
    ensures contents != None ==> page == Paginate(Parsed(parse, contents.value[TailOf(parse, contents.value, o)..]), o)
  {
    hide Parsed, TailStart, Paginate;
    var opts := Normalize(o);
    NormalizeTwice(o);
    if contents == None { return Paginate([], opts); }
    var file := contents.value;
    if |file| <= 0 {
      assert file[0..] == "" && Parsed(parse, "") == [] by { NothingParsed(parse); }
      return Paginate([], opts);
    }
    var need := opts.offset + opts.limit + 1;
    var readBytes := INITIAL_TAIL;
    if |file| < readBytes {
      readBytes := |file|;
    }
    var messages: seq<Message>;
    while true
      invariant 0 < readBytes <= |file|
      invariant LoadFrom(parse, file, need, readBytes) == TailOf(parse, file, o)
      decreases |file| - readBytes
    {
      var chunk := ReadTailChunk(file, readBytes);
      messages := ParseMessages(parse, chunk);
      if |messages| >= need || readBytes >= |file| { break; }
      readBytes := readBytes * 2;
      if readBytes > |file| {
        readBytes := |file|;
      }
    }
    page := Paginate(messages, opts);
  }

  lemma NormalizeTwice(o: Options)
    ensures forall ms :: Paginate(ms, Normalize(o)) == Paginate(ms, o)
  {
  }

  lemma NothingParsed(parse: Parser)
    ensures Parsed(parse, "") == []
  {
  }

  // ---- tail paging refines whole-file paging -------------------------------------------

  /** No line is too long for the scanner. */
  predicate ShortLines(data: string)
    decreases |data|
  {
    data == "" || (NewLine(data) < MAX_TOKEN && ShortLines(Rest(data)))
  }

  predicate WholeLines(data: string) {
    data == "" || data[|data| - 1] == '\n'
  }

  lemma WholeLinesConcat(p: string, t: string)
    requires p != "" && WholeLines(p)
    ensures NewLine(p + t) == NewLine(p) < |p|
    ensures Rest(p + t) == Rest(p) + t && WholeLines(Rest(p))
    ensures (p + t)[..NewLine(p)] == p[..NewLine(p)]
  {
    assert p[|p| - 1] == '\n';
    NewLineConcat(p, t);
  }

  /** Whole lines in front: parsing is line by line until a line is too long. */
  lemma {:induction false} RawConcat(parse: Parser, p: string, t: string)
    requires WholeLines(p)
    ensures Raw(parse, p + t) == if ShortLines(p) then Raw(parse, p) + Raw(parse, t) else Raw(parse, p)
    decreases |p|
  {
    hide ParseLine, NewLine, Rest;
    if p == "" {
      assert p + t == t && Raw(parse, "") == [];
      assert [] + Raw(parse, t) == Raw(parse, t);
    } else {
      WholeLinesConcat(p, t);
      if NewLine(p) < MAX_TOKEN {
        RawConcat(parse, Rest(p), t);
      }
    }
  }

  /** One line at most holds one message at most. */
  lemma OneLine(parse: Parser, data: string)
    requires NewLine(data) + 1 >= |data|
    ensures |Raw(parse, data)| <= 1
  {
    hide Trim;
    if data != "" && NewLine(data) < MAX_TOKEN {
      assert Rest(data) == "";
      assert Raw(parse, "") == [];
    }
  }

  lemma {:induction false} MergedShorter(ms: seq<Message>, j: nat)
    requires j <= |ms|
    ensures Slot(ms, j) <= j
  {
    if j > 0 { MergedShorter(ms, j - 1); }
  }

  /** A chunk that keeps its partial first line never satisfies a need of two or more. */
  lemma PartialLineIsTooLittle(parse: Parser, file: string, maxBytes: int)
    requires file != "" && maxBytes > 0
    ensures var s := TailStart(file, maxBytes);
            s > 0 && file[s - 1] != '\n' ==> |Parsed(parse, file[s..])| <= 1
    ensures TailStart(file, maxBytes) > 0 ==> maxBytes < |file|
  {
    var s := TailStart(file, maxBytes);
    if s > 0 {
      var start := |file| - maxBytes;
      var i := NewLine(file[start..]);
      if i + 1 < |file[start..]| {
        assert file[s - 1] == file[start..][i];
      } else {
        OneLine(parse, file[s..]);
        MergedShorter(Raw(parse, file[s..]), |Raw(parse, file[s..])|);
      }
    }
  }

  /** The loop settles on the whole file or on whole lines holding enough messages. */
  lemma {:induction false} LoadSettles(parse: Parser, file: string, need: int, readBytes: int)
    requires file != "" && 0 < readBytes <= |file| && need >= 2
    ensures var s := LoadFrom(parse, file, need, readBytes);
            s == 0 || (WholeLines(file[..s]) && |Parsed(parse, file[s..])| >= need)
    decreases |file| - readBytes
  {
    hide Parsed, TailStart;
    PartialLineIsTooLittle(parse, file, readBytes);
    var s := TailStart(file, readBytes);
    if |Parsed(parse, file[s..])| >= need || readBytes >= |file| {
    } else {
      LoadSettles(parse, file, need, if 2 * readBytes > |file| then |file| else 2 * readBytes);
    }
  }

  /** A page only looks at the last offset + limit messages, and at whether there are more. */
  lemma PageOfSuffix(u: seq<Message>, v: seq<Message>, o: Options)
    requires |v| >= Need(o)
    ensures Paginate(u + v, o) == Paginate(v, o)
  {
    var opts := Normalize(o);
    var end := |v| - opts.offset;
    assert (u + v)[|u| + end - opts.limit..|u| + end] == v[end - opts.limit..end];
  }

  /**
    Tail paging refines whole-file paging: if the part before the tail has no
    over-long line and no result in the tail names a call that lies only before
    it, the page is the one the whole file would give.
   */
  lemma TailPageIsWholePage(parse: Parser, file: string, o: Options)
    requires var s := TailOf(parse, file, o);
             ShortLines(file[..s]) && NoCrossing(Raw(parse, file[..s]), Raw(parse, file[s..]))
    ensures Paginate(Parsed(parse, file[TailOf(parse, file, o)..]), o) == Paginate(Parsed(parse, file), o)
  {
    hide Raw, Merged, NoCrossing, Paginate, ShortLines;
    var s := TailOf(parse, file, o);
    var head, tail := file[..s], file[s..];
    assert file == head + tail;
    if s > 0 {
      LoadSettles(parse, file, Need(o), FirstRead(file));
      RawConcat(parse, head, tail);
      DistributesIf(Raw(parse, head), Raw(parse, tail));
      PageOfSuffix(Merged(Raw(parse, head)), Merged(Raw(parse, tail)), o);
    } else {
      assert tail == file;
    }
  }

  // ---- inputs on which the tail view differs --------------------------------------------------

  function Lines(line: string, rest: string): string {
    line + "\n" + rest
  }

  /** One more line in front. */
  lemma RawLine(parse: Parser, line: string, rest: string)
    requires |line| < MAX_TOKEN && '\n' !in line
    ensures Raw(parse, Lines(line, rest)) == ParseLine(parse, line) + Raw(parse, rest)
  {
    hide ParseLine;
    var data := Lines(line, rest);
    NewLineIs(data, |line|);
    assert data[..|line|] == line && Rest(data) == rest;
  }

  /** When the window begins inside the long line, the tail begins behind it. */
  lemma TailBehindFiller(first: string, filler: string, tail: string)
    requires '\n' !in filler && 0 < |tail| < INITIAL_TAIL <= |filler|
    ensures var file := Lines(first, Lines(filler, tail));
            TailStart(file, INITIAL_TAIL) == |first| + |filler| + 2 && file[|first| + |filler| + 2..] == tail
  {
    var file := Lines(first, Lines(filler, tail));
    var start, end := |file| - INITIAL_TAIL, |first| + 1 + |filler|;
    forall k | start <= k < end ensures file[k] != '\n' {
      assert file[k] == filler[k - |first| - 1];
    }
    assert file[end] == '\n';
    NewLineIs(file[start..], end - start);
    assert file[end + 1..] == tail;
  }

  /** Four messages of which the third answers the first: a call, a text, its result, a text. */
  ghost predicate Exchange(call: Message, text: Message, result: Message) {
    && !IsTool(call) && |call.toolUses| == 1 && Key(call.toolUses[0]) != ""
    && !IsTool(text) && text.toolUses == []
    && IsTool(result) && |result.toolUses| == 1 && Key(result.toolUses[0]) == Key(call.toolUses[0])
  }

  lemma NothingCalled(ms: seq<Message>, n: nat, id: string)
    requires n <= |ms| && forall i :: 0 <= i < n ==> IsTool(ms[i]) || ms[i].toolUses == []
    ensures LatestCall(ms, n, id) == None
  {
    if n > 0 {
      NothingCalled(ms, n - 1, id);
      assert LastUse([], id) == None;
    }
  }

  /** Seen from behind the call, the result stays a message of its own. */
  lemma ExchangeTail(call: Message, text: Message, result: Message)
    requires Exchange(call, text, result)
    ensures Merged([text, result, text]) == [text, result, text]
  {
    var ms := [text, result, text];
    hide Trim, LatestCall, LastUse, Merged;
    forall i | 0 <= i < |ms| ensures OwnedCount(ms, i, Results(ms[i])) == 0 {
      if i == 1 {
        NothingCalled(ms, 1, Key(result.toolUses[0]));
        assert Results(ms[1])[..0] == [];
      }
    }
    FixedPoints(ms);
  }

  /** In the whole list the result is absorbed. */
  lemma ExchangeWhole(call: Message, text: Message, result: Message)
    requires Exchange(call, text, result)
    ensures var out := Merged([call, text, result, text]); |out| == 3 && out[1..] == [text, text]
  {
    var ms := [call, text, result, text];
    hide Trim, Value, Merged;
    ExchangeOwner(call, text, result);
    hide LatestCall, LastUse, Owner;
    assert result.toolUses[..0] == [] && Unclaimed(ms, 2, []) == [];
    assert Unclaimed(ms, 2, result.toolUses) == [];
    var first := Image(ms, 4, [], 0);
    ImagesAre(ms, first, [text], [], [text]);
    assert (first + [text] + [] + [text])[1..] == [text, text];
  }

  lemma ImagesAre(ms: seq<Message>, a: seq<Message>, b: seq<Message>, c: seq<Message>, d: seq<Message>)
    requires |ms| == 4
    requires a == Image(ms, 4, [], 0) && b == Image(ms, 4, [], 1) && c == Image(ms, 4, [], 2) && d == Image(ms, 4, [], 3)
    ensures Merged(ms) == a + b + c + d
  {
    hide Image, Survives, Slot;
    assert Images(ms, 4, [], 1) == [] + a;
    assert Images(ms, 4, [], 2) == a + b;
    assert Images(ms, 4, [], 3) == a + b + c;
  }

  lemma ExchangeOwner(call: Message, text: Message, result: Message)
    requires Exchange(call, text, result)
    ensures Owner([call, text, result, text], 2, result.toolUses[0]) != None
  {
    var ms, id := [call, text, result, text], Key(result.toolUses[0]);
    hide Trim, LatestCall, LastUse;
    LastUseIsLast(call.toolUses, id, 0);
    LatestStep(ms, 0, id);
    LatestStep(ms, 1, id);
  }

  /** A line without a newline, short enough to be scanned, and what it decodes to. */
  ghost predicate Decodes(parse: Parser, line: string, ms: seq<Message>) {
    '\n' !in line && |line| < MAX_TOKEN && ParseLine(parse, line) == ms
  }

  function TailLines(text: string, result: string): string {
    Lines(text, Lines(result, Lines(text, "")))
  }

  lemma RawDecodes(parse: Parser, line: string, ms: seq<Message>, rest: string)
    requires Decodes(parse, line, ms)
    ensures Raw(parse, Lines(line, rest)) == ms + Raw(parse, rest)
  {
    hide ParseLine, Lines, Raw;
    RawLine(parse, line, rest);
  }

  lemma NothingRaw(parse: Parser)
    ensures Raw(parse, "") == []
  {
  }

  lemma RawTail(parse: Parser, text: string, result: string, t: Message, r: Message)
    requires Decodes(parse, text, [t]) && Decodes(parse, result, [r])
    ensures Raw(parse, TailLines(text, result)) == [t, r, t]
  {
    hide ParseLine, Lines, Raw, Decodes;
    NothingRaw(parse);
    RawDecodes(parse, text, [t], "");
    RawDecodes(parse, result, [r], Lines(text, ""));
    RawDecodes(parse, text, [t], Lines(result, Lines(text, "")));
  }

  /**
    Without the condition on calls before the tail the page differs: on every
    file that has a call, a line longer than the first tail, and then a text, the
    result of that call and a text, the page of the last two messages shows the
    result as a message of its own instead of the two texts.
   */
  lemma TailPageCanDiffer(parse: Parser, call: string, filler: string, text: string, result: string,
                          c: Message, t: Message, r: Message)
    requires Decodes(parse, call, [c]) && Decodes(parse, filler, [])
    requires Decodes(parse, text, [t]) && Decodes(parse, result, [r]) && Exchange(c, t, r)
    requires '\n' !in filler && 2 * |text| + |result| + 3 < INITIAL_TAIL <= |filler|
    ensures var file, o := Lines(call, Lines(filler, TailLines(text, result))), Options(2, 0);
            && Paginate(Parsed(parse, file[TailOf(parse, file, o)..]), o).messages == [r, t]
            && Paginate(Parsed(parse, file), o).messages == [t, t]
            && r != t
  {
    hide ParseLine, Lines, TailLines, Merged, Trim, Exchange, Paginate, Raw, Decodes, TailOf, TailStart, Parsed;
    var tail := TailLines(text, result);
    var file := Lines(call, Lines(filler, tail));
    RawTail(parse, text, result, t, r);
    RawDecodes(parse, filler, [], tail);
    RawDecodes(parse, call, [c], Lines(filler, tail));
    ParsedIs(parse, tail, [t, r, t]);
    ParsedIs(parse, file, [c, t, r, t]);
    ExchangeTail(c, t, r);
    ExchangeWhole(c, t, r);
    SampleTailOf(parse, call, filler, text, result);
    LastTwo([t, r, t]);
    LastTwo(Merged([c, t, r, t]));
    ExchangeApart(c, t, r);
  }

  lemma ParsedIs(parse: Parser, data: string, ms: seq<Message>)
    requires Raw(parse, data) == ms
    ensures Parsed(parse, data) == Merged(ms)
  {
  }

  lemma SampleTailOf(parse: Parser, call: string, filler: string, text: string, result: string)
    requires '\n' !in filler && 2 * |text| + |result| + 3 < INITIAL_TAIL <= |filler|
    requires |Parsed(parse, TailLines(text, result))| >= 3
    ensures var file, o := Lines(call, Lines(filler, TailLines(text, result))), Options(2, 0);
            file[TailOf(parse, file, o)..] == TailLines(text, result)
  {
    hide Parsed, TailStart, TailOf;
    var tail := TailLines(text, result);
    var file := Lines(call, Lines(filler, tail));
    TailBehindFiller(call, filler, tail);
    FirstReadIs(parse, file, |call| + |filler| + 2);
  }

  lemma FirstReadIs(parse: Parser, file: string, s: nat)
    requires |file| > INITIAL_TAIL && s == TailStart(file, INITIAL_TAIL)
    requires |Parsed(parse, file[s..])| >= 3
    ensures TailOf(parse, file, Options(2, 0)) == s
  {
    hide Parsed, TailStart;
  }

  lemma ExchangeApart(c: Message, t: Message, r: Message)
    requires Exchange(c, t, r)
    ensures r != t
  {
  }

  lemma LastTwo(ms: seq<Message>)
    requires |ms| == 3
    ensures Paginate(ms, Options(2, 0)).messages == ms[1..]
  {
  }

  // ---- what a page holds ------------------------------------------------------------------------

  /**
    A page is the messages between `offset` and `offset + limit` from the end, as far
    as they exist; there is more exactly when older messages are left, and then the
    next page begins where this one ends.
   */
  lemma PageHolds(ms: seq<Message>, o: Options)
    ensures var limit := if o.limit <= 0 then 100 else if o.limit >= 500 then 500 else o.limit;
            var offset := if o.offset < 0 then 0 else o.offset;
            var p, left := Paginate(ms, o), if |ms| - offset < 0 then 0 else |ms| - offset;
            && p.limit == limit && p.offset == offset && p.returned == |p.messages|
            && |p.messages| == (if left < limit then left else limit)
            && (forall i :: 0 <= i < |p.messages| ==> p.messages[i] == ms[left - |p.messages| + i])
            && p.hasMore == (left > limit)
            && p.nextOffset == if left > limit then offset + limit else 0
  {
    NormalizeIs(o);
    hide Normalize;
    var n, p := Normalize(o), Paginate(ms, o);
    var left := |ms| - n.offset;
    if left > 0 {
      var start := if left - n.limit < 0 then 0 else left - n.limit;
      assert p.messages == ms[start..left];
    }
  }

  lemma NormalizeIs(o: Options)
    ensures Normalize(o).limit == if o.limit <= 0 then 100 else if o.limit >= 500 then 500 else o.limit
    ensures Normalize(o).offset == if o.offset < 0 then 0 else o.offset
  {
  }

  /** How much of the file the loop reads in round `k`: 256 KiB, doubled each time, up to all of it. */
  function ReadIn(file: string, k: nat): (n: int)
    requires file != ""
    ensures 0 < n <= |file|
  {
    if INITIAL_TAIL * Doubled(k) >= |file| then |file| else INITIAL_TAIL * Doubled(k)
  }

  function Doubled(k: nat): (p: nat)
    ensures p >= 1
  {
    if k == 0 then 1 else 2 * Doubled(k - 1)
  }

  /** No round before the k-th read enough messages, nor the whole file. */
  ghost predicate TooLittleBefore(parse: Parser, file: string, need: int, k: nat)
    requires file != ""
  {
    forall j: nat :: j < k ==> ReadIn(file, j) < |file| && |Parsed(parse, file[TailStart(file, ReadIn(file, j))..])| < need
  }

  lemma {:induction false} LoadFromRound(parse: Parser, file: string, need: int, readBytes: int, round: nat) returns (k: nat)
    requires file != "" && 0 < readBytes <= |file| && readBytes == ReadIn(file, round)
    requires TooLittleBefore(parse, file, need, round)
    ensures TooLittleBefore(parse, file, need, k)
    ensures LoadFrom(parse, file, need, readBytes) == TailStart(file, ReadIn(file, k))
    ensures ReadIn(file, k) == |file| || |Parsed(parse, file[TailStart(file, ReadIn(file, k))..])| >= need
    decreases |file| - readBytes
  {
    hide Parsed, TailStart;
    var s := TailStart(file, readBytes);
    if |Parsed(parse, file[s..])| >= need || readBytes >= |file| {
      k := round;
    } else {
      assert Doubled(round + 1) == 2 * Doubled(round);
      assert ReadIn(file, round + 1) == if 2 * readBytes > |file| then |file| else 2 * readBytes;
      k := LoadFromRound(parse, file, need, if 2 * readBytes > |file| then |file| else 2 * readBytes, round + 1);
    }
  }

  /**
    The page is computed from the shortest tail among 256 KiB, 512 KiB, 1 MiB and so
    on that holds one message more than offset and limit ask for, or from the whole
    file if none does.
   */
  lemma ReadsNoMoreThanNeeded(parse: Parser, file: string, o: Options) returns (k: nat)
    requires file != ""
    ensures var need := Normalize(o).offset + Normalize(o).limit + 1;
            && TooLittleBefore(parse, file, need, k)
            && TailOf(parse, file, o) == TailStart(file, ReadIn(file, k))
            && (ReadIn(file, k) == |file| || |Parsed(parse, file[TailStart(file, ReadIn(file, k))..])| >= need)
  {
    hide Parsed, TailStart, LoadFrom;
    assert Doubled(0) == 1;
    k := LoadFromRound(parse, file, Need(o), FirstRead(file), 0);
  }

  /** Such a tail is the whole file, or begins behind the first newline of the last bytes, unless nothing follows it. */
  lemma TailBegins(file: string, maxBytes: int)
    requires file != "" && maxBytes > 0
    ensures |file| <= maxBytes ==> TailStart(file, maxBytes) == 0
    ensures forall i :: FirstNewLine(file, maxBytes, i) ==> TailStart(file, maxBytes) == i + 1
    ensures |file| > maxBytes && (forall i :: !FirstNewLine(file, maxBytes, i)) ==>
              TailStart(file, maxBytes) == |file| - maxBytes
  {
    if |file| > maxBytes {
      var start := |file| - maxBytes;
      var rest := file[start..];
      forall i | FirstNewLine(file, maxBytes, i) ensures TailStart(file, maxBytes) == i + 1 {
        NewLineIs(rest, i - start);
      }
      var i := NewLine(rest);
      if i + 1 < |rest| {
        assert FirstNewLine(file, maxBytes, start + i);
      }
    }
  }

  /** The first newline of the last `maxBytes` bytes stands at `i`, and something follows it. */
  ghost predicate FirstNewLine(file: string, maxBytes: int, i: int) {
    && 0 < |file| - maxBytes <= i < |file| - 1 && file[i] == '\n'
    && forall k :: |file| - maxBytes <= k < i ==> file[k] != '\n'
  }

  /** The first line of a file, if it is short enough, is decoded, trimmed, and its messages come before those of the rest. */
  lemma FirstLineIsDecoded(parse: Parser, line: string, rest: string)
    requires '\n' !in line && |line| < 16 * 1024 * 1024
    ensures var text := Trim(if line != "" && line[|line| - 1] == '\r' then line[..|line| - 1] else line);
            var ms := if text == "" || parse(text) == None then [] else [parse(text).value];
            && Raw(parse, line + "\n" + rest) == ms + Raw(parse, rest)
            && (line != "" ==> Raw(parse, line) == ms)
  {
    hide Trim, Raw;
    LineParsed(parse, line);
    RawLine(parse, line, rest);
    assert Lines(line, rest) == line + "\n" + rest;
    if line != "" { LastLine(parse, line); }
  }

  lemma LastLine(parse: Parser, line: string)
    requires '\n' !in line && 0 < |line| < MAX_TOKEN
    ensures Raw(parse, line) == ParseLine(parse, line)
  {
    hide ParseLine;
    NewLineIs(line, |line|);
    assert line[..|line|] == line;
    NothingRaw(parse);
  }

  /** A line of 16 MiB or more ends the reading. */
  lemma LongLineEndsReading(parse: Parser, line: string, rest: string)
    requires '\n' !in line && |line| >= 16 * 1024 * 1024
    ensures Raw(parse, line) == [] && Raw(parse, line + "\n" + rest) == []
  {
    NewLineIs(line, |line|);
    var file := line + "\n" + rest;
    assert file[|line|] == '\n';
    assert forall k :: 0 <= k < |line| ==> file[k] == line[k];
    NewLineIs(file, |line|);
  }

  // ---- following the pages ----------------------------------------------------------------

  /** All pages from `offset` on, following NextOffset until HasMore is false, put back in reverse order. */
  function FollowPages(ms: seq<Message>, limit: int, offset: nat): seq<Message>
    decreases |ms| - offset
  {
    var page := Paginate(ms, Options(limit, offset));
    if page.hasMore then FollowPages(ms, limit, page.nextOffset) + page.messages else page.messages
  }

  lemma {:induction false} FollowFrom(ms: seq<Message>, limit: int, offset: nat)
    requires offset <= |ms|
    ensures FollowPages(ms, limit, offset) == ms[..|ms| - offset]
    decreases |ms| - offset
  {
    var page := Paginate(ms, Options(limit, offset));
    if page.hasMore {
      FollowFrom(ms, limit, page.nextOffset);
      assert ms[..|ms| - page.nextOffset] + page.messages == ms[..|ms| - offset];
    }
  }

  /** Following the pages terminates and yields the whole list, each message once, for every requested limit. */
  lemma PagesCoverAll(ms: seq<Message>, limit: int)
    ensures FollowPages(ms, limit, 0) == ms
  {
    FollowFrom(ms, limit, 0);
    assert ms[..|ms| - 0] == ms;
  }
}
