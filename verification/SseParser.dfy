/**
 Incremental Server-Sent Events parser (frontend/src/utils/sse.ts).

 The parser keeps one buffer. Every `push` normalises it, emits the events of all complete blocks
 and keeps the unfinished last block. The module proves that cutting a stream into chunks does not
 change the events, unless a cut falls inside a CR LF pair.
 */
module SseParser {
  import opened Wrappers
  import opened Text

  /** The field names that the parser acts on. */
  datatype FieldName = EventField | DataField | IdField | RetryField | OtherField

  datatype SseEvent = SseEvent(event: string, data: string, id: Option<string>, retry: Option<nat>)

  const BLANK_LINE := "\n\n"

  // ---------------------------------------------------------------- splitting into blocks

  /** `s.split('\n\n')`: greedy, from the left. */
  function Split(s: string): (blocks: seq<string>)
    ensures blocks != []
    decreases |s|
  {
    var i := Find(s, BLANK_LINE, 0, |s|);
    if i == -1 then [s] else [s[..i]] + Split(s[i + 2..])
  }

  function Last<T>(s: seq<T>): T
    requires s != []
  {
    s[|s| - 1]
  }

  function Init<T>(s: seq<T>): seq<T>
    requires s != []
  {
    s[..|s| - 1]
  }

  function Join(parts: seq<string>, separator: string): string {
    if parts == [] then "" else if |parts| == 1 then parts[0] else parts[0] + separator + Join(parts[1..], separator)
  }

  /** Splitting loses nothing, and no block holds a blank line. */
  lemma {:induction false} SplitJoin(s: string)
    ensures Join(Split(s), BLANK_LINE) == s
    ensures forall b, i | b in Split(s) :: !OccursAt(b, BLANK_LINE, i)
    decreases |s|
  {
    var i := Find(s, BLANK_LINE, 0, |s|);
    if i == -1 {
      assert Split(s) == [s];
    } else {
      SplitJoin(s[i + 2..]);
      assert Split(s)[1..] == Split(s[i + 2..]);
      assert s == s[..i] + BLANK_LINE + s[i + 2..];
      forall j ensures !OccursAt(s[..i], BLANK_LINE, j) {
        assert OccursAt(s[..i], BLANK_LINE, j) ==> OccursAt(s, BLANK_LINE, j);
      }
    }
  }

  lemma {:induction false} SplitKeepsChars(s: string, c: char)
    requires c !in s
    ensures forall b | b in Split(s) :: c !in b
    decreases |s|
  {
    var i := Find(s, BLANK_LINE, 0, |s|);
    if i != -1 {
      SplitKeepsChars(s[i + 2..], c);
    }
  }

  /** Splitting can be resumed from the last block when more text arrives. */
  lemma {:induction false} SplitResume(x: string, y: string)
    ensures Split(x + y) == Init(Split(x)) + Split(Last(Split(x)) + y)
    decreases |x|
  {
    var i := Find(x, BLANK_LINE, 0, |x|);
    if i == -1 {
      assert Split(x) == [x];
    } else {
      FirstOccurrenceStays(x, y, i);
      assert (x + y)[i + 2..] == x[i + 2..] + y;
      assert (x + y)[..i] == x[..i];
      SplitResume(x[i + 2..], y);
      assert Init(Split(x)) == [x[..i]] + Init(Split(x[i + 2..]));
    }
  }

  lemma FirstOccurrenceStays(x: string, y: string, i: nat)
    requires Find(x, BLANK_LINE, 0, |x|) == i
    ensures Find(x + y, BLANK_LINE, 0, |x + y|) == i
  {
    assert OccursAt(x + y, BLANK_LINE, i);
    var j := Find(x + y, BLANK_LINE, 0, |x + y|);
    if j < i {
      assert (x + y)[j..j + 2] == x[j..j + 2];
      assert OccursAt(x, BLANK_LINE, j);
    }
  }

  // ---------------------------------------------------------------- one block to one event

  function IndexOf(s: string, c: char): (i: int)
    ensures i == -1 || (0 <= i < |s| && s[i] == c)
    ensures c in s ==> i != -1
    ensures forall j | 0 <= j < |s| && s[j] == c :: i <= j
  {
    if s == "" then -1
    else if s[0] == c then 0
    else var i := IndexOf(s[1..], c); if i == -1 then -1 else i + 1
  }

  /** `block.split(/\r?\n/)` */
  function Lines(block: string): (lines: seq<string>) {
    var i := IndexOf(block, '\n');
    if i == -1 then [block]
    else [if i > 0 && block[i - 1] == '\r' then block[..i - 1] else block[..i]] + Lines(block[i + 1..])
  }

  /** The value of a line whose separator is at `separator`, without one leading space. */
  function LineValue(line: string, separator: int): string
    requires -1 <= separator < |line|
  {
    if separator == -1 then ""
    else
      var value := line[separator + 1..];
      if value != "" && value[0] == ' ' then value[1..] else value
  }

  function NameOf(field: string): FieldName {
    if field == "event" then EventField
    else if field == "data" then DataField
    else if field == "id" then IdField
    else if field == "retry" then RetryField
    else OtherField
  }

  /** Field name and value of a line; a blank or comment line has none. */
  function Field(line: string): Option<(FieldName, string)> {
    if line == "" || line[0] == ':' then None
    else
      var i := IndexOf(line, ':');
      Some((NameOf(if i == -1 then line else line[..i]), LineValue(line, i)))
  }

  function Given(field: Option<(FieldName, string)>, name: FieldName): seq<string> {
    if field.Some? && field.value.0 == name then [field.value.1] else []
  }

  /** The values that the lines give to the field `name`, in order. */
  function Values(lines: seq<string>, name: FieldName): seq<string> {
    if lines == [] then []
    else
      Values(Init(lines), name) + Given(Field(Last(lines)), name)
  }

  /** The last value that reads as a non-negative integer. */
  function LastNumber(values: seq<string>, number: string -> Option<nat>): Option<nat> {
    if values == [] then None
    else if number(Last(values)).Some? then number(Last(values))
    else LastNumber(Init(values), number)
  }

  function LastOr(values: seq<string>, default: Option<string>): Option<string> {
    if values == [] then default else Some(Last(values))
  }

  datatype Fields = Fields(event: string, data: seq<string>, id: Option<string>, retry: Option<nat>)

  /** All `data` values, the last `event` and `id`, and the last `retry` that is a number. */
  function Collect(events: seq<string>, data: seq<string>, ids: seq<string>, retries: seq<string>,
                   number: string -> Option<nat>): Fields {
    Fields(LastOr(events, Some("message")).value, data, LastOr(ids, None), LastNumber(retries, number))
  }

  function Summary(lines: seq<string>, number: string -> Option<nat>): Fields {
    Collect(Values(lines, EventField), Values(lines, DataField), Values(lines, IdField), Values(lines, RetryField),
            number)
  }

  /** The event of a block; a block with neither data, id nor retry has none. */
  function EventOf(block: string, number: string -> Option<nat>): Option<SseEvent> {
    var Fields(event, data, id, retry) := Summary(Lines(block), number);
    if data == [] && id.None? && retry.None? then None else Some(SseEvent(event, Join(data, "\n"), id, retry))
  }

  /** The events of a list of blocks, without the blocks that have none. */
  function Events(blocks: seq<string>, number: string -> Option<nat>): seq<SseEvent> {
    if blocks == [] then []
    else
      var event := EventOf(Last(blocks), number);
      Events(Init(blocks), number) + if event.Some? then [event.value] else []
  }

  lemma {:induction false} EventsConcat(a: seq<string>, b: seq<string>, number: string -> Option<nat>)
    ensures Events(a + b, number) == Events(a, number) + Events(b, number)
  {
    if b == [] {
      assert a + b == a;
    } else {
      EventsConcat(a, Init(b), number);
      assert Init(a + b) == a + Init(b) && Last(a + b) == Last(b);
      var event := EventOf(Last(b), number);
      ConcatAssoc(Events(a, number), Events(Init(b), number), if event.Some? then [event.value] else []);
    }
  }

  /** What one more field does to the values collected so far. */
  function Update(before: Fields, field: Option<(FieldName, string)>, number: string -> Option<nat>): Fields {
    match field
    case None => before
    case Some((EventField, value)) => before.(event := value)
    case Some((DataField, value)) => before.(data := before.data + [value])
    case Some((IdField, value)) => before.(id := Some(value))
    case Some((RetryField, value)) => if number(value).Some? then before.(retry := number(value)) else before
    case Some((OtherField, _)) => before
  }

  lemma CollectStep(events: seq<string>, data: seq<string>, ids: seq<string>, retries: seq<string>,
                    field: Option<(FieldName, string)>, number: string -> Option<nat>)
    ensures Collect(events + Given(field, EventField), data + Given(field, DataField), ids + Given(field, IdField),
                    retries + Given(field, RetryField), number) ==
            Update(Collect(events, data, ids, retries, number), field, number)
  {
    assert events + [] == events && data + [] == data && ids + [] == ids && retries + [] == retries;
    if field.Some? {
      var value := field.value.1;
      assert Init(retries + [value]) == retries && Last(retries + [value]) == value;
    }
  }

  lemma ValuesStep(lines: seq<string>, k: nat, name: FieldName)
    requires k < |lines|
    ensures Values(lines[..k + 1], name) == Values(lines[..k], name) + Given(Field(lines[k]), name)
  {
    assert Init(lines[..k + 1]) == lines[..k];
  }

  lemma SummaryStep(lines: seq<string>, k: nat, number: string -> Option<nat>)
    requires k < |lines|
    ensures Summary(lines[..k + 1], number) == Update(Summary(lines[..k], number), Field(lines[k]), number)
  {
    var before := lines[..k];
    ValuesStep(lines, k, EventField);
    ValuesStep(lines, k, DataField);
    ValuesStep(lines, k, IdField);
    ValuesStep(lines, k, RetryField);
    CollectStep(Values(before, EventField), Values(before, DataField), Values(before, IdField),
                Values(before, RetryField),
                Field(lines[k]), number);
  }

  /**
   `parseEvent`: one pass over the lines, updating the fields. `number` is JavaScript's `Number` with
   the integer test.
   */
  method ParseEvent(block: string, number: string -> Option<nat>) returns (r: Option<SseEvent>)
    ensures r == EventOf(block, number)
  {
    var lines := Lines(block);
    var event, data := "message", [];
    var id: Option<string>, retry: Option<nat> := None, None;
    for k := 0 to |lines|
      invariant Fields(event, data, id, retry) == Summary(lines[..k], number)
    {
      SummaryStep(lines, k, number);
      var line := lines[k];
      if line == "" || line[0] == ':' {
        continue;
      }
      var separator := IndexOf(line, ':');
      var field := if separator == -1 then line else line[..separator];
      var value := LineValue(line, separator);
      match NameOf(field) {
        case EventField => event := value;
        case DataField => data := data + [value];
        case IdField => id := Some(value);
        case RetryField =>
          var parsed := number(value);
          if parsed.Some? {
            retry := parsed;
          }
        case OtherField =>
      }
    }
    assert lines[..|lines|] == lines;
    if data == [] && id.None? && retry.None? {
      return None;
    }
    return Some(SseEvent(event, Join(data, "\n"), id, retry));
  }

  // ---------------------------------------------------------------- what a block means

  /** A line as a server writes it. */
  datatype Entry = Event(value: string) | Data(value: string) | Id(value: string) | Retry(value: string)
                 | Ignorable(line: string)

  function Written(e: Entry): string {
    match e
    case Event(v) => "event" + ": " + v
    case Data(v) => "data" + ": " + v
    case Id(v) => "id" + ": " + v
    case Retry(v) => "retry" + ": " + v
    case Ignorable(line) => line
  }

  /** A line that names no known field: a comment, or another name. */
  predicate Unknown(line: string) {
    forall name | name in ["event", "data", "id", "retry"] :: line != name && !(name + ":" <= line)
  }

  predicate Sound(e: Entry) {
    '\r' !in Written(e) && '\n' !in Written(e) && (e.Ignorable? ==> e.line != "" && Unknown(e.line))
  }

  predicate AllSound(entries: seq<Entry>) {
    forall k | 0 <= k < |entries| :: Sound(entries[k])
  }

  /** What the entries say: all data, the last event name and identifier, the last retry that is a number. */
  function Meaning(entries: seq<Entry>, number: string -> Option<nat>): Fields {
    if entries == [] then Fields("message", [], None, None)
    else
      var before := Meaning(Init(entries), number);
      match Last(entries)
      case Event(v) => before.(event := v)
      case Data(v) => before.(data := before.data + [v])
      case Id(v) => before.(id := Some(v))
      case Retry(v) => if number(v).None? then before else before.(retry := number(v))
      case Ignorable(_) => before
  }

  function LinesOf(entries: seq<Entry>): seq<string> {
    seq(|entries|, k requires 0 <= k < |entries| => Written(entries[k]))
  }

  function Block(entries: seq<Entry>): string {
    Join(LinesOf(entries), "\n")
  }

  lemma IndexIs(s: string, c: char, i: nat)
    requires i < |s| && s[i] == c && forall j | 0 <= j < i :: s[j] != c
    ensures IndexOf(s, c) == i
  {
  }

  lemma {:induction false} NoIndex(s: string, c: char)
    requires c !in s
    ensures IndexOf(s, c) == -1
  {
    if s != "" {
      NoIndex(s[1..], c);
    }
  }

  lemma NamedLine(name: string, value: string)
    requires name != "" && ':' !in name
    ensures Field(name + ": " + value) == Some((NameOf(name), value))
    ensures value == "" || value[0] != ' ' ==> Field(name + ":" + value) == Some((NameOf(name), value))
    ensures Field(name) == Some((NameOf(name), ""))
  {
    var spaced, tight := name + ": " + value, name + ":" + value;
    IndexIs(spaced, ':', |name|);
    IndexIs(tight, ':', |name|);
    NoIndex(name, ':');
    assert spaced[..|name|] == name && tight[..|name|] == name;
    assert spaced[|name| + 1..] == " " + value && tight[|name| + 1..] == value;
  }

  lemma KnownNames()
    ensures NameOf("event") == EventField && NameOf("data") == DataField
    ensures NameOf("id") == IdField && NameOf("retry") == RetryField
  {
    assert "retry"[0] != "event"[0];
  }

  lemma UnknownLine(line: string)
    requires Unknown(line)
    ensures Field(line).None? || Field(line).value.0 == OtherField
  {
    var i := IndexOf(line, ':');
    if i != -1 {
      var name := line[..i];
      assert name + ":" <= line;
      assert name !in ["event", "data", "id", "retry"];
    } else {
      assert line !in ["event", "data", "id", "retry"];
    }
  }

  lemma EntryUpdates(before: Fields, e: Entry, number: string -> Option<nat>)
    requires Sound(e)
    ensures Update(before, Field(Written(e)), number) ==
            match e
            case Event(v) => before.(event := v)
            case Data(v) => before.(data := before.data + [v])
            case Id(v) => before.(id := Some(v))
            case Retry(v) => if number(v).None? then before else before.(retry := number(v))
            case Ignorable(_) => before
  {
    KnownNames();
    match e
    case Event(v) => NamedLine("event", v);
    case Data(v) => NamedLine("data", v);
    case Id(v) => NamedLine("id", v);
    case Retry(v) => NamedLine("retry", v);
    case Ignorable(line) => UnknownLine(line);
  }

  lemma {:induction false} SummaryIsMeaning(entries: seq<Entry>, number: string -> Option<nat>)
    requires AllSound(entries)
    ensures Summary(LinesOf(entries), number) == Meaning(entries, number)
  {
    if entries != [] {
      var n, lines := |entries| - 1, LinesOf(entries);
      SummaryIsMeaning(Init(entries), number);
      SummaryStep(lines, n, number);
      assert lines[..n] == LinesOf(Init(entries)) && lines[..n + 1] == lines;
      EntryUpdates(Meaning(Init(entries), number), Last(entries), number);
    }
  }

  lemma {:induction false} LinesOfJoin(lines: seq<string>)
    requires lines != [] && forall l | l in lines :: '\r' !in l && '\n' !in l
    ensures Lines(Join(lines, "\n")) == lines
  {
    var text := Join(lines, "\n");
    if |lines| == 1 {
      NoIndex(text, '\n');
    } else {
      var rest := Join(lines[1..], "\n");
      assert text == lines[0] + "\n" + rest;
      var first := lines[0];
      assert text[..|first|] == first && text[|first| + 1..] == rest;
      forall j | 0 <= j < |first| ensures text[j] != '\n' && text[j] != '\r' {
        assert text[j] == first[j] && first[j] in first;
      }
      IndexIs(text, '\n', |first|);
      LinesOfJoin(lines[1..]);
    }
  }

  /** Lines may end with CR LF as well. */
  lemma {:induction false} LinesOfCrLfJoin(lines: seq<string>)
    requires lines != [] && forall l | l in lines :: '\r' !in l && '\n' !in l
    ensures Lines(Join(lines, "\r\n")) == lines
  {
    var text := Join(lines, "\r\n");
    if |lines| == 1 {
      NoIndex(text, '\n');
    } else {
      var first, rest := lines[0], Join(lines[1..], "\r\n");
      assert text == first + "\r\n" + rest;
      assert text[..|first|] == first && text[|first|] == '\r' && text[|first| + 2..] == rest;
      forall j | 0 <= j < |first| ensures text[j] != '\n' {
        assert text[j] == first[j] && first[j] in first;
      }
      IndexIs(text, '\n', |first| + 1);
      LinesOfCrLfJoin(lines[1..]);
    }
  }

  function Emitted(f: Fields): Option<SseEvent> {
    if f.data == [] && f.id.None? && f.retry.None? then None
    else Some(SseEvent(f.event, Join(f.data, "\n"), f.id, f.retry))
  }

  /** A block is parsed to what its lines mean, whatever their order and number. */
  lemma BlockMeans(entries: seq<Entry>, number: string -> Option<nat>)
    requires entries != [] && AllSound(entries)
    ensures EventOf(Block(entries), number) == Emitted(Meaning(entries, number))
  {
    LinesOfJoin(LinesOf(entries));
    SummaryIsMeaning(entries, number);
  }

  /** The lines of one event, with at most one of each but the data. */
  function Encoded(event: Option<string>, data: seq<string>, id: Option<string>, retry: Option<string>): seq<Entry> {
    Named(event) + DataEntries(data) + Identified(id) + Retried(retry)
  }

  function Named(event: Option<string>): seq<Entry> {
    if event.Some? then [Event(event.value)] else []
  }

  function DataEntries(data: seq<string>): seq<Entry> {
    seq(|data|, k requires 0 <= k < |data| => Data(data[k]))
  }

  function Identified(id: Option<string>): seq<Entry> {
    if id.Some? then [Id(id.value)] else []
  }

  function Retried(retry: Option<string>): seq<Entry> {
    if retry.Some? then [Retry(retry.value)] else []
  }

  predicate OneLine(s: string) {
    '\r' !in s && '\n' !in s
  }

  lemma OptionalLinesAreSound(event: Option<string>, id: Option<string>, retry: Option<string>)
    requires (event.Some? ==> OneLine(event.value)) && (id.Some? ==> OneLine(id.value)) &&
             (retry.Some? ==> OneLine(retry.value))
    ensures AllSound(Named(event)) && AllSound(Identified(id)) && AllSound(Retried(retry))
  {
  }

  lemma SoundConcat(a: seq<Entry>, b: seq<Entry>)
    requires AllSound(a) && AllSound(b)
    ensures AllSound(a + b)
  {
  }

  lemma EncodedIsSound(event: Option<string>, data: seq<string>, id: Option<string>, retry: Option<string>)
    requires (event.Some? ==> OneLine(event.value)) && (forall k | 0 <= k < |data| :: OneLine(data[k]))
    requires (id.Some? ==> OneLine(id.value)) && (retry.Some? ==> OneLine(retry.value))
    ensures AllSound(Encoded(event, data, id, retry))
  {
    OptionalLinesAreSound(event, id, retry);
    SoundConcat(Named(event), DataEntries(data));
    SoundConcat(Named(event) + DataEntries(data), Identified(id));
    SoundConcat(Named(event) + DataEntries(data) + Identified(id), Retried(retry));
  }

  lemma {:induction false} MeaningOfData(a: seq<Entry>, data: seq<string>, number: string -> Option<nat>)
    ensures var before := Meaning(a, number);
            Meaning(a + DataEntries(data), number) == before.(data := before.data + data)
    decreases |data|
  {
    var entries := a + DataEntries(data);
    if data == [] {
      assert entries == a && Meaning(a, number).data + [] == Meaning(a, number).data;
    } else {
      MeaningOfData(a, Init(data), number);
      assert Init(entries) == a + DataEntries(Init(data));
      ConcatAssoc(Meaning(a, number).data, Init(data), [Last(data)]);
      assert Init(data) + [Last(data)] == data;
    }
  }

  /** What an optional identifier or retry line at the end adds. */
  lemma MeaningOfLast(a: seq<Entry>, id: Option<string>, retry: Option<string>, number: string -> Option<nat>)
    requires retry.Some? ==> number(retry.value).Some?
    ensures Meaning(a + Identified(id), number) ==
            if id.Some? then Meaning(a, number).(id := id) else Meaning(a, number)
    ensures Meaning(a + Retried(retry), number) ==
            if retry.Some? then Meaning(a, number).(retry := number(retry.value)) else Meaning(a, number)
  {
    assert a + [] == a;
    if id.Some? {
      assert Init(a + Identified(id)) == a;
    }
    if retry.Some? {
      assert Init(a + Retried(retry)) == a;
    }
  }

  lemma MeaningOfEncoded(event: Option<string>, data: seq<string>, id: Option<string>, retry: Option<string>,
                         number: string -> Option<nat>)
    requires retry.Some? ==> number(retry.value).Some?
    ensures Meaning(Encoded(event, data, id, retry), number) ==
            Fields(if event.Some? then event.value else "message", data, id,
                   if retry.Some? then number(retry.value) else None)
  {
    assert event.Some? ==> Init(Named(event)) == [];
    MeaningOfData(Named(event), data, number);
    assert [] + data == data;
    MeaningOfLast(Named(event) + DataEntries(data), id, None, number);
    MeaningOfLast(Named(event) + DataEntries(data) + Identified(id), None, retry, number);
  }

  /** Writing an event and parsing the block gives the event back; without a name it is a message. */
  lemma RoundTrip(event: Option<string>, data: seq<string>, id: Option<string>, retry: Option<string>,
                  number: string -> Option<nat>)
    requires (event.Some? ==> OneLine(event.value)) && (forall k | 0 <= k < |data| :: OneLine(data[k]))
    requires (id.Some? ==> OneLine(id.value)) && (retry.Some? ==> OneLine(retry.value) && number(retry.value).Some?)
    requires data != [] || id.Some? || retry.Some?
    ensures EventOf(Block(Encoded(event, data, id, retry)), number) ==
            Some(SseEvent(if event.Some? then event.value else "message", Join(data, "\n"), id,
                          if retry.Some? then number(retry.value) else None))
  {
    EncodedIsSound(event, data, id, retry);
    MeaningOfEncoded(event, data, id, retry, number);
    BlockMeans(Encoded(event, data, id, retry), number);
  }

  /** Lines that name no known field change nothing. */
  lemma {:induction false} UnknownLinesChangeNothing(a: seq<Entry>, line: string, b: seq<Entry>,
                                                     number: string -> Option<nat>)
    ensures Meaning(a + [Ignorable(line)] + b, number) == Meaning(a + b, number)
    decreases |b|
  {
    if b == [] {
      assert Init(a + [Ignorable(line)]) == a;
      assert a + [Ignorable(line)] + b == a + [Ignorable(line)] && a + b == a;
    } else {
      UnknownLinesChangeNothing(a, line, Init(b), number);
      assert Init(a + [Ignorable(line)] + b) == a + [Ignorable(line)] + Init(b) && Init(a + b) == a + Init(b);
    }
  }

  // ---------------------------------------------------------------- the parser

  function Blocks(text: string): (blocks: seq<string>)
    ensures blocks != []
  {
    Split(UnixNewlines(text))
  }

  class Parser {
    var buffer: string
    const number: string -> Option<nat>

    constructor (number: string -> Option<nat>)
      ensures buffer == "" && this.number == number
    {
      this.buffer, this.number := "", number;
    }

    method Consume(final: bool) returns (events: seq<SseEvent>)
      modifies this`buffer
      ensures buffer == if final then "" else Last(Blocks(old(buffer)))
      ensures events == Events(if final then Blocks(old(buffer)) else Init(Blocks(old(buffer))), number)
    {
      var blocks := Split(UnixNewlines(buffer));
      if !final {
        buffer, blocks := Last(blocks), Init(blocks);
      } else {
        buffer := "";
      }
      events := [];
      ghost var kept := buffer;
      for k := 0 to |blocks|
        invariant buffer == kept
        invariant events == Events(blocks[..k], number)
      {
        assert Init(blocks[..k + 1]) == blocks[..k];
        var event := ParseEvent(blocks[k], number);
        if event.Some? {
          events := events + [event.value];
        }
      }
      assert blocks[..|blocks|] == blocks;
    }

    method Push(chunk: string) returns (events: seq<SseEvent>)
      modifies this`buffer
      ensures buffer == Last(Blocks(old(buffer) + chunk))
      ensures events == Events(Init(Blocks(old(buffer) + chunk)), number)
    {
      buffer := buffer + chunk;
      events := Consume(false);
    }

    method Flush() returns (events: seq<SseEvent>)
      modifies this`buffer
      ensures buffer == ""
      ensures events == Events(Blocks(old(buffer)), number)
    {
      events := Consume(true);
    }

    method Reset()
      modifies this`buffer
      ensures buffer == ""
    {
      buffer := "";
    }
  }

  // ---------------------------------------------------------------- whole streams

  /** Everything the parser emits when it starts with `buffer`, is pushed the chunks one by one and is flushed. */
  function StreamEvents(buffer: string, chunks: seq<string>, number: string -> Option<nat>): seq<SseEvent>
    decreases |chunks|
  {
    if chunks == [] then Events(Blocks(buffer), number)
    else
      var blocks := Blocks(buffer + chunks[0]);
      Events(Init(blocks), number) + StreamEvents(Last(blocks), chunks[1..], number)
  }

  function Concat(chunks: seq<string>): string {
    if chunks == [] then "" else chunks[0] + Concat(chunks[1..])
  }

  /** The text the parser really reads: every chunk normalised on its own. */
  function NormalisedChunks(chunks: seq<string>): string {
    if chunks == [] then "" else UnixNewlines(chunks[0]) + NormalisedChunks(chunks[1..])
  }

  /** How many cuts of the stream fall inside a CR LF pair, when `seen` was read before the chunks. */
  function SplitPairs(seen: string, chunks: seq<string>): nat
    decreases |chunks|
  {
    if chunks == [] then 0
    else (if SplitsCrLf(seen, chunks[0]) then 1 else 0) + SplitPairs(seen + chunks[0], chunks[1..])
  }

  lemma OnePassStep(text: string, rest: string, number: string -> Option<nat>)
    ensures Events(Init(Split(text)), number) + Events(Split(Last(Split(text)) + rest), number) ==
            Events(Split(text + rest), number)
  {
    SplitResume(text, rest);
    EventsConcat(Init(Split(text)), Split(Last(Split(text)) + rest), number);
  }

  lemma FirstPush(buffer: string, chunks: seq<string>, number: string -> Option<nat>)
    requires '\r' !in buffer && chunks != []
    ensures var blocks := Split(buffer + UnixNewlines(chunks[0]));
            '\r' !in Last(blocks) &&
            StreamEvents(buffer, chunks, number) ==
              Events(Init(blocks), number) + StreamEvents(Last(blocks), chunks[1..], number)
  {
    UnixNewlinesIdentity(buffer);
    assert !SplitsCrLf(buffer, chunks[0]);
    UnixNewlinesConcat(buffer, chunks[0]);
    SplitKeepsChars(buffer + UnixNewlines(chunks[0]), '\r');
  }

  /** For every chunking: the events are those of one pass over the separately normalised chunks. */
  lemma {:induction false} StreamIsOnePass(buffer: string, chunks: seq<string>, number: string -> Option<nat>)
    requires '\r' !in buffer
    ensures StreamEvents(buffer, chunks, number) == Events(Split(buffer + NormalisedChunks(chunks)), number)
    decreases |chunks|
  {
    if chunks == [] {
      UnixNewlinesIdentity(buffer);
      assert buffer + NormalisedChunks(chunks) == buffer;
    } else {
      var text := buffer + UnixNewlines(chunks[0]);
      FirstPush(buffer, chunks, number);
      StreamIsOnePass(Last(Split(text)), chunks[1..], number);
      OnePassStep(text, NormalisedChunks(chunks[1..]), number);
      ConcatAssoc(buffer, UnixNewlines(chunks[0]), NormalisedChunks(chunks[1..]));
    }
  }

  /** Separate normalisation reads one extra LF for each split pair and is otherwise exact. */
  lemma {:induction false} NormalisedChunksExact(seen: string, chunks: seq<string>)
    ensures |UnixNewlines(seen) + NormalisedChunks(chunks)| ==
            |UnixNewlines(seen + Concat(chunks))| + SplitPairs(seen, chunks)
    ensures UnixNewlines(seen) + NormalisedChunks(chunks) == UnixNewlines(seen + Concat(chunks)) <==>
            SplitPairs(seen, chunks) == 0
    decreases |chunks|
  {
    if chunks == [] {
      assert seen + Concat(chunks) == seen;
    } else {
      var c, rest := chunks[0], chunks[1..];
      UnixNewlinesConcat(seen, c);
      NormalisedChunksExact(seen + c, rest);
      ConcatAssoc(seen, c, Concat(rest));
      ConcatAssoc(UnixNewlines(seen), UnixNewlines(c), NormalisedChunks(rest));
    }
  }

  /**
   The blocks that are read chunk by chunk are those of the whole stream if and only if no chunk
   boundary splits a CR LF pair. `StreamIsOnePass` says which events they give.
   */
  lemma BlocksReadExact(chunks: seq<string>)
    ensures Split(NormalisedChunks(chunks)) == Split(UnixNewlines(Concat(chunks))) <==> SplitPairs("", chunks) == 0
  {
    NormalisedChunksExact("", chunks);
    SplitJoin(NormalisedChunks(chunks));
    SplitJoin(UnixNewlines(Concat(chunks)));
    assert UnixNewlines("") + NormalisedChunks(chunks) == NormalisedChunks(chunks) &&
           "" + Concat(chunks) == Concat(chunks);
  }

  /** Incremental parsing equals batch parsing for every chunking that splits no CR LF pair. */
  lemma IncrementalEqualsBatch(chunks: seq<string>, number: string -> Option<nat>)
    requires SplitPairs("", chunks) == 0
    ensures StreamEvents("", chunks, number) == StreamEvents("", [Concat(chunks)], number)
  {
    StreamIsOnePass("", chunks, number);
    StreamIsOnePass("", [Concat(chunks)], number);
    NormalisedChunksExact("", chunks);
    NormalisedChunksExact("", [Concat(chunks)]);
    assert "" + Concat(chunks) == Concat(chunks) && "" + Concat([Concat(chunks)]) == Concat(chunks);
    assert UnixNewlines("") == "" && SplitPairs("", [Concat(chunks)]) == 0;
  }

  // ---------------------------------------------------------------- what a stream means

  predicate AllBlocksSound(blocks: seq<seq<Entry>>) {
    forall k | 0 <= k < |blocks| :: blocks[k] != [] && AllSound(blocks[k])
  }

  /** The blocks as a server sends them, each ended by a blank line. */
  function Sent(blocks: seq<seq<Entry>>): string {
    if blocks == [] then "" else Block(blocks[0]) + BLANK_LINE + Sent(blocks[1..])
  }

  /** The events that the blocks mean. */
  function Said(blocks: seq<seq<Entry>>, number: string -> Option<nat>): seq<SseEvent> {
    if blocks == [] then []
    else
      var event := Emitted(Meaning(blocks[0], number));
      (if event.Some? then [event.value] else []) + Said(blocks[1..], number)
  }

  /** Text with no empty line in it, and no CR. */
  predicate Dense(s: string) {
    s != "" && '\r' !in s && s[0] != '\n' && s[|s| - 1] != '\n' &&
    forall i | 0 <= i < |s| - 1 :: !(s[i] == '\n' && s[i + 1] == '\n')
  }

  lemma {:induction false} JoinIsDense(lines: seq<string>)
    requires lines != [] && forall k | 0 <= k < |lines| :: lines[k] != "" && OneLine(lines[k])
    ensures Dense(Join(lines, "\n"))
  {
    if |lines| > 1 {
      JoinIsDense(lines[1..]);
    }
  }

  lemma BlockIsDense(entries: seq<Entry>)
    requires entries != [] && AllSound(entries)
    ensures Dense(Block(entries))
  {
    JoinIsDense(LinesOf(entries));
  }

  lemma SplitOffDense(block: string, rest: string)
    requires Dense(block)
    ensures Split(block + BLANK_LINE + rest) == [block] + Split(rest)
  {
    var s, n := block + BLANK_LINE + rest, |block|;
    BlankLineAt(s, n);
    forall i | 0 <= i < n ensures !OccursAt(s, BLANK_LINE, i) {
      BlankLineAt(s, i);
      assert i + 1 < n ==> s[i] == block[i] && s[i + 1] == block[i + 1];
    }
    assert Find(s, BLANK_LINE, 0, |s|) == n;
    assert s[..n] == block && s[n + 2..] == rest;
  }

  lemma NoEventInNothing(number: string -> Option<nat>)
    ensures EventOf("", number).None?
  {
    assert Lines("") == [""] && Init([""]) == [];
  }

  lemma NoEventAtTheEnd(number: string -> Option<nat>)
    ensures Split("") == [""] && Events([""], number) == []
  {
    NoEventInNothing(number);
    assert Init([""]) == [];
  }

  lemma {:induction false} SentHasNoCr(blocks: seq<seq<Entry>>)
    requires AllBlocksSound(blocks)
    ensures '\r' !in Sent(blocks)
  {
    if blocks != [] {
      BlockIsDense(blocks[0]);
      SentHasNoCr(blocks[1..]);
    }
  }

  lemma {:induction false} EventsOfSent(blocks: seq<seq<Entry>>, number: string -> Option<nat>)
    requires AllBlocksSound(blocks)
    ensures Events(Split(Sent(blocks)), number) == Said(blocks, number)
  {
    if blocks == [] {
      NoEventAtTheEnd(number);
    } else {
      var block, rest := Block(blocks[0]), Sent(blocks[1..]);
      BlockIsDense(blocks[0]);
      SplitOffDense(block, rest);
      assert Split(Sent(blocks)) == [block] + Split(rest);
      EventsConcat([block], Split(rest), number);
      OneBlock(blocks[0], number);
      EventsOfSent(blocks[1..], number);
    }
  }

  lemma OneBlock(entries: seq<Entry>, number: string -> Option<nat>)
    requires entries != [] && AllSound(entries)
    ensures var event := Emitted(Meaning(entries, number));
            Events([Block(entries)], number) == if event.Some? then [event.value] else []
  {
    BlockMeans(entries, number);
    assert Init([Block(entries)]) == [];
  }

  lemma {:induction false} NothingToNormalise(chunks: seq<string>)
    requires '\r' !in Concat(chunks)
    ensures NormalisedChunks(chunks) == Concat(chunks)
  {
    if chunks != [] {
      UnixNewlinesIdentity(chunks[0]);
      NothingToNormalise(chunks[1..]);
    }
  }

  lemma {:induction false} NothingLeft(blocks: seq<seq<Entry>>)
    requires AllBlocksSound(blocks)
    ensures Last(Split(Sent(blocks))) == ""
  {
    if blocks == [] {
      assert Split("") == [""];
    } else {
      BlockIsDense(blocks[0]);
      SplitOffDense(Block(blocks[0]), Sent(blocks[1..]));
      NothingLeft(blocks[1..]);
    }
  }

  lemma WithoutLast(parts: seq<string>, number: string -> Option<nat>)
    requires parts != [] && Last(parts) == ""
    ensures Events(Init(parts), number) == Events(parts, number)
  {
    NoEventInNothing(number);
    assert Events(parts, number) == Events(Init(parts), number) + [];
  }

  /** A push of whole blocks emits all their events at once and leaves nothing in the buffer. */
  lemma PushOfWholeBlocks(blocks: seq<seq<Entry>>, number: string -> Option<nat>)
    requires AllBlocksSound(blocks)
    ensures var parts := Blocks("" + Sent(blocks));
            Last(parts) == "" && Events(Init(parts), number) == Said(blocks, number)
  {
    var text := Sent(blocks);
    assert "" + text == text;
    SentHasNoCr(blocks);
    UnixNewlinesIdentity(text);
    NothingLeft(blocks);
    WithoutLast(Split(text), number);
    EventsOfSent(blocks, number);
  }

  /** However a stream of blocks is cut into chunks, pushing them gives exactly the events that the blocks mean. */
  lemma StreamMeans(blocks: seq<seq<Entry>>, chunks: seq<string>, number: string -> Option<nat>)
    requires AllBlocksSound(blocks) && Concat(chunks) == Sent(blocks)
    ensures StreamEvents("", chunks, number) == Said(blocks, number)
  {
    EventsOfSent(blocks, number);
    SentHasNoCr(blocks);
    NothingToNormalise(chunks);
    StreamIsOnePass("", chunks, number);
    assert "" + NormalisedChunks(chunks) == Sent(blocks);
  }

  // ---------------------------------------------------------------- a split pair

  lemma SingleEvent(block: string, number: string -> Option<nat>)
    requires EventOf(block, number).Some?
    ensures |Events([block], number)| == 1
  {
  }

  /** A block whose last line is `id` has an event. */
  lemma IdLineHasEvent(block: string, number: string -> Option<nat>)
    requires Last(Lines(block)) == "id"
    ensures EventOf(block, number).Some?
  {
  }

  lemma TwoEventsWhenCut(number: string -> Option<nat>)
    ensures |StreamEvents("", ["id\r", "\nid"], number)| == 2
  {
    assert Lines("id") == ["id"];
    IdLineHasEvent("id", number);
    SingleEvent("id", number);
    CutText();
    EventsConcat(["id"], ["id"], number);
    StreamIsOnePass("", ["id\r", "\nid"], number);
  }

  lemma LinesOfTwoIds()
    ensures Lines("id\nid") == ["id", "id"]
  {
    assert "id\nid"[..2] == "id" && "id\nid"[3..] == "id";
    assert Lines("id") == ["id"];
    assert Lines("id\nid") == ["id"] + Lines("id");
  }

  lemma OneEventWhenWhole(number: string -> Option<nat>)
    ensures |StreamEvents("", ["id\r\nid"], number)| == 1
  {
    WholeText();
    LinesOfTwoIds();
    IdLineHasEvent("id\nid", number);
    SingleEvent("id\nid", number);
    StreamIsOnePass("", ["id\r\nid"], number);
  }

  /**
   The hypothesis is needed: cutting `id CR LF id` inside the pair makes the parser see a blank
   line, and two events come out instead of one.
   */
  lemma SplitPairCounterexample(number: string -> Option<nat>)
    ensures SplitPairs("", ["id\r", "\nid"]) == 1
    ensures |StreamEvents("", ["id\r", "\nid"], number)| == 2
    ensures |StreamEvents("", [Concat(["id\r", "\nid"])], number)| == 1
  {
    OneSplitPair();
    TwoEventsWhenCut(number);
    OneEventWhenWhole(number);
  }

  lemma OneSplitPair()
    ensures SplitPairs("", ["id\r", "\nid"]) == 1 && Concat(["id\r", "\nid"]) == "id\r\nid"
  {
  }

  lemma BlankLineAt(s: string, i: int)
    ensures OccursAt(s, BLANK_LINE, i) <==> 0 <= i && i + 1 < |s| && s[i] == '\n' && s[i + 1] == '\n'
  {
  }

  lemma CutText()
    ensures Split("" + NormalisedChunks(["id\r", "\nid"])) == ["id"] + ["id"]
  {
    var cut := ["id\r", "\nid"];
    assert cut[1..] == ["\nid"] && cut[1..][1..] == [];
    assert "id\r"[1..] == "d\r" && "d\r"[1..] == "\r" && "\nid"[1..] == "id" && "id"[1..] == "d" && "d"[1..] == "";
    assert "\r"[1..] == "";
    assert ReplaceCrLf("id\r") == "id\r" && ReplaceCrLf("\nid") == "\nid";
    assert UnixNewlines("id\r") == "id\n" && UnixNewlines("\nid") == "\nid";
    var text := "id\n\nid";
    assert "" + NormalisedChunks(cut) == text;
    SplitTwoIds();
  }

  lemma SplitTwoIds()
    ensures Split("id\n\nid") == ["id"] + ["id"]
  {
    var text := "id\n\nid";
    BlankLineAt(text, 0);
    BlankLineAt(text, 1);
    BlankLineAt(text, 2);
    assert text[..2] == "id" && text[4..] == "id";
    BlankLineAt("id", 0);
  }

  lemma WholeText()
    ensures Split("" + NormalisedChunks(["id\r\nid"])) == ["id\nid"]
  {
    var whole := ["id\r\nid"];
    assert whole[1..] == [];
    assert "id\r\nid"[1..] == "d\r\nid" && "d\r\nid"[1..] == "\r\nid" && "\r\nid"[2..] == "id" && "id"[1..] == "d" &&
           "d"[1..] == "";
    assert ReplaceCrLf("id") == "id";
    assert ReplaceCrLf("id\r\nid") == "id\nid";
    assert UnixNewlines("id\r\nid") == "id\nid";
    var text := "id\nid";
    assert "" + NormalisedChunks(whole) == text;
    forall i ensures !OccursAt(text, BLANK_LINE, i) {
      BlankLineAt(text, i);
    }
  }
}
