/** Decoding a text/event-stream, one character per byte. */
module EventStream {
  import opened Basics
  import opened Text

  datatype Event = Event(kind: string, data: string)

  /** What the reader reports once its bytes are used up. */
  datatype Ending = Eof | Broken

  datatype Outcome = Got(event: Event) | Finished | Failed

  // ----- What a stream means

  function Join(lines: seq<string>): string {
    if lines == [] then "" else if |lines| == 1 then lines[0] else Join(lines[..|lines| - 1]) + "\n" + lines[|lines| - 1]
  }

  function StripCr(s: string): (r: string)
    ensures |r| <= |s| && r == s[..|r|] && (r != "" ==> r[|r| - 1] != '\r')
    ensures forall i | |r| <= i < |s| :: s[i] == '\r'
  {
    if s != "" && s[|s| - 1] == '\r' then StripCr(s[..|s| - 1]) else s
  }

  /** The event gathered so far. */
  datatype Pending = Pending(kind: string, lines: seq<string>)

  const NOTHING := Pending("", [])

  function Flush(p: Pending, line: string): Pending {
    if HasPrefix(line, "event:") then p.(kind := Trim(line[6..]))
    else if HasPrefix(line, "data:") then p.(lines := p.lines + [Trim(line[5..])])
    else p
  }

  predicate Emits(p: Pending) {
    p.lines != [] || p.kind != ""
  }

  function Emitted(p: Pending): Event {
    Event(if p.kind == "" then "message" else p.kind, Join(p.lines))
  }

  function LineEnd(s: string): (r: nat)
    ensures r <= |s| && (forall i | 0 <= i < r :: s[i] != '\n') && (r < |s| ==> s[r] == '\n')
  {
    if s == "" || s[0] == '\n' then 0 else 1 + LineEnd(s[1..])
  }

  /** The next event of a stream, given what has been gathered, and what is left of the
      stream after it. */
  function Parse(s: string, p: Pending, ending: Ending): (r: (Outcome, string))
    ensures |r.1| <= |s| && (s != "" ==> |r.1| < |s|)
    ensures r.0.Got? && s == "" ==> Emits(p)
    decreases |s|
  {
    var n := LineEnd(s);
    var line := StripCr(s[..n]);
    if n == |s| then
      var last := if line == "" then p else Flush(p, line);
      (if ending.Broken? then Failed else if Emits(last) then Got(Emitted(last)) else Finished, "")
    else if line != "" then Parse(s[n + 1..], Flush(p, line), ending)
    else if Emits(p) then (Got(Emitted(p)), s[n + 1..])
    else Parse(s[n + 1..], p, ending)
  }

  /** Every event of a stream. */
  function Events(s: string, ending: Ending): seq<Event>
    decreases |s|
  {
    var r := Parse(s, NOTHING, ending);
    if r.0.Got? then [r.0.event] + Events(r.1, ending) else []
  }

  // ----- The decoder

  /** While a line is being read, the parse of that line and the rest is the parse at hand. */
  lemma ParseFullLine(line: string, rest: string, p: Pending, ending: Ending)
    requires forall i | 0 <= i < |line| :: line[i] != '\n'
    ensures Parse(line + "\n" + rest, p, ending) ==
            if StripCr(line) != "" then Parse(rest, Flush(p, StripCr(line)), ending)
            else if Emits(p) then (Got(Emitted(p)), rest)
            else Parse(rest, p, ending)
  {
    var s := line + "\n" + rest;
    assert s[|line|] == '\n';
    assert forall i | 0 <= i < |line| :: s[i] == line[i];
    assert LineEnd(s) == |line|;
    assert s[..|line|] == line && s[|line| + 1..] == rest;
  }

  lemma ParseLastLine(line: string, p: Pending, ending: Ending)
    requires forall i | 0 <= i < |line| :: line[i] != '\n'
    ensures var last := if StripCr(line) == "" then p else Flush(p, StripCr(line));
            Parse(line, p, ending) == (if ending.Broken? then Failed else if Emits(last) then Got(Emitted(last)) else Finished, "")
  {
    assert LineEnd(line) == |line| && line[..|line|] == line;
  }

  class Decoder {
    const input: string
    const ending: Ending
    var pos: nat

    constructor (input: string, ending: Ending)
      ensures this.input == input && this.ending == ending && pos == 0
    {
      this.input := input;
      this.ending := ending;
      pos := 0;
    }

    /** Reads byte by byte up to the end of one event. */
    method Next() returns (r: Outcome)
      requires pos <= |input|
      modifies this
      ensures old(pos) <= pos <= |input|
      ensures (r, input[pos..]) == Parse(old(input[pos..]), NOTHING, ending)
    {
      hide Parse, Flush, Emits, Emitted, StripCr;
      ghost var start := input[pos..];
      var line, gathered := "", NOTHING;
      assert line + input[pos..] == start;
      while pos < |input|
        invariant old(pos) <= pos <= |input|
        invariant forall i | 0 <= i < |line| :: line[i] != '\n'
        invariant Parse(line + input[pos..], gathered, ending) == Parse(start, NOTHING, ending)
        decreases |input| - pos
      {
        var b := input[pos];
        ghost var rest := input[pos + 1..];
        assert input[pos..] == [b] + rest;
        pos := pos + 1;
        if b == '\n' {
          var curr := StripCr(line);
          assert line + ([b] + rest) == line + "\n" + rest;
          ParseFullLine(line, rest, gathered, ending);
          line := "";
          assert "" + rest == rest;
          if curr == "" {
            if Emits(gathered) {
              return Got(Emitted(gathered));
            }
          } else {
            gathered := Flush(gathered, curr);
          }
        } else {
          assert line + ([b] + rest) == (line + [b]) + rest;
          line := line + [b];
        }
      }
      assert line + input[pos..] == line && input[pos..] == "";
      ParseLastLine(line, gathered, ending);
      if ending.Broken? {
        return Failed;
      }
      var curr := StripCr(line);
      if curr != "" {
        gathered := Flush(gathered, curr);
      }
      r := if Emits(gathered) then Got(Emitted(gathered)) else Finished;
    }
  }

  /** Reading on until the stream ends yields all its events. */
  method ReadAll(input: string, ending: Ending) returns (events: seq<Event>)
    ensures events == Events(input, ending)
  {
    hide Events, Parse;
    var decoder := new Decoder(input, ending);
    events := [];
    ghost var left := Events(input, ending);
    assert input[0..] == input;
    while true
      invariant decoder.input == input && decoder.ending == ending && decoder.pos <= |input|
      invariant left == Events(input[decoder.pos..], ending) && events + left == Events(input, ending)
      decreases |input| - decoder.pos
    {
      ghost var pos := decoder.pos;
      EventsUnfold(input[pos..], ending);
      var r := decoder.Next();
      if !r.Got? {
        return;
      }
      NextIsLater(input, pos, decoder.pos, ending);
      left := left[1..];
      events := events + [r.event];
    }
  }

  lemma EventsUnfold(s: string, ending: Ending)
    ensures var r := Parse(s, NOTHING, ending);
            Events(s, ending) == if r.0.Got? then [r.0.event] + Events(r.1, ending) else []
  {
  }

  lemma NextIsLater(input: string, pos: nat, next: nat, ending: Ending)
    requires pos <= next <= |input| && Parse(input[pos..], NOTHING, ending).0.Got?
    requires input[next..] == Parse(input[pos..], NOTHING, ending).1
    ensures pos < next
  {
    hide Parse;
  }

  // ----- Encoding and decoding

  datatype Eol = Lf | CrLf

  function EolText(eol: Eol): string {
    if eol.Lf? then "\n" else "\r\n"
  }

  /** One line of an event on the wire: what follows "event:" or "data:", or a whole line of
      another kind, such as a comment or an identifier. */
  datatype Field = Kind(text: string) | Data(text: string) | Other(text: string)

  /** An event as it is put on the wire: its lines, and how each and the closing blank line
      end. */
  datatype Wire = Wire(fields: seq<(Field, Eol)>, blank: Eol)

  predicate Clean(s: string) {
    forall i | 0 <= i < |s| :: s[i] != '\n' && s[i] != '\r'
  }

  function LineOf(f: Field): string {
    match f
    case Kind(text) => "event:" + text
    case Data(text) => "data:" + text
    case Other(text) => text
  }

  predicate EncodableField(f: Field) {
    Clean(f.text) && (f.Other? ==> f.text != "" && !("event:" <= f.text) && !("data:" <= f.text))
  }

  predicate Encodable(w: Wire) {
    forall i | 0 <= i < |w.fields| :: EncodableField(w.fields[i].0)
  }

  function LineText(line: string, eol: Eol): string {
    line + EolText(eol)
  }

  function FieldsText(fields: seq<(Field, Eol)>): string {
    if fields == [] then ""
    else FieldsText(fields[..|fields| - 1]) + LineText(LineOf(fields[|fields| - 1].0), fields[|fields| - 1].1)
  }

  function BodyText(w: Wire): string {
    FieldsText(w.fields)
  }

  function WireText(w: Wire): string {
    BodyText(w) + LineText("", w.blank)
  }

  function StreamText(ws: seq<Wire>): string {
    if ws == [] then "" else WireText(ws[0]) + StreamText(ws[1..])
  }

  /** The last event line names the event. */
  function KindOf(fields: seq<(Field, Eol)>): string {
    if fields == [] then ""
    else if fields[|fields| - 1].0.Kind? then Trim(fields[|fields| - 1].0.text)
    else KindOf(fields[..|fields| - 1])
  }

  /** The data lines, each without white space around it. */
  function DataOf(fields: seq<(Field, Eol)>): seq<string> {
    if fields == [] then []
    else
      DataOf(fields[..|fields| - 1]) +
      if fields[|fields| - 1].0.Data? then [Trim(fields[|fields| - 1].0.text)] else []
  }

  function Meant(w: Wire): Pending {
    Pending(KindOf(w.fields), DataOf(w.fields))
  }

  /** The event that a wire stands for; one with neither a name nor data stands for none. */
  function EventOf(w: Wire): seq<Event> {
    if Emits(Meant(w)) then [Emitted(Meant(w))] else []
  }

  function Expected(ws: seq<Wire>): seq<Event> {
    if ws == [] then [] else EventOf(ws[0]) + Expected(ws[1..])
  }

  /** Line after line, each but the first on a new line. */
  function Lined(lines: seq<string>): string {
    if lines == [] then "" else "\n" + lines[0] + Lined(lines[1..])
  }

  lemma {:induction false} LinedAppend(lines: seq<string>, line: string)
    ensures Lined(lines + [line]) == Lined(lines) + "\n" + line
  {
    if lines == [] {
      assert Lined([line]) == "\n" + line + Lined([line][1..]);
    } else {
      LinedAppend(lines[1..], line);
      assert (lines + [line])[1..] == lines[1..] + [line];
    }
  }

  lemma {:induction false} JoinIsLined(lines: seq<string>)
    ensures lines != [] ==> "\n" + Join(lines) == Lined(lines)
  {
    if |lines| == 1 {
      assert Lined(lines) == "\n" + lines[0] + Lined(lines[1..]);
    } else if lines != [] {
      var init, last := lines[..|lines| - 1], lines[|lines| - 1];
      assert lines == init + [last];
      JoinIsLined(init);
      LinedAppend(init, last);
    }
  }

  /** The event of a wire with a name or data: "message" if it has no name, and its data
      lines in order, each on a line of its own. */
  lemma EventOfExactly(w: Wire)
    ensures if KindOf(w.fields) == "" && DataOf(w.fields) == [] then EventOf(w) == []
            else
              && |EventOf(w)| == 1
              && EventOf(w)[0].kind == (if KindOf(w.fields) == "" then "message" else KindOf(w.fields))
              && (if DataOf(w.fields) == [] then EventOf(w)[0].data == "" else "\n" + EventOf(w)[0].data == Lined(DataOf(w.fields)))
  {
    JoinIsLined(DataOf(w.fields));
  }

  /** One terminated line. */
  lemma ParseLine(line: string, eol: Eol, rest: string, p: Pending, ending: Ending)
    requires Clean(line)
    ensures Parse(LineText(line, eol) + rest, p, ending) ==
            if line != "" then Parse(rest, Flush(p, line), ending)
            else if Emits(p) then (Got(Emitted(p)), rest) else Parse(rest, p, ending)
  {
    hide Parse, Flush;
    var cr := if eol.Lf? then "" else "\r";
    assert LineText(line, eol) == (line + cr) + "\n";
    ParseFullLine(line + cr, rest, p, ending);
    StripOfClean(line, cr);
  }

  lemma StripOfClean(line: string, cr: string)
    requires Clean(line) && (cr == "" || cr == "\r")
    ensures StripCr(line + cr) == line
  {
    if cr == "" {
      assert line + cr == line;
    } else {
      assert (line + cr)[..|line|] == line;
    }
  }

  lemma FlushField(p: Pending, f: Field)
    requires EncodableField(f)
    ensures LineOf(f) != "" && Clean(LineOf(f))
    ensures Flush(p, LineOf(f)) ==
            match f
            case Kind(text) => p.(kind := Trim(text))
            case Data(text) => p.(lines := p.lines + [Trim(text)])
            case Other(_) => p
  {
    hide Trim;
    var line := LineOf(f);
    match f
    case Kind(text) => assert line[..6] == "event:" && line[6..] == text;
    case Data(text) => assert line[..5] == "data:" && line[5..] == text && line[0] == 'd';
    case Other(text) =>
  }

  /** The body of an event makes the decoder gather exactly what it means. */
  lemma {:induction false} ParseFields(fields: seq<(Field, Eol)>, rest: string, ending: Ending)
    requires forall i | 0 <= i < |fields| :: EncodableField(fields[i].0)
    ensures Parse(FieldsText(fields) + rest, NOTHING, ending) == Parse(rest, Pending(KindOf(fields), DataOf(fields)), ending)
  {
    hide Parse, Flush, Trim, Clean, LineText, EncodableField, LineOf;
    if fields == [] {
      assert FieldsText(fields) + rest == rest;
    } else {
      var init, f, eol := fields[..|fields| - 1], fields[|fields| - 1].0, fields[|fields| - 1].1;
      Assoc(FieldsText(init), LineText(LineOf(f), eol), rest);
      ParseFields(init, LineText(LineOf(f), eol) + rest, ending);
      var p := Pending(KindOf(init), DataOf(init));
      FlushField(p, f);
      ParseLine(LineOf(f), eol, rest, p, ending);
      assert DataOf(init) + [] == DataOf(init);
    }
  }

  lemma ParseBody(w: Wire, rest: string, ending: Ending)
    requires Encodable(w)
    ensures Parse(BodyText(w) + rest, NOTHING, ending) == Parse(rest, Meant(w), ending)
  {
    hide Parse, EncodableField;
    ParseFields(w.fields, rest, ending);
  }

  /** A complete event is read off the stream, and nothing of it stays behind. */
  lemma ParseWire(w: Wire, rest: string, ending: Ending)
    requires Encodable(w)
    ensures Parse(WireText(w) + rest, NOTHING, ending) ==
            if Emits(Meant(w)) then (Got(Emitted(Meant(w))), rest) else Parse(rest, NOTHING, ending)
  {
    hide Parse, Emitted, BodyText, LineText, Encodable, Trim;
    Assoc(BodyText(w), LineText("", w.blank), rest);
    ParseBody(w, LineText("", w.blank) + rest, ending);
    ParseLine("", w.blank, rest, Meant(w), ending);
    NothingMeant(w);
  }

  lemma NothingMeant(w: Wire)
    ensures !Emits(Meant(w)) ==> Meant(w) == NOTHING
  {
  }

  lemma EventsOfWire(w: Wire, rest: string, ending: Ending)
    requires Encodable(w)
    ensures Events(WireText(w) + rest, ending) == EventOf(w) + Events(rest, ending)
  {
    hide Parse, Events, WireText, Encodable, Emits, Emitted, Meant;
    ParseWire(w, rest, ending);
    EventsUnfold(WireText(w) + rest, ending);
    EventsUnfold(rest, ending);
    assert [] + Events(rest, ending) == Events(rest, ending);
  }

  /** Decoding what was encoded gives back exactly the events meant, then the rest. */
  lemma {:induction false} DecodeOfEncode(ws: seq<Wire>, rest: string, ending: Ending)
    requires forall i | 0 <= i < |ws| :: Encodable(ws[i])
    ensures Events(StreamText(ws) + rest, ending) == Expected(ws) + Events(rest, ending)
  {
    hide Events, WireText, Encodable, EventOf;
    if ws == [] {
      assert StreamText(ws) + rest == rest && Expected(ws) + Events(rest, ending) == Events(rest, ending);
    } else {
      Assoc(WireText(ws[0]), StreamText(ws[1..]), rest);
      EventsOfWire(ws[0], StreamText(ws[1..]) + rest, ending);
      DecodeOfEncode(ws[1..], rest, ending);
      Assoc(EventOf(ws[0]), Expected(ws[1..]), Events(rest, ending));
    }
  }

  /** The lines of a named event with data, as a server writes them. */
  function Written(kind: string, data: seq<string>, eol: Eol): (r: seq<(Field, Eol)>)
    ensures |r| == |data| + 1
  {
    if data == [] then [(Kind(" " + kind), eol)]
    else Written(kind, data[..|data| - 1], eol) + [(Data(" " + data[|data| - 1]), eol)]
  }

  lemma TrimBlank(text: string)
    requires Trimmed(text)
    ensures Trim(" " + text) == text
  {
    hide TrimLeft, TrimRight, Trimmed;
    TrimLeftOfBlank(" ", text);
    TrimOfTrimmed(text);
  }

  lemma {:induction false} WrittenMeans(kind: string, data: seq<string>, eol: Eol)
    requires Trimmed(kind) && forall i | 0 <= i < |data| :: Trimmed(data[i])
    ensures KindOf(Written(kind, data, eol)) == kind && DataOf(Written(kind, data, eol)) == data
  {
    hide Trim, Trimmed;
    if data == [] {
      TrimBlank(kind);
      var fields := [(Kind(" " + kind), eol)];
      assert fields[..0] == [];
    } else {
      var init, last := data[..|data| - 1], data[|data| - 1];
      WrittenMeans(kind, init, eol);
      TrimBlank(last);
      assert Written(kind, data, eol)[..|data|] == Written(kind, init, eol);
      assert data == init + [last];
    }
  }

  /** Values without white space at their ends come back as they were sent. */
  lemma TrimmedValuesComeBack(kind: string, data: seq<string>, eol: Eol)
    requires kind != "" && Trimmed(kind) && forall i | 0 <= i < |data| :: Trimmed(data[i])
    ensures EventOf(Wire(Written(kind, data, eol), eol)) == [Event(kind, Join(data))]
  {
    hide Trim, Trimmed;
    WrittenMeans(kind, data, eol);
  }

  /** A last event without its blank line is delivered at the end of the stream, and lost
      if the stream breaks instead. */
  lemma UnterminatedEvent(ws: seq<Wire>, w: Wire, ending: Ending)
    requires Encodable(w) && forall i | 0 <= i < |ws| :: Encodable(ws[i])
    ensures Events(StreamText(ws) + BodyText(w), ending) == Expected(ws) + if ending.Eof? then EventOf(w) else []
  {
    hide Events, Expected, StreamText, EventOf, Encodable, BodyText;
    DecodeOfEncode(ws, BodyText(w), ending);
    EventsOfBody(w, ending);
  }

  lemma EventsOfBody(w: Wire, ending: Ending)
    requires Encodable(w)
    ensures Events(BodyText(w), ending) == if ending.Eof? then EventOf(w) else []
  {
    hide Parse, Events, BodyText, Encodable, Emitted, Meant, Flush;
    assert BodyText(w) + "" == BodyText(w);
    ParseBody(w, "", ending);
    ParseLastLine("", Meant(w), ending);
    EventsUnfold(BodyText(w), ending);
    EventsUnfold("", ending);
    ParseLastLine("", NOTHING, ending);
  }
}
