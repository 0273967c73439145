/** Putting the gateway's streamed response frames together into one completion. */
module ChatResponse {
  import opened Basics
  import opened ChatRewrite

  /** A piece of content: some text, and the native chunk it carries if that is valid. */
  datatype Piece = Piece(text: string, native: Option<Json>)
  datatype FrameChoice = FrameChoice(pieces: seq<Piece>, finish: string)

  /** One line of the body. Empty strings and texts stand for absent fields. */
  datatype Frame = Frame(heading: Heading, choices: seq<FrameChoice>)
  datatype Heading = Heading(id: string, model: string, created: string, usage: string)

  datatype Choice = Choice(index: nat, text: string, provider: seq<Json>, finish: string)
  datatype Completion = Completion(id: string, model: string, created: int, usage: string, choices: seq<Choice>)

  // ----- What a list of frames says

  function TextOfPieces(pieces: seq<Piece>): string {
    if pieces == [] then "" else TextOfPieces(pieces[..|pieces| - 1]) + pieces[|pieces| - 1].text
  }

  function NativeOfPieces(pieces: seq<Piece>): seq<Json> {
    if pieces == [] then []
    else
      var last := pieces[|pieces| - 1];
      NativeOfPieces(pieces[..|pieces| - 1]) + if last.native.Some? then [last.native.value] else []
  }

  /** All the pieces that the frames hold for one choice. */
  function PiecesAt(frames: seq<Frame>, i: nat): seq<Piece> {
    if frames == [] then []
    else
      var last := frames[|frames| - 1];
      PiecesAt(frames[..|frames| - 1], i) + if i < |last.choices| then last.choices[i].pieces else []
  }

  function Later(earlier: string, later: string): string {
    if later != "" then later else earlier
  }

  function FinishAt(frames: seq<Frame>, i: nat): string {
    if frames == [] then ""
    else
      var last := frames[|frames| - 1];
      Later(FinishAt(frames[..|frames| - 1], i), if i < |last.choices| then last.choices[i].finish else "")
  }

  /** The largest number of choices in one frame. */
  function Width(frames: seq<Frame>): nat {
    if frames == [] then 0
    else
      var before, n := Width(frames[..|frames| - 1]), |frames[|frames| - 1].choices|;
      if before < n then n else before
  }

  const NO_HEADING := Heading("", "", "", "")

  function Merged(a: Heading, b: Heading): Heading {
    Heading(Later(a.id, b.id), Later(a.model, b.model), Later(a.created, b.created), Later(a.usage, b.usage))
  }

  /** Of each field, the last that is not empty. */
  function HeadingOf(frames: seq<Frame>): Heading {
    if frames == [] then NO_HEADING else Merged(HeadingOf(frames[..|frames| - 1]), frames[|frames| - 1].heading)
  }

  /** Of the texts in order, `r` is the last that is not empty, and empty if all are. */
  ghost predicate LastFilled(texts: seq<string>, r: string) {
    if forall i | 0 <= i < |texts| :: texts[i] == "" then r == ""
    else r != "" && exists k :: 0 <= k < |texts| && texts[k] == r && forall i | k < i < |texts| :: texts[i] == ""
  }

  lemma LastFilledStep(texts: seq<string>, r: string, next: string)
    requires LastFilled(texts, r)
    ensures LastFilled(texts + [next], Later(r, next))
  {
    var longer := texts + [next];
    assert longer[|texts|] == next;
    assert forall i | 0 <= i < |texts| :: longer[i] == texts[i];
    if next == "" && r != "" {
      var k :| 0 <= k < |texts| && texts[k] == r && forall i | k < i < |texts| :: texts[i] == "";
      assert longer[k] == r;
    }
  }

  ghost function FieldOf(frames: seq<Frame>, field: Heading -> string): (r: seq<string>)
    ensures |r| == |frames|
  {
    seq(|frames|, i requires 0 <= i < |frames| => field(frames[i].heading))
  }

  ghost function FinishesAt(frames: seq<Frame>, c: nat): (r: seq<string>)
    ensures |r| == |frames|
  {
    seq(|frames|, i requires 0 <= i < |frames| => if c < |frames[i].choices| then frames[i].choices[c].finish else "")
  }

  /** Of each field of the heading, and of a choice's finish reason, the last that is filled
      counts. */
  lemma {:induction false} HeadingIsLast(frames: seq<Frame>, c: nat)
    ensures LastFilled(FieldOf(frames, (h: Heading) => h.id), HeadingOf(frames).id)
    ensures LastFilled(FieldOf(frames, (h: Heading) => h.model), HeadingOf(frames).model)
    ensures LastFilled(FieldOf(frames, (h: Heading) => h.created), HeadingOf(frames).created)
    ensures LastFilled(FieldOf(frames, (h: Heading) => h.usage), HeadingOf(frames).usage)
    ensures LastFilled(FinishesAt(frames, c), FinishAt(frames, c))
  {
    if frames != [] {
      hide LastFilled, Later;
      var init, last := frames[..|frames| - 1], frames[|frames| - 1];
      HeadingIsLast(init, c);
      FieldStep(frames, (h: Heading) => h.id);
      FieldStep(frames, (h: Heading) => h.model);
      FieldStep(frames, (h: Heading) => h.created);
      FieldStep(frames, (h: Heading) => h.usage);
      var finish := if c < |last.choices| then last.choices[c].finish else "";
      assert FinishesAt(frames, c) == FinishesAt(init, c) + [finish];
      var before := HeadingOf(init);
      LastFilledStep(FieldOf(init, (h: Heading) => h.id), before.id, last.heading.id);
      LastFilledStep(FieldOf(init, (h: Heading) => h.model), before.model, last.heading.model);
      LastFilledStep(FieldOf(init, (h: Heading) => h.created), before.created, last.heading.created);
      LastFilledStep(FieldOf(init, (h: Heading) => h.usage), before.usage, last.heading.usage);
      LastFilledStep(FinishesAt(init, c), FinishAt(init, c), finish);
    }
  }

  lemma FieldStep(frames: seq<Frame>, field: Heading -> string)
    requires frames != []
    ensures FieldOf(frames, field) == FieldOf(frames[..|frames| - 1], field) + [field(frames[|frames| - 1].heading)]
  {
  }

  /** There are as many choices as the widest frame has. */
  lemma {:induction false} WidthIsWidest(frames: seq<Frame>)
    ensures forall i | 0 <= i < |frames| :: |frames[i].choices| <= Width(frames)
    ensures Width(frames) > 0 ==> exists i :: 0 <= i < |frames| && |frames[i].choices| == Width(frames)
  {
    if frames != [] {
      var init := frames[..|frames| - 1];
      WidthIsWidest(init);
      forall i | 0 <= i < |init| ensures |frames[i].choices| <= Width(init) {
        assert init[i] == frames[i];
      }
      if Width(frames) > 0 && Width(frames) == Width(init) {
        var i :| 0 <= i < |init| && |init[i].choices| == Width(init);
        assert |frames[i].choices| == Width(frames);
      } else {
        assert frames[|init|].choices == frames[|frames| - 1].choices;
      }
    }
  }

  function Digits(s: string): Option<nat> {
    if s == "" then Some(0)
    else
      var c, rest := s[|s| - 1], Digits(s[..|s| - 1]);
      if '0' <= c <= '9' && rest.Some? then Some(10 * rest.value + (c - '0') as nat) else None
  }

  const TWO63 := 0x8000_0000_0000_0000

  /** A decimal numeral that fits 64 bits. */
  function ParseInt64(s: string): (r: Option<int>)
    ensures r.Some? ==> -TWO63 <= r.value < TWO63
  {
    var signed := s != "" && (s[0] == '-' || s[0] == '+');
    var digits := if signed then s[1..] else s;
    if digits == "" || Digits(digits).None? then None
    else
      var size: int := Digits(digits).value;
      var n := if signed && s[0] == '-' then -size else size;
      if -TWO63 <= n < TWO63 then Some(n) else None
  }

  /** The creation time in the raw field, a number or a numeral in quotes; 0 if it is neither. */
  function CreatedUnix(codec: Codec, raw: string): int {
    var value := codec.parse(raw);
    if raw == "" || value.None? then 0
    else
      var n := match value.value
               case Number(token) => ParseInt64(token)
               case Str(text) => ParseInt64(text)
               case _ => None;
      if n.Some? then n.value else 0
  }

  // ----- Which number a numeral yields

  const DIGITS := "0123456789"

  /** A number in decimal. */
  function Numeral(n: nat): (r: string)
    ensures r != "" && r[0] != '-' && r[0] != '+'
  {
    if n < 10 then [DIGITS[n]] else Numeral(n / 10) + [DIGITS[n % 10]]
  }

  predicate AllZeros(s: string) {
    forall i | 0 <= i < |s| :: s[i] == '0'
  }

  /** The text is the number in decimal, with zeros before it and a sign that fits. */
  predicate SpelledWith(s: string, n: int, sign: string, zeros: string) {
    && (sign == "" || sign == "+" || sign == "-") && AllZeros(zeros)
    && s == sign + (zeros + Numeral(if n < 0 then -n else n))
    && (n < 0 ==> sign == "-") && (n > 0 ==> sign != "-")
  }

  ghost predicate Spells(s: string, n: int) {
    exists sign, zeros :: SpelledWith(s, n, sign, zeros)
  }

  lemma {:induction false} DigitsOfZeros(zeros: string)
    requires AllZeros(zeros)
    ensures Digits(zeros) == Some(0)
  {
    if zeros != "" {
      DigitsOfZeros(zeros[..|zeros| - 1]);
    }
  }

  lemma NextNumeral(n: nat, d: nat)
    requires d < 10
    ensures n > 0 ==> Numeral(10 * n + d) == Numeral(n) + [DIGITS[d]]
    ensures n == 0 ==> Numeral(n) == "0" && Numeral(d) == [DIGITS[d]]
  {
    assert (10 * n + d) / 10 == n && (10 * n + d) % 10 == d;
  }

  lemma DigitStands(d: nat)
    requires d < 10
    ensures '0' <= DIGITS[d] <= '9' && (DIGITS[d] - '0') as nat == d
  {
  }

  lemma DigitsOfLast(init: string, c: char)
    requires '0' <= c <= '9' && Digits(init).Some?
    ensures Digits(init + [c]) == Some(10 * Digits(init).value + (c - '0') as nat)
  {
    var s := init + [c];
    assert s[..|s| - 1] == init;
  }

  lemma {:induction false} DigitsOfNumeral(zeros: string, n: nat)
    requires AllZeros(zeros)
    ensures Digits(zeros + Numeral(n)) == Some(n)
  {
    hide Numeral, Digits, AllZeros;
    NextNumeral(n / 10, n % 10);
    DigitStands(n % 10);
    if n < 10 {
      DigitsOfZeros(zeros);
      DigitsOfLast(zeros, DIGITS[n]);
    } else {
      DigitsOfNumeral(zeros, n / 10);
      Assoc(zeros, Numeral(n / 10), [DIGITS[n % 10]]);
      DigitsOfLast(zeros + Numeral(n / 10), DIGITS[n % 10]);
    }
  }

  lemma DigitIsItself(c: char)
    requires '0' <= c <= '9'
    ensures DIGITS[(c - '0') as nat] == c
  {
  }

  lemma {:induction false} NumeralOfDigits(s: string) returns (zeros: string)
    requires s != "" && Digits(s).Some?
    ensures AllZeros(zeros) && s == zeros + Numeral(Digits(s).value)
  {
    hide Numeral;
    var init, c := s[..|s| - 1], s[|s| - 1];
    DigitIsItself(c);
    if init == "" {
      zeros := "";
      NextNumeral(0, (c - '0') as nat);
    } else {
      var before := NumeralOfDigits(init);
      var n := Digits(init).value;
      NextNumeral(n, (c - '0') as nat);
      zeros := if n == 0 then before + "0" else before;
      Assoc(before, Numeral(n), [c]);
    }
    assert s == init + [c];
  }

  /** A text is read as a number exactly when it spells it and the number fits 64 bits. */
  lemma ParseInt64Exactly(s: string, n: int)
    ensures ParseInt64(s) == Some(n) <==> -TWO63 <= n < TWO63 && Spells(s, n)
  {
    if ParseInt64(s) == Some(n) {
      SpelledIfParsed(s, n);
    }
    if -TWO63 <= n < TWO63 && Spells(s, n) {
      ParsedIfSpelled(s, n);
    }
  }

  lemma SpelledIfParsed(s: string, n: int)
    requires ParseInt64(s) == Some(n)
    ensures Spells(s, n)
  {
    hide Digits, Numeral, AllZeros;
    var signed := s[0] == '-' || s[0] == '+';
    var sign, digits := if signed then s[..1] else "", if signed then s[1..] else s;
    var zeros := NumeralOfDigits(digits);
    assert s == sign + digits;
    assert SpelledWith(s, n, sign, zeros);
  }

  lemma ZerosThenNumeral(zeros: string, n: nat)
    requires AllZeros(zeros)
    ensures var s := zeros + Numeral(n); s != "" && s[0] != '-' && s[0] != '+'
  {
  }

  lemma ParsedIfSpelled(s: string, n: int)
    requires -TWO63 <= n < TWO63 && Spells(s, n)
    ensures ParseInt64(s) == Some(n)
  {
    hide Digits, Numeral, AllZeros;
    var size := if n < 0 then -n else n;
    var sign, zeros :| SpelledWith(s, n, sign, zeros);
    var digits := zeros + Numeral(size);
    DigitsOfNumeral(zeros, size);
    ZerosThenNumeral(zeros, size);
    if sign == "" {
      assert s == digits;
    } else {
      assert s[0] == sign[0] && s[1..] == digits;
    }
  }

  /** The creation time is the number that the field, a JSON number or string, spells, and 0
      if it spells none that fits. */
  lemma CreatedExactly(codec: Codec, raw: string, n: int)
    requires raw != "" && -TWO63 <= n < TWO63 && n != 0
    ensures CreatedUnix(codec, raw) == n <==>
              || (exists token :: codec.parse(raw) == Some(Number(token)) && Spells(token, n))
              || (exists text :: codec.parse(raw) == Some(Str(text)) && Spells(text, n))
  {
    hide ParseInt64, Spells;
    var value := codec.parse(raw);
    if value.Some? && value.value.Number? {
      ParseInt64Exactly(value.value.digits, n);
    }
    if value.Some? && value.value.Str? {
      ParseInt64Exactly(value.value.text, n);
    }
  }

  function ChoiceAt(frames: seq<Frame>, i: nat): Choice {
    Choice(i, TextOfPieces(PiecesAt(frames, i)), NativeOfPieces(PiecesAt(frames, i)), Later("stop", FinishAt(frames, i)))
  }

  ghost predicate Says(codec: Codec, frames: seq<Frame>, c: Completion) {
    && c.id == HeadingOf(frames).id && c.model == HeadingOf(frames).model && c.usage == HeadingOf(frames).usage
    && c.created == CreatedUnix(codec, HeadingOf(frames).created)
    && |c.choices| == Width(frames) && forall i | 0 <= i < |c.choices| :: c.choices[i] == ChoiceAt(frames, i)
  }

  // ----- The conversion

  /** What has been gathered: the choices met so far are 0 up to `width`. */
  ghost predicate Gathered(frames: seq<Frame>, width: nat, texts: map<nat, string>, provider: map<nat, seq<Json>>, finish: map<nat, string>) {
    && (forall i: nat :: i in texts <==> i < width)
    && (forall i | i in texts :: texts[i] == TextOfPieces(PiecesAt(frames, i)))
    && (forall i: nat :: (if i in provider then provider[i] else []) == NativeOfPieces(PiecesAt(frames, i)))
    && (forall i: nat :: (if i in finish then finish[i] else "") == FinishAt(frames, i))
  }

  lemma PiecesAppend(a: seq<Piece>, b: seq<Piece>, n: nat)
    requires n < |b|
    ensures TextOfPieces(a + b[..n + 1]) == TextOfPieces(a + b[..n]) + b[n].text
    ensures NativeOfPieces(a + b[..n + 1]) == NativeOfPieces(a + b[..n]) + if b[n].native.Some? then [b[n].native.value] else []
  {
    assert (a + b[..n + 1])[..|a| + n] == a + b[..n];
  }

  /** Adds the pieces of one choice of one frame. */
  method AddPieces(pieces: seq<Piece>, text: string, native: seq<Json>, ghost before: seq<Piece>) returns (text': string, native': seq<Json>)
    requires text == TextOfPieces(before) && native == NativeOfPieces(before)
    ensures text' == TextOfPieces(before + pieces) && native' == NativeOfPieces(before + pieces)
  {
    hide TextOfPieces, NativeOfPieces;
    text', native' := text, native;
    assert before + pieces[..0] == before;
    for n := 0 to |pieces|
      invariant text' == TextOfPieces(before + pieces[..n]) && native' == NativeOfPieces(before + pieces[..n])
    {
      PiecesAppend(before, pieces, n);
      text' := text' + pieces[n].text;
      if pieces[n].native.Some? {
        native' := native' + [pieces[n].native.value];
      } else {
        assert native' + [] == native';
      }
    }
    assert pieces[..|pieces|] == pieces;
  }

  /** The frame with its choices from `n` on left off. */
  function Cut(f: Frame, n: nat): Frame
    requires n <= |f.choices|
  {
    f.(choices := f.choices[..n])
  }

  /** One more choice of the last frame changes what is said about that choice only. */
  lemma OneMoreChoice(frames: seq<Frame>, f: Frame, n: nat, i: nat)
    requires n < |f.choices|
    ensures var now, then_ := frames + [Cut(f, n)], frames + [Cut(f, n + 1)];
            && Width(then_) == (if Width(now) < n + 1 then n + 1 else Width(now))
            && PiecesAt(then_, i) == PiecesAt(now, i) + (if i == n then f.choices[n].pieces else [])
            && FinishAt(then_, i) == if i == n then Later(FinishAt(now, i), f.choices[n].finish) else FinishAt(now, i)
  {
    var now, then_ := frames + [Cut(f, n)], frames + [Cut(f, n + 1)];
    assert now[..|frames|] == frames && then_[..|frames|] == frames;
    assert i <= n ==> Cut(f, n + 1).choices[i] == f.choices[i];
    assert i < n ==> Cut(f, n).choices[i] == f.choices[i];
  }

  lemma NoChoicesYet(frames: seq<Frame>, f: Frame, i: nat)
    ensures var now := frames + [Cut(f, 0)];
            Width(now) == Width(frames) && PiecesAt(now, i) == PiecesAt(frames, i) && FinishAt(now, i) == FinishAt(frames, i)
  {
    assert (frames + [Cut(f, 0)])[..|frames|] == frames;
  }

  lemma GatherChoice(frames: seq<Frame>, f: Frame, n: nat, width: nat, texts: map<nat, string>, provider: map<nat, seq<Json>>,
                     finish: map<nat, string>, text: string, native: seq<Json>)
    requires n < |f.choices| && n <= width && width == Width(frames + [Cut(f, n)])
    requires Gathered(frames + [Cut(f, n)], width, texts, provider, finish)
    requires text == TextOfPieces(PiecesAt(frames + [Cut(f, n)], n) + f.choices[n].pieces)
    requires native == NativeOfPieces(PiecesAt(frames + [Cut(f, n)], n) + f.choices[n].pieces)
    ensures var width' := if width < n + 1 then n + 1 else width;
            && width' == Width(frames + [Cut(f, n + 1)])
            && Gathered(frames + [Cut(f, n + 1)], width', texts[n := text], provider[n := native],
                        if f.choices[n].finish != "" then finish[n := f.choices[n].finish] else finish)
  {
    hide TextOfPieces, NativeOfPieces, PiecesAt, FinishAt, Width;
    OneMoreChoice(frames, f, n, n);
    forall i: nat | i != n
      ensures PiecesAt(frames + [Cut(f, n + 1)], i) == PiecesAt(frames + [Cut(f, n)], i)
      ensures FinishAt(frames + [Cut(f, n + 1)], i) == FinishAt(frames + [Cut(f, n)], i)
    {
      OneMoreChoice(frames, f, n, i);
    }
  }

  /** Adds one frame to what has been gathered. */
  method AddFrame(f: Frame, width: nat, texts: map<nat, string>, provider: map<nat, seq<Json>>, finish: map<nat, string>, ghost frames: seq<Frame>)
    returns (texts': map<nat, string>, provider': map<nat, seq<Json>>, finish': map<nat, string>, width': nat)
    requires width == Width(frames) && Gathered(frames, width, texts, provider, finish)
    ensures width' == Width(frames + [f]) && Gathered(frames + [f], width', texts', provider', finish')
  {
    hide TextOfPieces, NativeOfPieces, PiecesAt, FinishAt, Width, Gathered;
    texts', provider', finish', width' := texts, provider, finish, width;
    StartFrame(frames, f, width, texts, provider, finish);
    for n := 0 to |f.choices|
      invariant n <= width' && width' == Width(frames + [Cut(f, n)])
      invariant Gathered(frames + [Cut(f, n)], width', texts', provider', finish')
    {
      GatheredAt(frames + [Cut(f, n)], width', texts', provider', finish', n);
      var text, native := if n in texts' then texts'[n] else "", if n in provider' then provider'[n] else [];
      text, native := AddPieces(f.choices[n].pieces, text, native, PiecesAt(frames + [Cut(f, n)], n));
      GatherChoice(frames, f, n, width', texts', provider', finish', text, native);
      texts' := texts'[n := text];
      provider' := provider'[n := native];
      if f.choices[n].finish != "" {
        finish' := finish'[n := f.choices[n].finish];
      }
      width' := if width' < n + 1 then n + 1 else width';
    }
    assert Cut(f, |f.choices|) == f;
  }

  lemma StartFrame(frames: seq<Frame>, f: Frame, width: nat, texts: map<nat, string>, provider: map<nat, seq<Json>>, finish: map<nat, string>)
    requires width == Width(frames) && Gathered(frames, width, texts, provider, finish)
    ensures width == Width(frames + [Cut(f, 0)]) && Gathered(frames + [Cut(f, 0)], width, texts, provider, finish)
  {
    hide TextOfPieces, NativeOfPieces, PiecesAt, FinishAt, Width;
    NoChoicesYet(frames, f, 0);
    forall i: nat
      ensures PiecesAt(frames + [Cut(f, 0)], i) == PiecesAt(frames, i) && FinishAt(frames + [Cut(f, 0)], i) == FinishAt(frames, i)
    {
      NoChoicesYet(frames, f, i);
    }
  }

  lemma {:induction false} NothingAt(frames: seq<Frame>, i: nat)
    requires Width(frames) <= i
    ensures PiecesAt(frames, i) == []
  {
    if frames != [] {
      NothingAt(frames[..|frames| - 1], i);
    }
  }

  lemma GatheredAt(frames: seq<Frame>, width: nat, texts: map<nat, string>, provider: map<nat, seq<Json>>, finish: map<nat, string>, n: nat)
    requires width == Width(frames) && Gathered(frames, width, texts, provider, finish)
    ensures (if n in texts then texts[n] else "") == TextOfPieces(PiecesAt(frames, n))
    ensures (if n in provider then provider[n] else []) == NativeOfPieces(PiecesAt(frames, n))
  {
    if n !in texts {
      NothingAt(frames, n);
    }
  }

  lemma HeadingStep(frames: seq<Frame>, f: Frame)
    ensures HeadingOf(frames + [f]) == Merged(HeadingOf(frames), f.heading)
  {
    assert (frames + [f])[..|frames|] == frames;
  }

  /** Lines that are not frames are skipped; without any choice there is no completion. */
  method ToOpenAI(codec: Codec, lines: seq<Option<Frame>>) returns (r: Option<Completion>)
    ensures r.None? <==> Width(Frames(lines)) == 0
    ensures r.Some? ==> Says(codec, Frames(lines), r.value)
  {
    hide TextOfPieces, NativeOfPieces, PiecesAt, FinishAt, Width, Gathered, HeadingOf;
    var texts: map<nat, string>, provider: map<nat, seq<Json>>, finish: map<nat, string> := map[], map[], map[];
    var width, heading := 0, NO_HEADING;
    ghost var frames: seq<Frame> := [];
    NothingGathered();
    for k := 0 to |lines|
      invariant frames == Frames(lines[..k]) && width == Width(frames)
      invariant Gathered(frames, width, texts, provider, finish)
      invariant heading == HeadingOf(frames)
    {
      assert lines[..k + 1][..k] == lines[..k];
      if lines[k].Some? {
        var f := lines[k].value;
        texts, provider, finish, width := AddFrame(f, width, texts, provider, finish, frames);
        HeadingStep(frames, f);
        heading := Merged(heading, f.heading);
        frames := frames + [f];
      }
    }
    assert lines[..|lines|] == lines;
    if width == 0 {
      return None;
    }
    var choices := ListChoices(width, texts, provider, finish, frames);
    r := Some(Completion(heading.id, heading.model, CreatedUnix(codec, heading.created), heading.usage, choices));
  }

  function Frames(lines: seq<Option<Frame>>): seq<Frame> {
    if lines == [] then []
    else
      var last := lines[|lines| - 1];
      Frames(lines[..|lines| - 1]) + if last.Some? then [last.value] else []
  }

  lemma NothingGathered()
    ensures Gathered([], 0, map[], map[], map[]) && Width([]) == 0 && HeadingOf([]) == NO_HEADING
  {
  }

  /** The choices form a gapless list: every index below the width has been met. */
  method ListChoices(width: nat, texts: map<nat, string>, provider: map<nat, seq<Json>>, finish: map<nat, string>, ghost frames: seq<Frame>)
    returns (choices: seq<Choice>)
    requires Gathered(frames, width, texts, provider, finish)
    ensures |choices| == width && forall i | 0 <= i < width :: choices[i] == ChoiceAt(frames, i)
  {
    hide TextOfPieces, NativeOfPieces, PiecesAt, FinishAt;
    choices := [];
    for i := 0 to width
      invariant |choices| == i && forall k | 0 <= k < i :: choices[k] == ChoiceAt(frames, k)
    {
      var reason := if i in finish then finish[i] else "";
      if reason == "" {
        reason := "stop";
      }
      choices := choices + [Choice(i, texts[i], if i in provider then provider[i] else [], reason)];
    }
  }

  // ----- How a response was cut into frames does not show

  function PiecesIn(f: Frame, i: nat): seq<Piece> {
    if i < |f.choices| then f.choices[i].pieces else []
  }

  function FinishIn(f: Frame, i: nat): string {
    if i < |f.choices| then f.choices[i].finish else ""
  }

  /** `whole` cut in two, perhaps in the middle of a text: for every choice the texts of the
      two make up its text, and their native chunks its native chunks. */
  ghost predicate Halves(whole: Frame, first: Frame, second: Frame) {
    && |whole.choices| == (if |first.choices| < |second.choices| then |second.choices| else |first.choices|)
    && whole.heading == Merged(first.heading, second.heading)
    && forall i: nat ::
         && TextOfPieces(PiecesIn(whole, i)) == TextOfPieces(PiecesIn(first, i)) + TextOfPieces(PiecesIn(second, i))
         && NativeOfPieces(PiecesIn(whole, i)) == NativeOfPieces(PiecesIn(first, i)) + NativeOfPieces(PiecesIn(second, i))
         && FinishIn(whole, i) == Later(FinishIn(first, i), FinishIn(second, i))
  }

  lemma {:induction false} OfPiecesAppend(a: seq<Piece>, b: seq<Piece>)
    ensures TextOfPieces(a + b) == TextOfPieces(a) + TextOfPieces(b)
    ensures NativeOfPieces(a + b) == NativeOfPieces(a) + NativeOfPieces(b)
  {
    if b == [] {
      assert a + b == a && NativeOfPieces(a) + [] == NativeOfPieces(a);
    } else {
      var n := |b| - 1;
      OfPiecesAppend(a, b[..n]);
      assert (a + b)[..|a + b| - 1] == a + b[..n];
      Assoc(TextOfPieces(a), TextOfPieces(b[..n]), b[n].text);
      Assoc(NativeOfPieces(a), NativeOfPieces(b[..n]), if b[n].native.Some? then [b[n].native.value] else []);
    }
  }

  lemma {:induction false} PiecesAtAppend(a: seq<Frame>, b: seq<Frame>, i: nat)
    ensures PiecesAt(a + b, i) == PiecesAt(a, i) + PiecesAt(b, i)
  {
    if b == [] {
      assert a + b == a && PiecesAt(a, i) + [] == PiecesAt(a, i);
    } else {
      var n := |b| - 1;
      PiecesAtAppend(a, b[..n], i);
      assert (a + b)[..|a + b| - 1] == a + b[..n];
      Assoc(PiecesAt(a, i), PiecesAt(b[..n], i), PiecesIn(b[n], i));
    }
  }

  lemma {:induction false} FinishAtAppend(a: seq<Frame>, b: seq<Frame>, i: nat)
    ensures FinishAt(a + b, i) == Later(FinishAt(a, i), FinishAt(b, i))
  {
    if b == [] {
      assert a + b == a;
    } else {
      FinishAtAppend(a, b[..|b| - 1], i);
      assert (a + b)[..|a + b| - 1] == a + b[..|b| - 1];
    }
  }

  lemma {:induction false} WidthAppend(a: seq<Frame>, b: seq<Frame>)
    ensures Width(a + b) == if Width(a) < Width(b) then Width(b) else Width(a)
  {
    if b == [] {
      assert a + b == a;
    } else {
      WidthAppend(a, b[..|b| - 1]);
      assert (a + b)[..|a + b| - 1] == a + b[..|b| - 1];
    }
  }

  lemma {:induction false} HeadingAppend(a: seq<Frame>, b: seq<Frame>)
    ensures HeadingOf(a + b) == Merged(HeadingOf(a), HeadingOf(b))
  {
    if b == [] {
      assert a + b == a;
    } else {
      HeadingAppend(a, b[..|b| - 1]);
      assert (a + b)[..|a + b| - 1] == a + b[..|b| - 1];
      MergedAssoc(HeadingOf(a), HeadingOf(b[..|b| - 1]), b[|b| - 1].heading);
    }
  }

  lemma MergedAssoc(a: Heading, b: Heading, c: Heading)
    ensures Merged(Merged(a, b), c) == Merged(a, Merged(b, c))
  {
  }

  /** Heading and width of frames put together. */
  lemma FramesAppend(a: seq<Frame>, b: seq<Frame>)
    ensures HeadingOf(a + b) == Merged(HeadingOf(a), HeadingOf(b))
    ensures Width(a + b) == if Width(a) < Width(b) then Width(b) else Width(a)
  {
    HeadingAppend(a, b);
    WidthAppend(a, b);
  }

  /** What the frames say about choice `i`. */
  ghost predicate Equivalent(a: seq<Frame>, b: seq<Frame>, i: nat) {
    && TextOfPieces(PiecesAt(a, i)) == TextOfPieces(PiecesAt(b, i))
    && NativeOfPieces(PiecesAt(a, i)) == NativeOfPieces(PiecesAt(b, i)) && FinishAt(a, i) == FinishAt(b, i)
  }

  lemma OneFrame(f: Frame, i: nat)
    ensures PiecesAt([f], i) == PiecesIn(f, i) && FinishAt([f], i) == FinishIn(f, i)
    ensures HeadingOf([f]) == f.heading && Width([f]) == |f.choices|
  {
    assert [f][..0] == [] && [] + PiecesIn(f, i) == PiecesIn(f, i);
  }

  lemma HalvesSayTheSame(whole: Frame, first: Frame, second: Frame, i: nat)
    requires Halves(whole, first, second)
    ensures Equivalent([whole], [first] + [second], i)
    ensures HeadingOf([first] + [second]) == HeadingOf([whole]) && Width([first] + [second]) == Width([whole])
  {
    OneFrame(whole, i);
    OneFrame(first, i);
    OneFrame(second, i);
    hide PiecesAt, FinishAt, HeadingOf, Width, TextOfPieces, NativeOfPieces, PiecesIn, FinishIn;
    PiecesAtAppend([first], [second], i);
    FinishAtAppend([first], [second], i);
    FramesAppend([first], [second]);
    OfPiecesAppend(PiecesIn(first, i), PiecesIn(second, i));
  }

  lemma EquivalentInContext(before: seq<Frame>, a: seq<Frame>, b: seq<Frame>, after: seq<Frame>, i: nat)
    requires Equivalent(a, b, i)
    ensures Equivalent((before + a) + after, (before + b) + after, i)
  {
    hide PiecesAt, FinishAt, TextOfPieces, NativeOfPieces;
    SayInContext(before, a, after, i);
    SayInContext(before, b, after, i);
  }

  lemma SayInContext(before: seq<Frame>, a: seq<Frame>, after: seq<Frame>, i: nat)
    ensures TextOfPieces(PiecesAt((before + a) + after, i)) ==
            (TextOfPieces(PiecesAt(before, i)) + TextOfPieces(PiecesAt(a, i))) + TextOfPieces(PiecesAt(after, i))
    ensures NativeOfPieces(PiecesAt((before + a) + after, i)) ==
            (NativeOfPieces(PiecesAt(before, i)) + NativeOfPieces(PiecesAt(a, i))) + NativeOfPieces(PiecesAt(after, i))
    ensures FinishAt((before + a) + after, i) == Later(Later(FinishAt(before, i), FinishAt(a, i)), FinishAt(after, i))
  {
    hide PiecesAt, FinishAt, TextOfPieces, NativeOfPieces;
    PiecesAtAppend(before + a, after, i);
    PiecesAtAppend(before, a, i);
    OfPiecesAppend(PiecesAt(before, i) + PiecesAt(a, i), PiecesAt(after, i));
    OfPiecesAppend(PiecesAt(before, i), PiecesAt(a, i));
    FinishAtAppend(before + a, after, i);
    FinishAtAppend(before, a, i);
  }

  /** Cutting any frame of a response in two, wherever, gives the same completion. */
  lemma FragmentationIsInvisible(codec: Codec, before: seq<Frame>, whole: Frame, first: Frame, second: Frame, after: seq<Frame>, c: Completion)
    requires Halves(whole, first, second)
    ensures Says(codec, (before + [whole]) + after, c) <==> Says(codec, (before + ([first] + [second])) + after, c)
  {
    hide PiecesAt, FinishAt, HeadingOf, Width, TextOfPieces, NativeOfPieces, Halves, CreatedUnix;
    forall i: nat ensures ChoiceAt((before + [whole]) + after, i) == ChoiceAt((before + ([first] + [second])) + after, i) {
      HalvesSayTheSame(whole, first, second, i);
      EquivalentInContext(before, [whole], [first] + [second], after, i);
    }
    HalvesSayTheSame(whole, first, second, 0);
    FramesAppend(before + [whole], after);
    FramesAppend(before, [whole]);
    FramesAppend(before + ([first] + [second]), after);
    FramesAppend(before, [first] + [second]);
  }
}
