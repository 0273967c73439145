/** Splitting a response into chunks that a chat platform accepts. */
module Chunker {
  import opened Basics
  import opened Text

  datatype Platform = Discord | Slack | Telegram | OtherPlatform

  function PlatformLimit(p: Platform): nat {
    match p
    case Discord => 2000
    case Slack => 4000
    case Telegram => 4096
    case OtherPlatform => 2000
  }

  /** Inside the second half of the chunk there is neither a blank nor a line break. */
  predicate NoBreakInSecondHalf(chunk: string) {
    forall i | |chunk| / 2 < i < |chunk| :: chunk[i] != ' ' && chunk[i] != '\n'
  }

  /** Places to cut, the most welcome first. */
  const SEPARATORS := ["\n\n", "\n", ". ", "! ", "? ", " "]

  ghost predicate OccursInSecondHalf(chunk: string, sep: string) {
    exists i :: |chunk| / 2 < i && OccursAt(chunk, sep, i)
  }

  /** `r` lies behind the last occurrence of separator `k`, which is in the second half, as
      is no occurrence of a more welcome one. */
  ghost predicate CutBehind(chunk: string, k: nat, r: nat) {
    && k < |SEPARATORS| && |SEPARATORS[k]| <= r
    && |chunk| / 2 < r - |SEPARATORS[k]| && OccursAt(chunk, SEPARATORS[k], r - |SEPARATORS[k]|)
    && (forall i | r - |SEPARATORS[k]| < i :: !OccursAt(chunk, SEPARATORS[k], i))
    && (forall j | 0 <= j < k :: !OccursInSecondHalf(chunk, SEPARATORS[j]))
  }

  /** Where a window is cut: behind the last of the most welcome separators in its second
      half; only a window without any is cut at its end. */
  function FindSplitPoint(chunk: string): (r: nat)
    requires chunk != ""
    ensures 0 < r <= |chunk|
    ensures if NoBreakInSecondHalf(chunk) then r == |chunk| else |chunk| / 2 < r - 1 && IsSpace(chunk[r - 1])
    ensures NoBreakInSecondHalf(chunk) || exists k :: CutBehind(chunk, k, r)
  {
    var r := SplitFrom(chunk, 0);
    assert GoodSplit(chunk, r);
    r
  }

  function SplitFrom(chunk: string, k: nat): (r: nat)
    requires chunk != "" && k <= |SEPARATORS| && NoneBefore(chunk, k)
    ensures GoodSplit(chunk, r)
    decreases |SEPARATORS| - k
  {
    hide NoneBefore, GoodSplit;
    if k == |SEPARATORS| then
      NoSplit(chunk);
      |chunk|
    else
      var i := LastIndex(chunk, SEPARATORS[k]);
      if i > |chunk| / 2 then
        CutIsGood(chunk, k, i);
        i + |SEPARATORS[k]|
      else
        NoneUpTo(chunk, k);
        SplitFrom(chunk, k + 1)
  }

  ghost predicate NoneBefore(chunk: string, k: nat)
    requires k <= |SEPARATORS|
  {
    forall j | 0 <= j < k :: !OccursInSecondHalf(chunk, SEPARATORS[j])
  }

  ghost predicate GoodSplit(chunk: string, r: nat) {
    && 0 < r <= |chunk|
    && (if NoBreakInSecondHalf(chunk) then r == |chunk| else |chunk| / 2 < r - 1 && IsSpace(chunk[r - 1]))
    && (NoBreakInSecondHalf(chunk) || exists n :: CutBehind(chunk, n, r))
  }

  lemma NoSplit(chunk: string)
    requires chunk != "" && NoneBefore(chunk, |SEPARATORS|)
    ensures GoodSplit(chunk, |chunk|)
  {
    hide OccursInSecondHalf, CutBehind;
    NoBreaks(chunk);
  }

  lemma CutIsGood(chunk: string, k: nat, i: nat)
    requires k < |SEPARATORS| && i == LastIndex(chunk, SEPARATORS[k]) && |chunk| / 2 < i && NoneBefore(chunk, k)
    ensures GoodSplit(chunk, i + |SEPARATORS[k]|)
  {
    SeparatorEnds(k);
    CutIsBreak(chunk, k, i);
    hide OccursInSecondHalf, CutBehind, NoBreakInSecondHalf, LastIndex;
  }

  lemma NoneUpTo(chunk: string, k: nat)
    requires k < |SEPARATORS| && NoneBefore(chunk, k) && LastIndex(chunk, SEPARATORS[k]) <= |chunk| / 2
    ensures NoneBefore(chunk, k + 1)
  {
    NoneInSecondHalf(chunk, SEPARATORS[k]);
    hide OccursInSecondHalf, LastIndex;
  }

  lemma NoneInSecondHalf(chunk: string, sep: string)
    requires LastIndex(chunk, sep) <= |chunk| / 2
    ensures !OccursInSecondHalf(chunk, sep)
  {
  }

  /** Every separator ends with a blank or a line break. */
  lemma SeparatorEnds(k: nat)
    requires k < |SEPARATORS|
    ensures SEPARATORS[k] != "" && (SEPARATORS[k][|SEPARATORS[k]| - 1] == ' ' || SEPARATORS[k][|SEPARATORS[k]| - 1] == '\n')
  {
  }

  /** Cutting behind the last of a separator cuts behind white space. */
  lemma CutIsBreak(chunk: string, k: nat, i: nat)
    requires k < |SEPARATORS| && i == LastIndex(chunk, SEPARATORS[k]) && |chunk| / 2 < i
    requires forall j | 0 <= j < k :: !OccursInSecondHalf(chunk, SEPARATORS[j])
    ensures var last := i + |SEPARATORS[k]| - 1;
            last < |chunk| && IsSpace(chunk[last]) && !NoBreakInSecondHalf(chunk) && CutBehind(chunk, k, last + 1)
  {
    var sep := SEPARATORS[k];
    SeparatorEnds(k);
    hide OccursInSecondHalf, LastIndex;
    var last := i + |sep| - 1;
    assert chunk[i..i + |sep|][|sep| - 1] == chunk[last];
    assert last + 1 - |sep| == i;
    assert CutBehind(chunk, k, last + 1);
  }

  lemma NoBreaks(chunk: string)
    requires forall j | 0 <= j < |SEPARATORS| :: !OccursInSecondHalf(chunk, SEPARATORS[j])
    ensures NoBreakInSecondHalf(chunk)
  {
    assert !OccursInSecondHalf(chunk, SEPARATORS[1]) && !OccursInSecondHalf(chunk, SEPARATORS[5]);
    forall i | |chunk| / 2 < i < |chunk| ensures chunk[i] != ' ' && chunk[i] != '\n' {
      assert !OccursAt(chunk, "\n", i) && !OccursAt(chunk, " ", i);
      assert chunk[i..i + 1] == [chunk[i]];
    }
  }

  lemma CutIsLast(chunk: string, sep: string, at: int)
    requires OccursAt(chunk, sep, at) && forall i | at < i :: !OccursAt(chunk, sep, i)
    ensures at == LastIndex(chunk, sep)
  {
  }

  /** The order of preference: a paragraph, a line, a sentence, a word. */
  lemma SplitPreference(chunk: string)
    requires chunk != ""
    ensures var r := FindSplitPoint(chunk);
            if OccursInSecondHalf(chunk, "\n\n") then r == LastIndex(chunk, "\n\n") + 2
            else if OccursInSecondHalf(chunk, "\n") then r == LastIndex(chunk, "\n") + 1
            else if OccursInSecondHalf(chunk, ". ") then r == LastIndex(chunk, ". ") + 2
            else if OccursInSecondHalf(chunk, "! ") then r == LastIndex(chunk, "! ") + 2
            else if OccursInSecondHalf(chunk, "? ") then r == LastIndex(chunk, "? ") + 2
            else if OccursInSecondHalf(chunk, " ") then r == LastIndex(chunk, " ") + 1
            else r == |chunk|
  {
    hide FindSplitPoint, LastIndex, OccursAt, NoBreakInSecondHalf, OccursInSecondHalf;
    var r := FindSplitPoint(chunk);
    assert SEPARATORS[0] == "\n\n" && SEPARATORS[1] == "\n" && SEPARATORS[2] == ". ";
    assert SEPARATORS[3] == "! " && SEPARATORS[4] == "? " && SEPARATORS[5] == " ";
    if NoBreakInSecondHalf(chunk) {
      forall k | 0 <= k < |SEPARATORS| ensures OccursInSecondHalf(chunk, SEPARATORS[k]) ==> !NoBreakInSecondHalf(chunk) {
        if OccursInSecondHalf(chunk, SEPARATORS[k]) {
          SeparatorBreaks(chunk, k);
        }
      }
    } else {
      var k: nat :| CutBehind(chunk, k, r);
      CutIsLast(chunk, SEPARATORS[k], r - |SEPARATORS[k]|);
      CutOccurs(chunk, k, r);
    }
  }

  lemma CutOccurs(chunk: string, k: nat, r: nat)
    requires CutBehind(chunk, k, r)
    ensures OccursInSecondHalf(chunk, SEPARATORS[k])
  {
  }

  lemma SeparatorBreaks(chunk: string, k: nat)
    requires k < |SEPARATORS| && OccursInSecondHalf(chunk, SEPARATORS[k])
    ensures !NoBreakInSecondHalf(chunk)
  {
    var sep := SEPARATORS[k];
    var i :| |chunk| / 2 < i && OccursAt(chunk, sep, i);
    SeparatorEnds(k);
    assert chunk[i + |sep| - 1] == chunk[i..i + |sep|][|sep| - 1];
  }

  // ----- What a list of chunks is to a text

  /** `text` is `chunk`, then `gap` characters of white space, then `rest`; without a gap
      the chunk is as long as allowed and offers no place to break. */
  ghost predicate Splits(text: string, chunk: string, gap: nat, rest: string, limit: nat) {
    && |chunk| + gap <= |text| && text[..|chunk|] == chunk && AllSpace(text[|chunk|..|chunk| + gap]) && text[|chunk| + gap..] == rest
    && (gap == 0 ==> |chunk| == limit && NoBreakInSecondHalf(chunk))
  }

  /** `text` is the chunks in order, separated by white space only, and then `rest`. */
  ghost predicate LeadsTo(text: string, chunks: seq<string>, rest: string, limit: nat)
    decreases |chunks|
  {
    if chunks == [] then text == rest
    else exists gap: nat, next :: Splits(text, chunks[0], gap, next, limit) && LeadsTo(next, chunks[1..], rest, limit)
  }

  ghost predicate Joins(text: string, chunks: seq<string>, limit: nat) {
    chunks != [] && LeadsTo(text, chunks[..|chunks| - 1], chunks[|chunks| - 1], limit)
  }

  lemma {:induction false} LeadsFurther(text: string, chunks: seq<string>, rest: string, chunk: string, gap: nat, next: string, limit: nat)
    requires LeadsTo(text, chunks, rest, limit) && Splits(rest, chunk, gap, next, limit)
    ensures LeadsTo(text, chunks + [chunk], next, limit)
    decreases |chunks|
  {
    hide Splits;
    if chunks == [] {
      assert (chunks + [chunk])[0] == chunk && (chunks + [chunk])[1..] == [];
      assert LeadsTo(next, (chunks + [chunk])[1..], next, limit);
    } else {
      var g: nat, n :| Splits(text, chunks[0], g, n, limit) && LeadsTo(n, chunks[1..], rest, limit);
      LeadsFurther(n, chunks[1..], rest, chunk, gap, next, limit);
      assert (chunks + [chunk])[0] == chunks[0] && (chunks + [chunk])[1..] == chunks[1..] + [chunk];
    }
  }

  ghost predicate Fits(chunk: string, limit: nat) {
    chunk != "" && Trimmed(chunk) && |chunk| <= limit
  }

  /** What is trimmed away on both sides of a cut is white space. */
  lemma GapIsSpace(remaining: string, split: nat, chunk: string, rest: string)
    requires remaining != "" && Trimmed(remaining) && 0 < split < |remaining|
    requires chunk == Trim(remaining[..split]) && rest == Trim(remaining[split..])
    ensures chunk != "" && rest != "" && |chunk| <= split && |rest| <= |remaining| - split
    ensures remaining[..|chunk|] == chunk && remaining[|remaining| - |rest|..] == rest
    ensures AllSpace(remaining[|chunk|..|remaining| - |rest|])
  {
    hide Trim;
    var left, right := remaining[..split], remaining[split..];
    assert left[0] == remaining[0] && right[|right| - 1] == remaining[|remaining| - 1];
    TrimOfSolid(left);
    TrimOfTail(right);
    assert right[|right| - |rest|..] == remaining[|remaining| - |rest|..];
    assert remaining[..|chunk|] == left[..|chunk|];
    assert remaining[|chunk|..|remaining| - |rest|] == left[|chunk|..] + right[..|right| - |rest|];
  }

  /** One round of the loop cuts a nonempty chunk and leaves a shorter trimmed rest. */
  lemma CutOnce(remaining: string, limit: nat, split: nat, chunk: string, rest: string)
    requires remaining != "" && Trimmed(remaining) && 0 < limit < |remaining|
    requires split == FindSplitPoint(remaining[..limit])
    requires chunk == Trim(remaining[..split]) && rest == Trim(remaining[split..])
    ensures Fits(chunk, limit) && rest != "" && Trimmed(rest) && |rest| < |remaining|
    ensures exists gap: nat :: Splits(remaining, chunk, gap, rest, limit)
  {
    hide FindSplitPoint, Trim, AllSpace, CutBehind;
    var window := remaining[..limit];
    GapIsSpace(remaining, split, chunk, rest);
    var gap := |remaining| - |rest| - |chunk|;
    if gap == 0 {
      assert |chunk| == split && window[split - 1] == chunk[split - 1];
      assert chunk == window;
    }
    assert Splits(remaining, chunk, gap, rest, limit);
  }

  class Formatter {
    const platform: Platform
    const maxLength: nat

    ghost predicate Valid() {
      0 < maxLength && (!platform.OtherPlatform? ==> maxLength <= PlatformLimit(platform))
    }

    /** A limit that is not positive means the platform's own, and known platforms cap it. */
    constructor (platform: Platform, maxResponseLen: int)
      ensures Valid() && this.platform == platform
      ensures 0 < maxResponseLen && (platform.OtherPlatform? || maxResponseLen <= PlatformLimit(platform)) ==> maxLength == maxResponseLen
      ensures maxResponseLen <= 0 ==> maxLength == if platform.Slack? then 4000 else if platform.Telegram? then 4096 else 2000
      ensures !platform.OtherPlatform? && maxResponseLen > PlatformLimit(platform) ==> maxLength == PlatformLimit(platform)
    {
      var maxLen := maxResponseLen;
      if maxLen <= 0 {
        maxLen := PlatformLimit(platform);
      }
      if !platform.OtherPlatform? && maxLen > PlatformLimit(platform) {
        maxLen := PlatformLimit(platform);
      }
      this.platform := platform;
      this.maxLength := maxLen;
    }

    /** Every chunk is nonempty, trimmed and within the limit, and nothing but white space
        is left out between them. */
    method FormatResponse(text: string) returns (chunks: seq<string>)
      requires Valid()
      ensures Trim(text) == "" <==> chunks == []
      ensures chunks != [] ==> Joins(Trim(text), chunks, maxLength)
      ensures forall i | 0 <= i < |chunks| :: Fits(chunks[i], maxLength)
    {
      hide LeadsTo, Splits, FindSplitPoint, Trim;
      var trimmed := Trim(text);
      if trimmed == "" {
        return [];
      }
      if |trimmed| <= maxLength {
        assert LeadsTo(trimmed, [], trimmed, maxLength) by { NothingCut(trimmed, maxLength); }
        return [trimmed];
      }
      chunks := [];
      var remaining := trimmed;
      NothingCut(trimmed, maxLength);
      while |remaining| > 0
        invariant remaining != "" && Trimmed(remaining) && LeadsTo(trimmed, chunks, remaining, maxLength)
        invariant forall i | 0 <= i < |chunks| :: Fits(chunks[i], maxLength)
        decreases |remaining|
      {
        if |remaining| <= maxLength {
          chunks := chunks + [remaining];
          break;
        }
        var split := FindSplitPoint(remaining[..maxLength]);
        var chunk, rest := Trim(remaining[..split]), Trim(remaining[split..]);
        CutOnce(remaining, maxLength, split, chunk, rest);
        ghost var gap: nat :| Splits(remaining, chunk, gap, rest, maxLength);
        LeadsFurther(trimmed, chunks, remaining, chunk, gap, rest, maxLength);
        chunks := chunks + [chunk];
        remaining := rest;
      }
    }
  }

  lemma NothingCut(text: string, limit: nat)
    ensures LeadsTo(text, [], text, limit)
  {
  }

  // ----- Nothing is lost

  function Mark(c: char): string {
    if IsSpace(c) then "" else [c]
  }

  /** The text without its white space. */
  function Ink(s: string): string {
    if s == "" then "" else Mark(s[0]) + Ink(s[1..])
  }

  function AllInk(chunks: seq<string>): string {
    if chunks == [] then "" else Ink(chunks[0]) + AllInk(chunks[1..])
  }

  lemma InkCons(c: char, s: string)
    ensures Ink([c] + s) == Mark(c) + Ink(s)
  {
    assert ([c] + s)[1..] == s;
  }

  lemma {:induction false} InkAppend(a: string, b: string)
    ensures Ink(a + b) == Ink(a) + Ink(b)
  {
    if a == "" {
      assert a + b == b;
    } else {
      hide Ink, Mark;
      var c, tail := a[0], a[1..];
      InkAppend(tail, b);
      InkCons(c, tail);
      InkCons(c, tail + b);
      Assoc([c], tail, b);
      Assoc(Mark(c), Ink(tail), Ink(b));
      assert a == [c] + tail;
    }
  }

  lemma {:induction false} InkOfSpace(s: string)
    requires AllSpace(s)
    ensures Ink(s) == ""
  {
    if s != "" {
      InkOfSpace(s[1..]);
    }
  }

  lemma {:induction false} AllInkAppend(chunks: seq<string>, chunk: string)
    ensures AllInk(chunks + [chunk]) == AllInk(chunks) + Ink(chunk)
  {
    hide Ink;
    if chunks == [] {
      assert (chunks + [chunk])[0] == chunk && (chunks + [chunk])[1..] == [];
    } else {
      AllInkAppend(chunks[1..], chunk);
      assert (chunks + [chunk])[0] == chunks[0] && (chunks + [chunk])[1..] == chunks[1..] + [chunk];
      Assoc(Ink(chunks[0]), AllInk(chunks[1..]), Ink(chunk));
    }
  }

  lemma SplitKeepsInk(text: string, chunk: string, gap: nat, next: string, limit: nat)
    requires Splits(text, chunk, gap, next, limit)
    ensures Ink(text) == Ink(chunk) + Ink(next)
  {
    hide Ink;
    var space := text[|chunk|..|chunk| + gap];
    assert text == chunk + (space + next);
    InkAppend(chunk, space + next);
    InkAppend(space, next);
    InkOfSpace(space);
  }

  lemma {:induction false} LeadsToKeepsInk(text: string, chunks: seq<string>, rest: string, limit: nat)
    requires LeadsTo(text, chunks, rest, limit)
    ensures Ink(text) == AllInk(chunks) + Ink(rest)
    decreases |chunks|
  {
    hide Ink, Splits;
    if chunks != [] {
      var gap: nat, next :| Splits(text, chunks[0], gap, next, limit) && LeadsTo(next, chunks[1..], rest, limit);
      LeadsToKeepsInk(next, chunks[1..], rest, limit);
      SplitKeepsInk(text, chunks[0], gap, next, limit);
      Assoc(Ink(chunks[0]), AllInk(chunks[1..]), Ink(rest));
    }
  }

  /** The chunks hold exactly the text's characters other than white space, in order. */
  lemma ChunksKeepInk(text: string, chunks: seq<string>, limit: nat)
    requires Joins(text, chunks, limit)
    ensures AllInk(chunks) == Ink(text)
  {
    var n := |chunks| - 1;
    LeadsToKeepsInk(text, chunks[..n], chunks[n], limit);
    AllInkAppend(chunks[..n], chunks[n]);
    assert chunks[..n] + [chunks[n]] == chunks;
  }

  lemma MiddleHoldsInk(text: string, i: nat, j: nat)
    requires i <= j <= |text| && AllSpace(text[..i]) && AllSpace(text[j..])
    ensures Ink(text[i..j]) == Ink(text)
  {
    hide AllSpace, Ink;
    InkOfSpace(text[..i]);
    InkOfSpace(text[j..]);
    InkAppend(text[..i], text[i..j]);
    InkAppend(text[..j], text[j..]);
    assert text[..i] + text[i..j] == text[..j];
    assert text[..j] + text[j..] == text;
  }

  lemma TrimKeepsInk(text: string)
    ensures Ink(Trim(text)) == Ink(text)
  {
    hide Trim, Ink, AllSpace, Trimmed;
    TrimIsMiddle(text);
    var i, j :| 0 <= i <= j <= |text| && Trim(text) == text[i..j] && AllSpace(text[..i]) && AllSpace(text[j..]);
    MiddleHoldsInk(text, i, j);
  }

  /** So a formatted response holds exactly the text's characters other than white space. */
  lemma ResponseKeepsInk(text: string, chunks: seq<string>, limit: nat)
    requires if Trim(text) == "" then chunks == [] else Joins(Trim(text), chunks, limit)
    ensures AllInk(chunks) == Ink(text)
  {
    hide Trim, Joins, Ink;
    TrimKeepsInk(text);
    if Trim(text) == "" {
      InkOfSpace("");
    } else {
      ChunksKeepInk(Trim(text), chunks, limit);
    }
  }
}
