/** White space and searching in text, one character per byte. */
module Text {
  predicate IsSpace(c: char) {
    c == ' ' || c == '\t' || c == '\n' || c == '\U{B}' || c == '\U{C}' || c == '\r'
  }

  /** White space by its codes: the blank and the five controls from tab to return. */
  lemma SpaceCodes(c: char)
    ensures IsSpace(c) <==> c as int == 32 || 9 <= c as int <= 13
  {
  }

  predicate AllSpace(s: string) {
    forall i | 0 <= i < |s| :: IsSpace(s[i])
  }

  predicate Trimmed(s: string) {
    s != "" ==> !IsSpace(s[0]) && !IsSpace(s[|s| - 1])
  }

  function TrimLeft(s: string): (r: string)
    ensures |r| <= |s| && s[|s| - |r|..] == r && AllSpace(s[..|s| - |r|])
    ensures r != "" ==> !IsSpace(r[0])
  {
    if s != "" && IsSpace(s[0]) then TrimLeft(s[1..]) else s
  }

  function TrimRight(s: string): (r: string)
    ensures |r| <= |s| && s[..|r|] == r && AllSpace(s[|r|..])
    ensures r != "" ==> !IsSpace(r[|r| - 1])
  {
    if s != "" && IsSpace(s[|s| - 1]) then TrimRight(s[..|s| - 1]) else s
  }

  function Trim(s: string): (r: string)
    ensures Trimmed(r) && |r| <= |s|
  {
    TrimRight(TrimLeft(s))
  }

  /** Trimming cuts white space, and nothing else, off both ends. */
  lemma TrimIsMiddle(s: string)
    ensures exists i, j :: 0 <= i <= j <= |s| && Trim(s) == s[i..j] && AllSpace(s[..i]) && AllSpace(s[j..])
  {
    hide TrimLeft, TrimRight;
    var l := TrimLeft(s);
    var i, r := |s| - |l|, Trim(s);
    assert s[i..] == l && r == l[..|r|] && AllSpace(l[|r|..]) && AllSpace(s[..i]);
    assert s[i..i + |r|] == r && s[i + |r|..] == l[|r|..];
  }

  lemma TrimOfBlank(s: string)
    ensures Trim(s) == "" <==> AllSpace(s)
  {
    hide TrimLeft, TrimRight;
    TrimIsMiddle(s);
    var i, j :| 0 <= i <= j <= |s| && Trim(s) == s[i..j] && AllSpace(s[..i]) && AllSpace(s[j..]);
    if Trim(s) == "" {
      assert s == s[..i] + s[j..];
    } else {
      assert Trim(s)[0] == s[i];
    }
  }

  /** Text that starts with something other than white space is only cut at its end. */
  lemma TrimOfSolid(s: string)
    requires s != "" && !IsSpace(s[0])
    ensures Trim(s) != "" && |Trim(s)| <= |s| && s[..|Trim(s)|] == Trim(s) && AllSpace(s[|Trim(s)|..])
  {
    assert TrimLeft(s) == s && s[0..][0] == s[0];
  }

  /** Text that ends with something other than white space is only cut at its start. */
  lemma TrimOfTail(s: string)
    requires s != "" && !IsSpace(s[|s| - 1])
    ensures Trim(s) != "" && |Trim(s)| <= |s| && s[|s| - |Trim(s)|..] == Trim(s) && AllSpace(s[..|s| - |Trim(s)|])
  {
    hide TrimLeft;
    var l := TrimLeft(s);
    assert s[..|s|][|s| - 1] == s[|s| - 1];
    assert l != "" && l[|l| - 1] == s[|s| - 1];
    assert TrimRight(l) == l;
  }

  lemma TrimOfTrimmed(s: string)
    requires Trimmed(s)
    ensures Trim(s) == s
  {
  }

  predicate OccursAt(s: string, sep: string, i: int) {
    0 <= i && i + |sep| <= |s| && s[i..i + |sep|] == sep
  }

  /** The last index at which `sep` occurs, or -1. */
  function LastIndex(s: string, sep: string): (r: int)
    ensures r == -1 || OccursAt(s, sep, r)
    ensures forall i | r < i :: !OccursAt(s, sep, i)
  {
    LastIndexFrom(s, sep, |s|)
  }

  function LastIndexFrom(s: string, sep: string, from: nat): (r: int)
    requires from <= |s|
    ensures r == -1 || (r <= from && OccursAt(s, sep, r))
    ensures forall i | r < i <= from :: !OccursAt(s, sep, i)
  {
    if OccursAt(s, sep, from) then from
    else if from == 0 then -1
    else LastIndexFrom(s, sep, from - 1)
  }

  function LowerChar(c: char): char {
    if 'A' <= c <= 'Z' then c - 'A' + 'a' else c
  }

  function Lower(s: string): (r: string)
    ensures |r| == |s|
  {
    seq(|s|, i requires 0 <= i < |s| => LowerChar(s[i]))
  }

  const CAPITALS := "ABCDEFGHIJKLMNOPQRSTUVWXYZ"
  const SMALL := "abcdefghijklmnopqrstuvwxyz"

  /** The capitals are exchanged for the small letters one by one; nothing else changes. */
  lemma LowerExactly(s: string, i: nat)
    requires i < |s|
    ensures forall k | 0 <= k < 26 && s[i] == CAPITALS[k] :: Lower(s)[i] == SMALL[k]
    ensures s[i] !in CAPITALS ==> Lower(s)[i] == s[i]
  {
    if 'A' <= s[i] <= 'Z' {
      assert CAPITALS[(s[i] - 'A') as int] == s[i];
    }
  }

  lemma LowerTwice(s: string)
    ensures Lower(Lower(s)) == Lower(s)
  {
  }

  predicate HasPrefix(s: string, prefix: string) {
    |prefix| <= |s| && s[..|prefix|] == prefix
  }

  predicate Contains(s: string, part: string) {
    LastIndex(s, part) >= 0
  }

  /** The length of the text before the first white space. */
  function WordEnd(s: string): (r: nat)
    ensures r <= |s| && (forall i | 0 <= i < r :: !IsSpace(s[i])) && (r < |s| ==> IsSpace(s[r]))
  {
    if s == "" || IsSpace(s[0]) then 0 else 1 + WordEnd(s[1..])
  }

  /** The words between runs of white space. */
  function Fields(s: string): (r: seq<string>)
    ensures forall i | 0 <= i < |r| :: r[i] != "" && forall c | c in r[i] :: !IsSpace(c)
    decreases |s|
  {
    var t := TrimLeft(s);
    if t == "" then [] else [t[..WordEnd(t)]] + Fields(t[WordEnd(t)..])
  }

  lemma {:induction false} TrimLeftOfBlank(space: string, rest: string)
    requires AllSpace(space)
    ensures TrimLeft(space + rest) == TrimLeft(rest)
  {
    if space == "" {
      assert space + rest == rest;
    } else {
      TrimLeftOfBlank(space[1..], rest);
      assert (space + rest)[1..] == space[1..] + rest;
    }
  }

  lemma {:induction false} WordEndOf(word: string, rest: string)
    requires (forall c | c in word :: !IsSpace(c)) && (rest != "" ==> IsSpace(rest[0]))
    ensures WordEnd(word + rest) == |word|
  {
    if word == "" {
      assert word + rest == rest;
    } else {
      WordEndOf(word[1..], rest);
      assert (word + rest)[1..] == word[1..] + rest;
    }
  }

  /** White space alone has no words. */
  lemma FieldsOfBlank(space: string)
    requires AllSpace(space)
    ensures Fields(space) == []
  {
    TrimLeftOfBlank(space, "");
    assert space + "" == space;
  }

  lemma FieldsUnfold(s: string, t: string, n: nat)
    requires t == TrimLeft(s) && t != "" && n == WordEnd(t)
    ensures Fields(s) == [t[..n]] + Fields(t[n..])
  {
  }

  lemma TrimLeftOfWord(space: string, t: string)
    requires AllSpace(space) && t != "" && !IsSpace(t[0])
    ensures TrimLeft(space + t) == t
  {
    hide AllSpace, IsSpace;
    TrimLeftOfBlank(space, t);
  }

  /** What stands between white space is a word. */
  lemma FieldsOfWord(space: string, word: string, rest: string)
    requires AllSpace(space) && word != "" && (forall c | c in word :: !IsSpace(c)) && (rest != "" ==> IsSpace(rest[0]))
    ensures Fields(space + word + rest) == [word] + Fields(rest)
  {
    hide Fields, WordEnd, AllSpace, TrimLeft, IsSpace;
    var t := word + rest;
    assert word[0] in word && t[0] == word[0];
    TrimLeftOfWord(space, t);
    WordEndOf(word, rest);
    WordThenRest(word, rest);
    assert space + word + rest == space + t;
    FieldsUnfold(space + word + rest, t, |word|);
  }

  lemma WordThenRest(word: string, rest: string)
    ensures (word + rest)[..|word|] == word && (word + rest)[|word|..] == rest
  {
  }
}
