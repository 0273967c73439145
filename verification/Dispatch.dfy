/** Choosing the agent for an inbound message: by mention, by ranking, or by a click on one
    of the suggestions. */
module Dispatch {
  import opened Basics
  import opened Text

  type AgentId = string
  type Time = int

  datatype Agent = Agent(id: AgentId, name: string, description: string, tools: seq<string>)
  type Catalog = map<string, Agent>

  // ----- The catalogs

  function Hyphenated(s: string): (r: string)
    ensures |r| == |s|
  {
    seq(|s|, i requires 0 <= i < |s| => if s[i] == ' ' then '-' else s[i])
  }

  /** The names an agent answers to: its name and its name with hyphens. */
  predicate Answers(a: Agent, key: string) {
    key == Lower(a.name) || key == Lower(Hyphenated(a.name))
  }

  /** An agent answers to its name in small letters, each blank kept or each a hyphen. */
  lemma AnswersExactly(a: Agent, key: string)
    ensures Answers(a, key) <==>
              || key == Lower(a.name)
              || (|key| == |a.name| && forall i | 0 <= i < |key| :: key[i] == if a.name[i] == ' ' then '-' else Lower(a.name)[i])
  {
    var hyphenated := Lower(Hyphenated(a.name));
    forall i | 0 <= i < |a.name| ensures hyphenated[i] == if a.name[i] == ' ' then '-' else Lower(a.name)[i] {
      assert hyphenated[i] == LowerChar(Hyphenated(a.name)[i]);
    }
    if |key| == |a.name| && forall i | 0 <= i < |key| :: key[i] == hyphenated[i] {
      assert key == hyphenated;
    }
  }

  /** `agents[i]` answers to the key and no later agent does. */
  ghost predicate LastToAnswer(agents: seq<Agent>, answers: (Agent, string) -> bool, key: string, i: int) {
    0 <= i < |agents| && answers(agents[i], key) && forall j | i < j < |agents| :: !answers(agents[j], key)
  }

  /** Every key leads to the last agent that answers to it. */
  ghost predicate IsCatalog(agents: seq<Agent>, answers: (Agent, string) -> bool, catalog: Catalog) {
    && (forall i, k | 0 <= i < |agents| && answers(agents[i], k) :: k in catalog)
    && (forall k | k in catalog :: exists i :: LastToAnswer(agents, answers, k, i) && catalog[k] == agents[i])
  }

  /** So there is one catalog for a list of agents. */
  lemma CatalogIsUnique(agents: seq<Agent>, answers: (Agent, string) -> bool, a: Catalog, b: Catalog)
    requires IsCatalog(agents, answers, a) && IsCatalog(agents, answers, b)
    ensures a == b
  {
    forall k | k in a || k in b ensures k in a && k in b && a[k] == b[k] {
      if k in a {
        var i :| LastToAnswer(agents, answers, k, i) && a[k] == agents[i];
        assert k in b;
      }
      if k in b {
        var j :| LastToAnswer(agents, answers, k, j) && b[k] == agents[j];
        assert k in a;
      }
      var i :| LastToAnswer(agents, answers, k, i) && a[k] == agents[i];
      var j :| LastToAnswer(agents, answers, k, j) && b[k] == agents[j];
      assert i == j;
    }
  }

  lemma CatalogStep(agents: seq<Agent>, answers: (Agent, string) -> bool, n: nat, catalog: Catalog, next: Catalog)
    requires n < |agents| && IsCatalog(agents[..n], answers, catalog)
    requires forall k | answers(agents[n], k) :: k in next && next[k] == agents[n]
    requires forall k | !answers(agents[n], k) :: (k in next <==> k in catalog) && (k in catalog ==> next[k] == catalog[k])
    ensures IsCatalog(agents[..n + 1], answers, next)
  {
    var before, now := agents[..n], agents[..n + 1];
    assert now == before + [agents[n]];
    forall k | k in next ensures exists i :: LastToAnswer(now, answers, k, i) && next[k] == now[i] {
      if answers(agents[n], k) {
        assert LastToAnswer(now, answers, k, n);
      } else {
        var i :| LastToAnswer(before, answers, k, i) && catalog[k] == before[i];
        assert LastToAnswer(now, answers, k, i) && now[i] == before[i];
      }
    }
  }

  lemma NoCatalog(agents: seq<Agent>, answers: (Agent, string) -> bool)
    requires agents == []
    ensures IsCatalog(agents, answers, map[])
  {
  }

  method BuildNames(agents: seq<Agent>) returns (names: Catalog)
    ensures IsCatalog(agents, Answers, names)
  {
    names := map[];
    for n := 0 to |agents|
      invariant IsCatalog(agents[..n], Answers, names)
    {
      ghost var before := names;
      names := names[Lower(agents[n].name) := agents[n]];
      var slug := Lower(Hyphenated(agents[n].name));
      if slug != Lower(agents[n].name) {
        names := names[slug := agents[n]];
      }
      CatalogStep(agents, Answers, n, before, names);
    }
    assert agents[..|agents|] == agents;
  }

  /** Whether an agent's mention alias, if it has one, is the key. */
  function Aliased(aliasOf: AgentId -> string): (Agent, string) -> bool {
    (a: Agent, key: string) => aliasOf(a.id) != "" && key == Lower(aliasOf(a.id))
  }

  method BuildAliases(agents: seq<Agent>, aliasOf: AgentId -> string) returns (aliases: Catalog)
    ensures IsCatalog(agents, Aliased(aliasOf), aliases)
  {
    aliases := map[];
    for n := 0 to |agents|
      invariant IsCatalog(agents[..n], Aliased(aliasOf), aliases)
    {
      ghost var before := aliases;
      var alias := aliasOf(agents[n].id);
      if alias != "" {
        aliases := aliases[Lower(alias) := agents[n]];
      }
      CatalogStep(agents, Aliased(aliasOf), n, before, aliases);
    }
    assert agents[..|agents|] == agents;
  }

  // ----- Direct mentions

  /** `text` begins with `key`, and the key is not the beginning of a longer word. */
  predicate Mentions(text: string, key: string) {
    HasPrefix(text, key) && (|text| == |key| || text[|key|] == ' ' || text[|key|] == ',' || text[|key|] == ':')
  }

  /** A key is mentioned where the text ends with it or goes on with a blank, a comma or a colon. */
  lemma MentionsExactly(key: string, rest: string)
    ensures Mentions(key + rest, key) <==> rest == "" || rest[0] in " ,:"
  {
    assert (key + rest)[..|key|] == key;
  }

  function Entry(names: Catalog, aliases: Catalog, key: string): Agent
    requires key in names || key in aliases
  {
    if key in names then names[key] else aliases[key]
  }

  /** `agent` goes with the longest mentioned key; a name goes before an equal alias. */
  ghost predicate IsMention(text: string, names: Catalog, aliases: Catalog, agent: Option<Agent>) {
    match agent
    case None => forall k | k in names || k in aliases :: !Mentions(text, k)
    case Some(a) => exists k ::
      && (k in names || k in aliases) && Mentions(text, k) && a == Entry(names, aliases, k)
      && (forall other | other in names || other in aliases :: Mentions(text, other) ==> |other| <= |k|)
  }

  /** The choice does not depend on the order in which the catalogs are gone through. */
  lemma MentionIsUnique(text: string, names: Catalog, aliases: Catalog, a: Option<Agent>, b: Option<Agent>)
    requires IsMention(text, names, aliases, a) && IsMention(text, names, aliases, b)
    ensures a == b
  {
    if a.Some? && b.Some? {
      var k :| (k in names || k in aliases) && Mentions(text, k) && a.value == Entry(names, aliases, k)
               && (forall other | other in names || other in aliases :: Mentions(text, other) ==> |other| <= |k|);
      var l :| (l in names || l in aliases) && Mentions(text, l) && b.value == Entry(names, aliases, l)
               && (forall other | other in names || other in aliases :: Mentions(text, other) ==> |other| <= |l|);
      assert k == text[..|k|] == text[..|l|] == l;
    }
  }

  /** The best of the keys of one catalog, starting from an earlier best. */
  method BestIn(text: string, catalog: Catalog, start: Option<(string, Agent)>) returns (best: Option<(string, Agent)>)
    requires start.Some? ==> Mentions(text, start.value.0)
    ensures best.Some? ==> Mentions(text, best.value.0)
    ensures best == start || (best.Some? && best.value.0 in catalog && best.value.1 == catalog[best.value.0]
                              && (start.Some? ==> |best.value.0| > |start.value.0|))
    ensures start.Some? ==> best.Some? && |best.value.0| >= |start.value.0|
    ensures forall k | k in catalog && Mentions(text, k) :: best.Some? && |k| <= |best.value.0|
  {
    best := start;
    var left := catalog.Keys;
    while left != {}
      invariant left <= catalog.Keys
      invariant best.Some? ==> Mentions(text, best.value.0)
      invariant best == start || (best.Some? && best.value.0 in catalog && best.value.1 == catalog[best.value.0]
                                  && (start.Some? ==> |best.value.0| > |start.value.0|))
      invariant start.Some? ==> best.Some? && |best.value.0| >= |start.value.0|
      invariant forall k | k in catalog && k !in left && Mentions(text, k) :: best.Some? && |k| <= |best.value.0|
      decreases |left|
    {
      var k :| k in left;
      if Mentions(text, k) && (best.None? || |k| > |best.value.0|) {
        best := Some((k, catalog[k]));
      }
      left := left - {k};
    }
  }

  method MatchDirectMention(message: string, names: Catalog, aliases: Catalog) returns (r: Option<Agent>)
    ensures IsMention(Lower(Trim(message)), names, aliases, r)
  {
    var text := Lower(Trim(message));
    var named := BestIn(text, names, None);
    var best := BestIn(text, aliases, named);
    r := if best.Some? then Some(best.value.1) else None;
    if best.Some? {
      assert best != named ==> best.value.0 !in names;
      assert best.value.1 == Entry(names, aliases, best.value.0);
    }
  }

  // ----- Ranking

  datatype Scored = Scored(agent: Agent, score: nat)

  ghost predicate Descending(s: seq<Scored>) {
    forall i, j | 0 <= i < j < |s| :: s[i].score >= s[j].score
  }

  /** The entries of one score, in order. */
  function WithScore(s: seq<Scored>, score: nat): seq<Scored> {
    if s == [] then []
    else WithScore(s[..|s| - 1], score) + if s[|s| - 1].score == score then [s[|s| - 1]] else []
  }

  ghost predicate SameScores(s: seq<Scored>, t: seq<Scored>) {
    forall score: nat :: WithScore(s, score) == WithScore(t, score)
  }

  /** `t` is `s` in descending order, entries of equal score as they were in `s`. */
  ghost predicate IsStableSort(s: seq<Scored>, t: seq<Scored>) {
    Descending(t) && SameScores(s, t)
  }

  /** Inserting behind every entry that does not score less. */
  function Inserted(s: seq<Scored>, x: Scored): (r: seq<Scored>)
    ensures |r| == |s| + 1
  {
    if s == [] || s[|s| - 1].score >= x.score then s + [x] else Inserted(s[..|s| - 1], x) + [s[|s| - 1]]
  }

  function Ranked(s: seq<Scored>): (r: seq<Scored>)
    ensures |r| == |s|
  {
    if s == [] then [] else Inserted(Ranked(s[..|s| - 1]), s[|s| - 1])
  }

  lemma {:induction false} InsertedIsAt(s: seq<Scored>, x: Scored, j: nat)
    requires j <= |s| && (j > 0 ==> s[j - 1].score >= x.score) && forall k | j <= k < |s| :: s[k].score < x.score
    ensures Inserted(s, x) == s[..j] + [x] + s[j..]
  {
    if j == |s| {
      assert s[..j] == s && s[j..] == [];
    } else {
      var n := |s| - 1;
      InsertedIsAt(s[..n], x, j);
      assert s[..n][..j] == s[..j] && s[j..] == s[..n][j..] + [s[n]];
    }
  }

  lemma WithScoreOfLast(s: seq<Scored>, score: nat)
    requires s != []
    ensures WithScore(s, score) == WithScore(s[..|s| - 1], score) + if s[|s| - 1].score == score then [s[|s| - 1]] else []
  {
  }

  lemma {:induction false} WithScoreAppend(a: seq<Scored>, b: seq<Scored>, score: nat)
    ensures WithScore(a + b, score) == WithScore(a, score) + WithScore(b, score)
  {
    hide WithScore;
    if b == [] {
      assert a + b == a;
      NoScores(score);
    } else {
      var n := |b| - 1;
      WithScoreAppend(a, b[..n], score);
      assert (a + b)[..|a + b| - 1] == a + b[..n];
      WithScoreOfLast(a + b, score);
      WithScoreOfLast(b, score);
    }
  }

  lemma NoScores(score: nat)
    ensures WithScore([], score) == []
  {
  }

  lemma InsertedUnfolds(s: seq<Scored>, x: Scored)
    requires s != [] && s[|s| - 1].score < x.score
    ensures Inserted(s, x) == Inserted(s[..|s| - 1], x) + [s[|s| - 1]]
  {
  }

  lemma {:induction false} InsertedKeepsScores(s: seq<Scored>, x: Scored, score: nat)
    ensures WithScore(Inserted(s, x), score) == WithScore(s, score) + WithScore([x], score)
  {
    hide WithScore;
    if s == [] || s[|s| - 1].score >= x.score {
      WithScoreAppend(s, [x], score);
    } else {
      hide Inserted;
      var init, last := s[..|s| - 1], s[|s| - 1];
      InsertedUnfolds(s, x);
      InsertedKeepsScores(init, x, score);
      WithScoreAppend(Inserted(init, x), [last], score);
      WithScoreAppend(init, [last], score);
      OneScore(last, score);
      OneScore(x, score);
      assert s == init + [last];
    }
  }

  lemma {:induction false} InsertedIsDescending(s: seq<Scored>, x: Scored)
    requires Descending(s)
    ensures Descending(Inserted(s, x)) && forall i | 0 <= i < |Inserted(s, x)| :: Inserted(s, x)[i] in s || Inserted(s, x)[i] == x
  {
    if s != [] && s[|s| - 1].score < x.score {
      var init, last := s[..|s| - 1], s[|s| - 1];
      InsertedIsDescending(init, x);
      var r := Inserted(init, x);
      forall i | 0 <= i < |r| ensures r[i].score >= last.score && (r[i] in s || r[i] == x) {
        assert r[i] in init || r[i] == x;
      }
    }
  }

  lemma OneScore(x: Scored, score: nat)
    ensures WithScore([x], score) == if x.score == score then [x] else []
  {
    assert [x][..0] == [];
  }

  lemma RankedUnfolds(s: seq<Scored>, i: nat)
    requires i < |s|
    ensures Ranked(s[..i + 1]) == Inserted(Ranked(s[..i]), s[i])
  {
    assert s[..i + 1][..i] == s[..i];
  }

  lemma {:induction false} RankedKeepsScores(s: seq<Scored>, score: nat)
    ensures WithScore(Ranked(s), score) == WithScore(s, score)
  {
    hide Inserted, Ranked, WithScore;
    if s == [] {
      RankedOfNone();
    } else {
      var init, last := s[..|s| - 1], s[|s| - 1];
      RankedKeepsScores(init, score);
      RankedUnfolds(s, |init|);
      assert s[..|init| + 1] == s && init + [last] == s;
      InsertedKeepsScores(Ranked(init), last, score);
      WithScoreAppend(init, [last], score);
    }
  }

  lemma {:induction false} RankedIsDescending(s: seq<Scored>)
    ensures Descending(Ranked(s))
  {
    if s != [] {
      hide Inserted;
      RankedIsDescending(s[..|s| - 1]);
      InsertedIsDescending(Ranked(s[..|s| - 1]), s[|s| - 1]);
    }
  }

  lemma RankedIsStableSort(s: seq<Scored>)
    ensures IsStableSort(s, Ranked(s))
  {
    hide Ranked, WithScore, Descending;
    RankedIsDescending(s);
    forall score: nat ensures WithScore(s, score) == WithScore(Ranked(s), score) {
      RankedKeepsScores(s, score);
    }
  }

  lemma {:induction false} HasScore(s: seq<Scored>, i: nat)
    requires i < |s|
    ensures s[i] in WithScore(s, s[i].score)
  {
    var n := |s| - 1;
    if i < n {
      HasScore(s[..n], i);
    }
  }

  lemma {:induction false} FromWithScore(s: seq<Scored>, score: nat)
    ensures forall x | x in WithScore(s, score) :: x in s && x.score == score
  {
    if s != [] {
      FromWithScore(s[..|s| - 1], score);
    }
  }

  lemma SameEntries(s: seq<Scored>, t: seq<Scored>)
    requires SameScores(s, t)
    ensures forall x | x in s :: x in t
  {
    forall x | x in s ensures x in t {
      var i :| 0 <= i < |s| && s[i] == x;
      HasScore(s, i);
      FromWithScore(t, x.score);
    }
  }

  lemma PeelLast(s: seq<Scored>, t: seq<Scored>)
    requires s != [] && t != [] && s[|s| - 1].score == t[|t| - 1].score
    requires SameScores(s, t)
    ensures s[|s| - 1] == t[|t| - 1]
    ensures SameScores(s[..|s| - 1], t[..|t| - 1])
  {
    hide WithScore;
    SplitLast(s, s[|s| - 1].score);
    SplitLast(t, s[|s| - 1].score);
    var init, last := s[..|s| - 1], t[..|t| - 1];
    forall v: nat ensures WithScore(init, v) == WithScore(last, v) {
      assert WithScore(s, v) == WithScore(t, v);
      SplitLast(s, v);
      SplitLast(t, v);
    }
  }

  /** There is only one stable sort. */
  lemma {:induction false} StableSortIsUnique(s: seq<Scored>, t: seq<Scored>)
    requires Descending(s) && Descending(t) && SameScores(s, t)
    ensures s == t
    decreases |s|
  {
    hide WithScore, Descending;
    SameEntries(s, t);
    SameEntries(t, s);
    assert t != [] ==> t[0] in t;
    if s != [] {
      assert s[0] in t;
      LowestIsLast(s, t);
      PeelLast(s, t);
      DescendingInit(s);
      DescendingInit(t);
      StableSortIsUnique(s[..|s| - 1], t[..|t| - 1]);
      assert s == s[..|s| - 1] + [s[|s| - 1]] && t == t[..|t| - 1] + [t[|t| - 1]];
    }
  }

  lemma DescendingInit(s: seq<Scored>)
    requires s != [] && Descending(s)
    ensures Descending(s[..|s| - 1])
  {
  }

  /** The last entry ends the entries of its own score and no others. */
  lemma SplitLast(s: seq<Scored>, v: nat)
    requires s != []
    ensures var all, init, last := WithScore(s, v), WithScore(s[..|s| - 1], v), s[|s| - 1];
            if last.score == v then all != [] && all[|all| - 1] == last && all[..|all| - 1] == init else all == init
  {
  }

  lemma LowestIsLast(s: seq<Scored>, t: seq<Scored>)
    requires s != [] && t != [] && Descending(s) && Descending(t)
    requires (forall x | x in s :: x in t) && (forall x | x in t :: x in s)
    ensures s[|s| - 1].score == t[|t| - 1].score
  {
    assert s[|s| - 1] in t && t[|t| - 1] in s;
  }

  lemma OnlyRanked(s: seq<Scored>, t: seq<Scored>)
    requires IsStableSort(s, t)
    ensures t == Ranked(s)
  {
    hide Ranked, WithScore, Descending;
    RankedIsStableSort(s);
    forall v: nat ensures WithScore(t, v) == WithScore(Ranked(s), v) {
      assert WithScore(s, v) == WithScore(t, v) && WithScore(s, v) == WithScore(Ranked(s), v);
    }
    StableSortIsUnique(t, Ranked(s));
  }

  /** The insertion sort, in place. */
  method SortByScore(results: array<Scored>)
    modifies results
    ensures results[..] == Ranked(old(results[..])) && IsStableSort(old(results[..]), results[..])
  {
    hide Ranked, Inserted, IsStableSort;
    ghost var start := results[..];
    RankedOfNone();
    for i := 0 to results.Length
      invariant results[..i] == Ranked(start[..i]) && results[i..] == start[i..]
    {
      RankedUnfolds(start, i);
      assert results[i] == results[i..][0] == start[i];
      InsertAt(results, i);
    }
    assert start[..results.Length] == start && results[..results.Length] == results[..];
    RankedIsStableSort(start);
  }

  lemma RankedOfNone()
    ensures Ranked([]) == []
  {
  }

  method InsertAt(results: array<Scored>, i: nat)
    requires i < results.Length
    modifies results
    ensures results[..i + 1] == Inserted(old(results[..i]), old(results[i])) && results[i + 1..] == old(results[i + 1..])
  {
    ghost var before, x := results[..i], results[i];
    var j := i;
    while j > 0 && results[j].score > results[j - 1].score
      invariant 0 <= j <= i && results[i + 1..] == old(results[i + 1..])
      invariant results[..i + 1] == before[..j] + [x] + before[j..]
      invariant forall k | j <= k < i :: before[k].score < x.score
    {
      assert results[j] == results[..i + 1][j] == x;
      assert results[j - 1] == results[..i + 1][j - 1] == before[j - 1];
      results[j], results[j - 1] := results[j - 1], results[j];
      assert results[..i + 1] == before[..j - 1] + [x] + before[j - 1..];
      j := j - 1;
    }
    if j > 0 {
      assert results[j] == results[..i + 1][j] == x;
      assert results[j - 1] == results[..i + 1][j - 1] == before[j - 1];
    }
    InsertedIsAt(before, x, j);
  }

  /** How many of the words, counting only those longer than two characters, occur in the text. */
  function Hits(words: seq<string>, text: string): nat {
    if words == [] then 0
    else
      var last := words[|words| - 1];
      Hits(words[..|words| - 1], text) + if |last| > 2 && Contains(text, last) then 1 else 0
  }

  function ToolHits(words: seq<string>, tools: seq<string>): nat {
    if tools == [] then 0 else ToolHits(words, tools[..|tools| - 1]) + Hits(words, Lower(tools[|tools| - 1]))
  }

  function Score(words: seq<string>, a: Agent): nat {
    Hits(words, Lower(a.description + " " + a.name)) + ToolHits(words, a.tools)
  }

  // ----- What a score counts

  /** A word of three characters or more that occurs somewhere in the text. */
  ghost predicate Occurs(word: string, text: string) {
    |word| >= 3 && exists before, after :: before + word + after == text
  }

  lemma OccursExactly(word: string, text: string)
    ensures Occurs(word, text) <==> |word| > 2 && Contains(text, word)
  {
    if |word| > 2 && Contains(text, word) {
      var at := LastIndex(text, word);
      assert text[..at] + word + text[at + |word|..] == text;
    }
    if Occurs(word, text) {
      var before, after :| before + word + after == text;
      assert (before + word + after)[|before|..|before| + |word|] == word;
      assert OccursAt(text, word, |before|);
    }
  }

  /** The words that occur in one of the texts, as pairs of positions. */
  ghost function Row(words: seq<string>, text: string, t: nat): set<(nat, nat)> {
    set i: nat | i < |words| && Occurs(words[i], text) :: (t, i)
  }

  /** Which word occurs in which of the texts, by position. */
  ghost function Occurrences(words: seq<string>, texts: seq<string>): set<(nat, nat)> {
    set t: nat, i: nat | t < |texts| && i < |words| && Occurs(words[i], Lower(texts[t])) :: (t, i)
  }

  lemma {:induction false} HitsAreRow(words: seq<string>, text: string, t: nat)
    ensures Hits(words, text) == |Row(words, text, t)|
  {
    hide Occurs, Contains;
    if words == [] {
      assert Row(words, text, t) == {};
    } else {
      var init, last := words[..|words| - 1], words[|words| - 1];
      HitsAreRow(init, text, t);
      OccursExactly(last, text);
      assert Row(words, text, t) == Row(init, text, t) + if Occurs(last, text) then {(t, |init|)} else {};
    }
  }

  lemma {:induction false} ToolHitsAreOccurrences(words: seq<string>, texts: seq<string>)
    ensures ToolHits(words, texts) == |Occurrences(words, texts)|
  {
    hide Occurs, Hits, Lower;
    if texts == [] {
      assert Occurrences(words, texts) == {};
    } else {
      var init, last := texts[..|texts| - 1], texts[|texts| - 1];
      ToolHitsAreOccurrences(words, init);
      HitsAreRow(words, Lower(last), |init|);
      assert Occurrences(words, texts) == Occurrences(words, init) + Row(words, Lower(last), |init|);
      assert Occurrences(words, init) !! Row(words, Lower(last), |init|);
    }
  }

  lemma {:induction false} ToolHitsSplit(words: seq<string>, text: string, tools: seq<string>)
    ensures ToolHits(words, [text] + tools) == Hits(words, Lower(text)) + ToolHits(words, tools)
  {
    hide Hits, Lower;
    if tools == [] {
      assert [text] + tools == [text] && [text][..0] == [];
      assert ToolHits(words, [text]) == ToolHits(words, []) + Hits(words, Lower(text));
    } else {
      ToolHitsSplit(words, text, tools[..|tools| - 1]);
      assert ([text] + tools)[..|tools|] == [text] + tools[..|tools| - 1];
    }
  }

  /** A score is the number of places where a word of three characters or more occurs in the
      description with the name, or in the name of a tool. */
  lemma ScoreCounts(words: seq<string>, a: Agent)
    ensures Score(words, a) == |Occurrences(words, [a.description + " " + a.name] + a.tools)|
  {
    hide Hits, ToolHits, Occurrences, Lower;
    ToolHitsSplit(words, a.description + " " + a.name, a.tools);
    ToolHitsAreOccurrences(words, [a.description + " " + a.name] + a.tools);
  }

  function Scores(message: string, agents: seq<Agent>): (r: seq<nat>)
    ensures |r| == |agents|
  {
    seq(|agents|, i requires 0 <= i < |agents| => Score(Fields(Lower(message)), agents[i]))
  }

  method CountHits(words: seq<string>, text: string) returns (count: nat)
    ensures count == Hits(words, text)
  {
    count := 0;
    for i := 0 to |words|
      invariant count == Hits(words[..i], text)
    {
      assert words[..i + 1][..i] == words[..i];
      if |words[i]| > 2 && Contains(text, words[i]) {
        count := count + 1;
      }
    }
    assert words[..|words|] == words;
  }

  method ScoreAgents(message: string, agents: seq<Agent>) returns (scores: seq<nat>)
    ensures scores == Scores(message, agents)
    ensures forall i | 0 <= i < |agents| ::
              scores[i] == |Occurrences(Fields(Lower(message)), [agents[i].description + " " + agents[i].name] + agents[i].tools)|
  {
    hide Hits, Fields, Lower, Occurrences;
    var words := Fields(Lower(message));
    scores := [];
    for i := 0 to |agents|
      invariant |scores| == i && forall k | 0 <= k < i :: scores[k] == Score(words, agents[k])
    {
      var score := CountHits(words, Lower(agents[i].description + " " + agents[i].name));
      var tools := agents[i].tools;
      ghost var base := score;
      for t := 0 to |tools|
        invariant score == base + ToolHits(words, tools[..t])
      {
        assert tools[..t + 1][..t] == tools[..t];
        var hits := CountHits(words, Lower(tools[t]));
        score := score + hits;
      }
      assert tools[..|tools|] == tools;
      scores := scores + [score];
    }
    forall i | 0 <= i < |agents| ensures scores[i] == |Occurrences(words, [agents[i].description + " " + agents[i].name] + agents[i].tools)| {
      ScoreCounts(words, agents[i]);
    }
  }

  function WithScores(agents: seq<Agent>, scores: seq<nat>): (r: seq<Scored>)
    requires |scores| == |agents|
    ensures |r| == |agents|
  {
    seq(|agents|, i requires 0 <= i < |agents| => Scored(agents[i], scores[i]))
  }

  function RankedAgents(agents: seq<Agent>, scores: seq<nat>): (r: seq<Agent>)
    requires |scores| == |agents|
    ensures |r| == |agents|
  {
    var all := Ranked(WithScores(agents, scores));
    seq(|agents|, i requires 0 <= i < |agents| => all[i].agent)
  }

  function AtMostThree(agents: seq<Agent>): seq<Agent> {
    agents[..if |agents| < 3 then |agents| else 3]
  }

  method RankAgents(agents: seq<Agent>, scores: seq<nat>) returns (suggestions: seq<Agent>)
    requires |scores| == |agents|
    ensures suggestions == AtMostThree(RankedAgents(agents, scores))
    ensures |suggestions| == if |agents| < 3 then |agents| else 3
    ensures forall t: seq<Scored> | IsStableSort(WithScores(agents, scores), t) && |t| == |agents| ::
              forall k | 0 <= k < |suggestions| :: suggestions[k] == t[k].agent
  {
    hide Ranked, IsStableSort;
    ghost var given := WithScores(agents, scores);
    var results := new Scored[|agents|](i requires 0 <= i < |agents| => Scored(agents[i], scores[i]));
    assert results[..] == given;
    SortByScore(results);
    assert results[..] == Ranked(given);
    var limit := if |agents| < 3 then |agents| else 3;
    suggestions := [];
    for k := 0 to limit
      invariant |suggestions| == k && results[..] == Ranked(given)
      invariant forall m | 0 <= m < k :: suggestions[m] == Ranked(given)[m].agent
    {
      assert results[k] == results[..][k];
      suggestions := suggestions + [results[k].agent];
    }
    forall t: seq<Scored> | IsStableSort(given, t) ensures t == Ranked(given) {
      OnlyRanked(given, t);
    }
  }

  // ----- Dispatches that wait for a click

  datatype Pending = Pending(suggestions: seq<AgentId>, createdAt: Time)

  datatype Result = NoAgents | Direct(agent: Agent) | Default(agent: Agent) | Waiting | SendFailed

  /** Five minutes, in seconds. */
  const PENDING_TTL := 300

  function Ids(agents: seq<Agent>): (r: seq<AgentId>)
    ensures |r| == |agents|
  {
    seq(|agents|, i requires 0 <= i < |agents| => agents[i].id)
  }

  predicate BySpawn(spawn: Option<string>, names: Catalog, aliases: Catalog) {
    spawn.Some? && (Lower(spawn.value) in names || Lower(spawn.value) in aliases)
  }

  /** What is decided without a click: the agent of a spawn command, else the one mentioned,
      else the only one there is, else none. */
  ghost predicate Chosen(message: string, spawn: Option<string>, agents: seq<Agent>, names: Catalog, aliases: Catalog, r: Option<Result>) {
    if BySpawn(spawn, names, aliases) then r == Some(Direct(Entry(names, aliases, Lower(spawn.value))))
    else if r.Some? && r.value.Direct? then IsMention(Lower(Trim(message)), names, aliases, Some(r.value.agent))
    else IsMention(Lower(Trim(message)), names, aliases, None) && r == if |agents| == 1 then Some(Default(agents[0])) else None
  }

  lemma ChosenIsFinal(message: string, spawn: Option<string>, agents: seq<Agent>, names: Catalog, aliases: Catalog, r: Option<Result>)
    requires Chosen(message, spawn, agents, names, aliases, r) && r.Some?
    ensures r.value.Direct? || r.value.Default?
  {
  }

  method Choose(message: string, spawn: Option<string>, agents: seq<Agent>, names: Catalog, aliases: Catalog) returns (r: Option<Result>)
    requires agents != []
    ensures Chosen(message, spawn, agents, names, aliases, r)
  {
    hide IsMention, Lower, Trim;
    if spawn.Some? {
      var key := Lower(spawn.value);
      if key in names {
        return Some(Direct(names[key]));
      }
      if key in aliases {
        return Some(Direct(aliases[key]));
      }
    }
    var mention := MatchDirectMention(message, names, aliases);
    if mention.Some? {
      return Some(Direct(mention.value));
    }
    if |agents| == 1 {
      return Some(Default(agents[0]));
    }
    r := None;
  }

  class AgentDispatcher {
    var pending: map<string, Pending>
    /** Every dispatch that was ever put up for a click, and the clicks that chose an agent. */
    ghost var issued: map<string, Pending>
    ghost var resolved: seq<(string, AgentId)>

    constructor ()
      ensures Valid() && pending == map[] && issued == map[] && resolved == []
    {
      pending, issued, resolved := map[], map[], [];
    }

    /** No dispatch was resolved twice, and each to one of its own suggestions. */
    ghost predicate Valid()
      reads this
    {
      && (forall id | id in pending :: id in issued && issued[id] == pending[id])
      && (forall i | 0 <= i < |resolved| :: resolved[i].0 in issued && resolved[i].0 !in pending
                                            && resolved[i].1 in issued[resolved[i].0].suggestions)
      && (forall i, j | 0 <= i < j < |resolved| :: resolved[i].0 != resolved[j].0)
    }

    /** Puts a dispatch up for a click, and takes it back if the platform refuses the buttons. */
    method PutUp(id: string, dispatch: Pending, sent: bool) returns (up: bool)
      requires Valid() && id !in issued
      modifies this
      ensures Valid() && resolved == old(resolved) && up == sent
      ensures pending == if sent then old(pending)[id := dispatch] else old(pending)
    {
      ghost var before := pending;
      pending := pending[id := dispatch];
      if !sent {
        pending := pending - {id};
        assert pending == before;
        return false;
      }
      issued := issued[id := dispatch];
      up := true;
    }

    /** Resolves a message to an agent, or puts the best three up for a click. `spawn` is
        the agent named by a spawn command, `id` a new identifier, `sent` whether the
        platform took the buttons. */
    method Dispatch(message: string, spawn: Option<string>, agents: seq<Agent>, aliasOf: AgentId -> string,
                    id: string, now: Time, sent: bool) returns (r: Result, ghost names: Catalog, ghost aliases: Catalog)
      requires Valid() && id !in issued
      modifies this
      ensures Valid() && resolved == old(resolved)
      ensures IsCatalog(agents, Answers, names) && IsCatalog(agents, Aliased(aliasOf), aliases)
      ensures if agents == [] then r == NoAgents
              else if r.Waiting? || r.SendFailed? then Chosen(message, spawn, agents, names, aliases, None) && (r.Waiting? <==> sent)
              else Chosen(message, spawn, agents, names, aliases, Some(r))
      ensures if r.Waiting? then
                pending == old(pending)[id := Pending(Ids(AtMostThree(RankedAgents(agents, Scores(message, agents)))), now)]
              else pending == old(pending)
    {
      hide IsCatalog, RankedAgents, AtMostThree, Scores, Ids, Chosen, WithScores, IsStableSort, Valid;
      if agents == [] {
        names, aliases := map[], map[];
        NoCatalog(agents, Answers);
        NoCatalog(agents, Aliased(aliasOf));
        return NoAgents, names, aliases;
      }
      var nameMap := BuildNames(agents);
      var aliasMap := BuildAliases(agents, aliasOf);
      names, aliases := nameMap, aliasMap;
      var choice := Choose(message, spawn, agents, nameMap, aliasMap);
      if choice.Some? {
        ChosenIsFinal(message, spawn, agents, names, aliases, choice);
        return choice.value, names, aliases;
      }
      var scores := ScoreAgents(message, agents);
      var top := RankAgents(agents, scores);
      var up := PutUp(id, Pending(Ids(top), now), sent);
      r := if up then Waiting else SendFailed;
    }

    /** A click. It uses the dispatch up even if the agent is not one of its suggestions. */
    method HandleDispatchInteraction(id: string, agent: AgentId) returns (r: Option<Pending>)
      requires Valid()
      modifies this
      ensures Valid() && issued == old(issued)
      ensures pending == old(pending) - {id}
      ensures r.Some? <==> id in old(pending) && agent in old(pending)[id].suggestions
      ensures r.Some? ==> r.value == old(pending)[id] && resolved == old(resolved) + [(id, agent)]
      ensures r.None? ==> resolved == old(resolved)
    {
      if id !in pending {
        return None;
      }
      var found := pending[id];
      pending := pending - {id};
      for i := 0 to |found.suggestions|
        invariant agent !in found.suggestions[..i]
        invariant pending == old(pending) - {id} && resolved == old(resolved) && issued == old(issued)
      {
        if found.suggestions[i] == agent {
          resolved := resolved + [(id, agent)];
          return Some(found);
        }
      }
      assert found.suggestions[..|found.suggestions|] == found.suggestions;
      r := None;
    }

    method CleanupExpired(now: Time)
      requires Valid()
      modifies this`pending
      ensures Valid()
      ensures pending == map id | id in old(pending) && now - old(pending)[id].createdAt <= 5 * 60 :: old(pending)[id]
    {
      var cutoff := now - PENDING_TTL;
      var left := pending.Keys;
      ghost var before := pending;
      while left != {}
        invariant left <= before.Keys
        invariant pending == map id | id in before && (id in left || !(before[id].createdAt < cutoff)) :: before[id]
        decreases |left|
      {
        var id :| id in left;
        if pending[id].createdAt < cutoff {
          pending := pending - {id};
        }
        left := left - {id};
      }
    }
  }
}
