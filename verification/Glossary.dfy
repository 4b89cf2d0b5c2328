/** packages/core/src/semantic/glossary.ts and expand.ts: phrases in a question. */
module Glossary {
  import opened Schema
  import opened Terms
  import opened Tiling

  // An index from normalised phrases to the entries that claim them, and the scan that finds the longest
  // phrase at each word of a question.

  datatype Glossary = Glossary(entries: seq<GlossaryEntry>, byPhrase: map<string, nat>, longestPhrase: nat)

  function SurfaceForms(e: GlossaryEntry): (forms: seq<string>)
    ensures |forms| >= 1
  {
    [e.term] + e.synonyms.GetOr([])
  }

  function PhraseKey(norm: Normaliser, text: string): string {
    Joined(norm(text))
  }

  // ---- building the index ----

  ghost predicate Claims(norm: Normaliser, entries: seq<GlossaryEntry>, i: int, key: string) {
    && 0 <= i < |entries| && key != ""
    && exists k | 0 <= k < |SurfaceForms(entries[i])| :: PhraseKey(norm, SurfaceForms(entries[i])[k]) == key
  }

  /** The index maps a phrase to the first entry that claims it, and holds every phrase anybody claims. */
  ghost predicate FirstClaimantWins(norm: Normaliser, g: Glossary) {
    && (forall key | key in g.byPhrase :: Claims(norm, g.entries, g.byPhrase[key], key))
    && (forall key, j | key in g.byPhrase && 0 <= j < g.byPhrase[key] :: !Claims(norm, g.entries, j, key))
    && (forall key, i | Claims(norm, g.entries, i, key) :: key in g.byPhrase)
  }

  ghost predicate LongestIsMaximum(g: Glossary) {
    && (forall key | key in g.byPhrase :: Pieces(key) <= g.longestPhrase)
    && (g.longestPhrase > 0 ==> exists key | key in g.byPhrase :: Pieces(key) == g.longestPhrase)
  }

  /** What `defineGlossary` returns. */
  ghost predicate WellDefined(norm: Normaliser, g: Glossary) {
    FirstClaimantWins(norm, g) && LongestIsMaximum(g)
  }

  /** The index once the forms before form k of entry i have been entered. */
  ghost predicate EnteredUpTo(norm: Normaliser, g: Glossary, i: nat, k: nat) {
    && i <= |g.entries|
    && (forall key | key in g.byPhrase :: g.byPhrase[key] <= i && Claims(norm, g.entries, g.byPhrase[key], key))
    && (forall key, j | key in g.byPhrase && 0 <= j < g.byPhrase[key] :: !Claims(norm, g.entries, j, key))
    && (forall key, j | 0 <= j < i && Claims(norm, g.entries, j, key) :: key in g.byPhrase)
    && (i < |g.entries| ==>
          forall m | 0 <= m < k && m < |SurfaceForms(g.entries[i])| :: Entered(norm, g, SurfaceForms(g.entries[i])[m]))
  }

  ghost predicate Entered(norm: Normaliser, g: Glossary, form: string) {
    PhraseKey(norm, form) == "" || PhraseKey(norm, form) in g.byPhrase
  }

  method DefineGlossary(norm: Normaliser, entries: seq<GlossaryEntry>) returns (g: Glossary)
    ensures g.entries == entries && WellDefined(norm, g)
  {
    g := Glossary(entries, map[], 0);
    for i := 0 to |entries|
      invariant g.entries == entries && EnteredUpTo(norm, g, i, 0) && LongestIsMaximum(g)
    {
      g := EnterForms(norm, g, i);
      EntryDone(norm, g, i);
    }
    AllEntered(norm, g);
  }

  /** The inner loop: the forms of entry i, each entered unless it has no words or is taken. */
  method EnterForms(norm: Normaliser, g: Glossary, i: nat) returns (h: Glossary)
    requires i < |g.entries| && EnteredUpTo(norm, g, i, 0) && LongestIsMaximum(g)
    ensures h.entries == g.entries && LongestIsMaximum(h)
    ensures EnteredUpTo(norm, h, i, |SurfaceForms(h.entries[i])|)
  {
    h := g;
    var forms := SurfaceForms(g.entries[i]);
    for k := 0 to |forms|
      invariant h.entries == g.entries && EnteredUpTo(norm, h, i, k) && LongestIsMaximum(h)
    {
      var key := PhraseKey(norm, forms[k]);
      if key == "" || key in h.byPhrase {
        SkipForm(norm, h, i, k);
        continue;
      }
      var n := Pieces(key);
      var longest := if n > h.longestPhrase then n else h.longestPhrase;
      EnterOne(norm, h, i, k, key, longest);
      LongestAfter(h, key, i, longest);
      h := Glossary(h.entries, h.byPhrase[key := i], longest);
    }
  }

  lemma SkipForm(norm: Normaliser, g: Glossary, i: nat, k: nat)
    requires EnteredUpTo(norm, g, i, k) && i < |g.entries| && k < |SurfaceForms(g.entries[i])|
    requires Entered(norm, g, SurfaceForms(g.entries[i])[k])
    ensures EnteredUpTo(norm, g, i, k + 1)
  {
    forall m | 0 <= m < k + 1 ensures Entered(norm, g, SurfaceForms(g.entries[i])[m]) {}
  }

  lemma AllEntered(norm: Normaliser, g: Glossary)
    requires EnteredUpTo(norm, g, |g.entries|, 0)
    ensures FirstClaimantWins(norm, g)
  {
  }

  lemma EnterOne(norm: Normaliser, g: Glossary, i: nat, k: nat, key: string, longest: nat)
    requires EnteredUpTo(norm, g, i, k) && i < |g.entries| && k < |SurfaceForms(g.entries[i])|
    requires key == PhraseKey(norm, SurfaceForms(g.entries[i])[k]) && key != "" && key !in g.byPhrase
    ensures EnteredUpTo(norm, Glossary(g.entries, g.byPhrase[key := i], longest), i, k + 1)
  {
    var h := Glossary(g.entries, g.byPhrase[key := i], longest);
    assert Claims(norm, h.entries, i, key);
    forall m | 0 <= m < k + 1 ensures Entered(norm, h, SurfaceForms(g.entries[i])[m]) {
      if m < k { assert Entered(norm, g, SurfaceForms(g.entries[i])[m]); }
    }
  }

  lemma LongestAfter(g: Glossary, key: string, i: nat, longest: nat)
    requires LongestIsMaximum(g) && key !in g.byPhrase
    requires longest == if Pieces(key) > g.longestPhrase then Pieces(key) else g.longestPhrase
    ensures LongestIsMaximum(Glossary(g.entries, g.byPhrase[key := i], longest))
  {
    var h := Glossary(g.entries, g.byPhrase[key := i], longest);
    assert key in h.byPhrase;
    if longest != Pieces(key) {
      var old' :| old' in g.byPhrase && Pieces(old') == g.longestPhrase;
      assert old' in h.byPhrase;
    }
  }

  lemma EntryDone(norm: Normaliser, g: Glossary, i: nat)
    requires i < |g.entries| && EnteredUpTo(norm, g, i, |SurfaceForms(g.entries[i])|)
    ensures EnteredUpTo(norm, g, i + 1, 0)
  {
    forall key, j | 0 <= j < i + 1 && Claims(norm, g.entries, j, key) ensures key in g.byPhrase {
      if j == i {
        var k :| 0 <= k < |SurfaceForms(g.entries[i])| && PhraseKey(norm, SurfaceForms(g.entries[i])[k]) == key;
        assert Entered(norm, g, SurfaceForms(g.entries[i])[k]);
      }
    }
  }

  // ---- the scan ----

  function KeyAt(asked: seq<string>, i: nat, n: nat): string
    requires i + n <= |asked|
  {
    Joined(asked[i..i + n])
  }

  /** The longest claimed phrase at i of at most n words, or 0. */
  function LongestUpTo(g: Glossary, asked: seq<string>, i: nat, n: nat): (found: nat)
    requires i + n <= |asked|
    ensures found <= n
    ensures found > 0 ==> KeyAt(asked, i, found) in g.byPhrase
  {
    if n == 0 then 0
    else if KeyAt(asked, i, n) in g.byPhrase then n
    else LongestUpTo(g, asked, i, n - 1)
  }

  lemma {:induction false} NothingLonger(g: Glossary, asked: seq<string>, i: nat, n: nat)
    requires i + n <= |asked|
    ensures forall m | LongestUpTo(g, asked, i, n) < m <= n :: KeyAt(asked, i, m) !in g.byPhrase
  {
    if n > 0 && KeyAt(asked, i, n) !in g.byPhrase { NothingLonger(g, asked, i, n - 1); }
  }

  function Window(g: Glossary, asked: seq<string>, i: nat): (n: nat)
    requires i <= |asked|
    ensures i + n <= |asked|
  {
    if g.longestPhrase <= |asked| - i then g.longestPhrase else |asked| - i
  }

  /** The match at i, if any. An index entry without an entry behind it is passed over. */
  function TileAt(g: Glossary, asked: seq<string>, i: nat): (m: Option<Match>)
    requires i < |asked|
    ensures m.Some? ==>
              m.value.start == i && m.value.length >= 1 && i + m.value.length <= |asked| && m.value.entry < |g.entries|
  {
    var n := LongestUpTo(g, asked, i, Window(g, asked, i));
    if n == 0 || g.byPhrase[KeyAt(asked, i, n)] >= |g.entries| then None
    else Some(Match(i, n, g.byPhrase[KeyAt(asked, i, n)]))
  }

  function TileFn(g: Glossary, asked: seq<string>): int -> Option<Match> {
    k => if 0 <= k < |asked| then TileAt(g, asked, k) else None
  }

  /** What the scan finds. */
  function Tiles(g: Glossary, asked: seq<string>): seq<Match> {
    TilesBy(TileFn(g, asked), |asked|, 0)
  }

  function RefTerms(norm: Normaliser, refs: seq<GlossaryRef>): seq<string> {
    if refs == [] then []
    else norm(refs[0].table) + FormTerms(norm, refs[0].columns.GetOr([])) + RefTerms(norm, refs[1..])
  }

  function FormTerms(norm: Normaliser, forms: seq<string>): seq<string> {
    if forms == [] then [] else norm(forms[0]) + FormTerms(norm, forms[1..])
  }

  function EntryTerms(norm: Normaliser, e: GlossaryEntry): seq<string> {
    FormTerms(norm, SurfaceForms(e)) + RefTerms(norm, e.refs.GetOr([]))
  }

  function MatchTerms(norm: Normaliser, g: Glossary, ms: seq<Match>): seq<string> {
    if ms == [] then []
    else
      (if ms[0].entry < |g.entries| then EntryTerms(norm, g.entries[ms[0].entry]) else [])
      + MatchTerms(norm, g, ms[1..])
  }

  /** The words not seen before, each once, in order. */
  function Unseen(seen: set<string>, words: seq<string>): seq<string>
    decreases words
  {
    if words == [] then []
    else if words[0] in seen then Unseen(seen, words[1..])
    else [words[0]] + Unseen(seen + {words[0]}, words[1..])
  }

  function Limit(words: seq<string>, most: int): seq<string> {
    if most < 0 then [] else if |words| <= most then words else words[..most]
  }

  /** The words seen and the words added once `words` have been offered. */
  function Adding(seen: set<string>, added: seq<string>, words: seq<string>, most: int): (set<string>, seq<string>)
    decreases words
  {
    if words == [] then (seen, added)
    else if words[0] in seen || |added| >= most then Adding(seen, added, words[1..], most)
    else Adding(seen + {words[0]}, added + [words[0]], words[1..], most)
  }

  lemma {:induction false} AddingConcat(seen: set<string>, added: seq<string>, a: seq<string>, b: seq<string>,
                                        most: int)
    ensures Adding(seen, added, a + b, most) ==
              Adding(Adding(seen, added, a, most).0, Adding(seen, added, a, most).1, b, most)
    decreases a
  {
    if a == [] {
      assert a + b == b;
    } else {
      assert (a + b)[1..] == a[1..] + b;
      if a[0] in seen || |added| >= most {
        AddingConcat(seen, added, a[1..], b, most);
      } else {
        AddingConcat(seen + {a[0]}, added + [a[0]], a[1..], b, most);
      }
    }
  }

  /** Offering words one at a time adds the first `most` of the unseen ones. */
  lemma {:induction false} AddingIsLimit(seen: set<string>, added: seq<string>, words: seq<string>, most: int)
    requires |added| <= if most < 0 then 0 else most
    ensures Adding(seen, added, words, most).1 == Limit(added + Unseen(seen, words), most)
    decreases words
  {
    if words == [] {
      assert added + [] == added;
    } else if words[0] in seen || |added| >= most {
      AddingIsLimit(seen, added, words[1..], most);
    } else {
      AddingIsLimit(seen + {words[0]}, added + [words[0]], words[1..], most);
      assert added + ([words[0]] + Unseen(seen + {words[0]}, words[1..])) ==
          (added + [words[0]]) + Unseen(seen + {words[0]}, words[1..]);
    }
  }

  method AddTerms(words: seq<string>, seen0: set<string>, added0: seq<string>, most: int)
      returns (seen: set<string>, added: seq<string>)
    ensures (seen, added) == Adding(seen0, added0, words, most)
  {
    seen, added := seen0, added0;
    for k := 0 to |words|
      invariant Adding(seen, added, words[k..], most) == Adding(seen0, added0, words, most)
    {
      assert words[k..][1..] == words[k + 1..];
      if words[k] in seen || |added| >= most { continue; }
      seen, added := seen + {words[k]}, added + [words[k]];
    }
  }

  datatype Expansion = Expansion(terms: seq<string>, searchText: string, matches: seq<Match>)

  /** The terms of one more match. */
  method TakeMatch(norm: Normaliser, g: Glossary, ghost ms: seq<Match>, m: Match, ghost seen0: set<string>,
                   seen: set<string>, added: seq<string>, most: int)
      returns (seen': set<string>, added': seq<string>)
    requires m.entry < |g.entries| && (seen, added) == Adding(seen0, [], MatchTerms(norm, g, ms), most)
    ensures (seen', added') == Adding(seen0, [], MatchTerms(norm, g, ms + [m]), most)
  {
    TakeTerms(norm, g, ms, m, seen0, seen, added, most);
    seen', added' := AddTerms(EntryTerms(norm, g.entries[m.entry]), seen, added, most);
  }

  /** tile gives the match at word i. */
  predicate TileIs(tile: int -> Option<Match>, g: Glossary, asked: seq<string>, i: int)
    requires 0 <= i < |asked|
  {
    tile(i) == TileAt(g, asked, i)
  }

  ghost predicate TilesAre(tile: int -> Option<Match>, g: Glossary, asked: seq<string>) {
    forall i | 0 <= i < |asked| :: TileIs(tile, g, asked, i)
  }

  method ScanFrom(norm: Normaliser, g: Glossary, asked: seq<string>, seen0: set<string>, maxTerms: int,
                  ghost tile: int -> Option<Match>)
      returns (matches: seq<Match>, added: seq<string>)
    requires TilesAre(tile, g, asked)
    ensures matches == TilesBy(tile, |asked|, 0)
    ensures added == Adding(seen0, [], MatchTerms(norm, g, matches), maxTerms).1
  {
    var seen := seen0;
    matches, added := [], [];
    ghost var all := TilesBy(tile, |asked|, 0);
    var i := 0;
    while i < |asked|
      invariant i <= |asked|
      invariant all == matches + TilesBy(tile, |asked|, i)
      invariant (seen, added) == Adding(seen0, [], MatchTerms(norm, g, matches), maxTerms)
    {
      var found := MatchAt(g, asked, i, tile);
      if found.None? {
        i := i + 1;
        continue;
      }
      var m := found.value;
      Regroup(all, matches, m, TilesBy(tile, |asked|, i + m.length));
      seen, added := TakeMatch(norm, g, matches, m, seen0, seen, added, maxTerms);
      matches := matches + [m];
      i := i + m.length;
    }
    assert matches + [] == matches;
  }

  /** The inner loop: from the window down to the first phrase somebody claims. */
  method MatchAt(g: Glossary, asked: seq<string>, i: nat, ghost tile: int -> Option<Match>) returns (m: Option<Match>)
    requires i < |asked| && TilesAre(tile, g, asked)
    ensures m == tile(i)
    ensures m.Some? ==> 1 <= m.value.length && i + m.value.length <= |asked| && m.value.entry < |g.entries|
  {
    assert TileIs(tile, g, asked, i);
    var n := if g.longestPhrase < |asked| - i then g.longestPhrase else |asked| - i;
    while n >= 1 && KeyAt(asked, i, n) !in g.byPhrase
      invariant 0 <= n && i + n <= |asked|
      invariant LongestUpTo(g, asked, i, n) == LongestUpTo(g, asked, i, Window(g, asked, i))
    {
      n := n - 1;
    }
    if n == 0 { return None; }
    var index := g.byPhrase[KeyAt(asked, i, n)];
    return if index >= |g.entries| then None else Some(Match(i, n, index));
  }

  method ExpandQuestion(norm: Normaliser, g: Glossary, question: string, maxTerms: int) returns (e: Expansion)
    ensures e.matches == Tiles(g, norm(question))
    ensures e.terms == Limit(Unseen((set w | w in norm(question)), MatchTerms(norm, g, e.matches)), maxTerms)
    ensures e.searchText == if e.terms == [] then question else question + " " + Joined(e.terms)
  {
    var asked := norm(question);
    var seen := set w | w in asked;
    var matches, added := ScanFrom(norm, g, asked, seen, maxTerms, TileFn(g, asked));
    AddingIsLimit(seen, [], MatchTerms(norm, g, matches), maxTerms);
    assert [] + Unseen(seen, MatchTerms(norm, g, matches)) == Unseen(seen, MatchTerms(norm, g, matches));
    e := Expansion(added, if |added| == 0 then question else question + " " + Joined(added), matches);
  }

  lemma Regroup(all: seq<Match>, ms: seq<Match>, m: Match, rest: seq<Match>)
    requires all == ms + ([m] + rest)
    ensures all == ms + [m] + rest
  {
  }

  lemma TakeTerms(norm: Normaliser, g: Glossary, ms: seq<Match>, m: Match, seen0: set<string>, seen: set<string>,
                  added: seq<string>, most: int)
    requires m.entry < |g.entries| && (seen, added) == Adding(seen0, [], MatchTerms(norm, g, ms), most)
    ensures Adding(seen0, [], MatchTerms(norm, g, ms + [m]), most) ==
              Adding(seen, added, EntryTerms(norm, g.entries[m.entry]), most)
  {
    MatchTermsGrow(norm, g, ms, m);
    AddingConcat(seen0, [], MatchTerms(norm, g, ms), EntryTerms(norm, g.entries[m.entry]), most);
  }

  lemma {:induction false} MatchTermsGrow(norm: Normaliser, g: Glossary, ms: seq<Match>, m: Match)
    requires m.entry < |g.entries|
    ensures MatchTerms(norm, g, ms + [m]) == MatchTerms(norm, g, ms) + EntryTerms(norm, g.entries[m.entry])
  {
    if ms == [] {
      assert [m][1..] == [];
    } else {
      MatchTermsGrow(norm, g, ms[1..], m);
      assert (ms + [m])[1..] == ms[1..] + [m];
    }
  }

  // ---- what the scan finds ----

  /** The n words at i are a phrase somebody claims. */
  predicate Claimed(g: Glossary, asked: seq<string>, i: int, n: int) {
    0 <= i && 1 <= n && i + n <= |asked| && Joined(asked[i..i + n]) in g.byPhrase
  }

  function SpotsOf(g: Glossary, asked: seq<string>): Spots {
    Spots((i, n) => Claimed(g, asked, i, n),
          (i, n) => if Claimed(g, asked, i, n) then g.byPhrase[Joined(asked[i..i + n])] else 0,
          |asked|)
  }

  /** A window of longestPhrase words loses nothing. */
  lemma WindowSuffices(norm: Normaliser, g: Glossary, asked: seq<string>, i: nat, n: int)
    requires WellDefined(norm, g) && AllTerms(asked) && i <= |asked|
    requires Claimed(g, asked, i, n)
    ensures n <= Window(g, asked, i)
  {
    var words := asked[i..i + n];
    assert AllTerms(words);
    PiecesOfJoined(words);
  }

  lemma TileIsLongest(norm: Normaliser, g: Glossary, asked: seq<string>, i: nat)
    requires WellDefined(norm, g) && AllTerms(asked) && i < |asked|
    ensures match TileAt(g, asked, i)
            case None => forall m :: !SpotsOf(g, asked).at(i, m)
            case Some(m) => m.start == i && IsLongestMatch(SpotsOf(g, asked), m)
  {
    var n := LongestUpTo(g, asked, i, Window(g, asked, i));
    NothingLonger(g, asked, i, Window(g, asked, i));
    forall m | Claimed(g, asked, i, m) ensures m <= n {
      WindowSuffices(norm, g, asked, i, m);
      assert KeyAt(asked, i, m) == Joined(asked[i..i + m]);
    }
    if n > 0 {
      assert Claims(norm, g.entries, g.byPhrase[KeyAt(asked, i, n)], KeyAt(asked, i, n));
    }
  }

  lemma TilesAreFaithful(norm: Normaliser, g: Glossary, asked: seq<string>, k: nat)
    requires WellDefined(norm, g) && AllTerms(asked) && k < |asked|
    ensures Faithful(SpotsOf(g, asked), TileFn(g, asked), k)
  {
    TileIsLongest(norm, g, asked, k);
  }

  lemma TilesAreLeftmostLongest(norm: Normaliser, g: Glossary, asked: seq<string>)
    requires WellDefined(norm, g) && AllTerms(asked)
    ensures LeftmostLongest(SpotsOf(g, asked), 0, Tiles(g, asked))
  {
    forall k: nat | k < |asked| ensures Faithful(SpotsOf(g, asked), TileFn(g, asked), k) {
      TilesAreFaithful(norm, g, asked, k);
    }
    ScanIsLeftmostLongest(SpotsOf(g, asked), TileFn(g, asked), 0);
  }

  /** Over a glossary that was defined here, the scan computes the one leftmost-longest tiling. */
  lemma ScanIsTheTiling(norm: Normaliser, g: Glossary, question: string, ms: seq<Match>)
    requires GivesTerms(norm) && WellDefined(norm, g)
    ensures ms == Tiles(g, norm(question)) <==> LeftmostLongest(SpotsOf(g, norm(question)), 0, ms)
  {
    TilesAreLeftmostLongest(norm, g, norm(question));
    if LeftmostLongest(SpotsOf(g, norm(question)), 0, ms) {
      LeftmostLongestIsUnique(SpotsOf(g, norm(question)), 0, ms, Tiles(g, norm(question)));
    }
  }

  // ---- what is added to the search ----

  lemma {:induction false} UnseenIsNew(seen: set<string>, words: seq<string>)
    ensures forall w :: w in Unseen(seen, words) <==> w in words && w !in seen
    ensures forall j, k | 0 <= j < k < |Unseen(seen, words)| :: Unseen(seen, words)[j] != Unseen(seen, words)[k]
    decreases words
  {
    if words != [] {
      if words[0] in seen {
        UnseenIsNew(seen, words[1..]);
      } else {
        UnseenIsNew(seen + {words[0]}, words[1..]);
        assert words[0] !in Unseen(seen + {words[0]}, words[1..]);
      }
    }
  }

  /** The added terms are distinct, new to the question, and come from the matched entries. */
  lemma AddedTermsAreNew(norm: Normaliser, g: Glossary, question: string, maxTerms: int)
    ensures var ts := Limit(Unseen((set w | w in norm(question)), MatchTerms(norm, g, Tiles(g, norm(question)))),
                            maxTerms);
            && |ts| <= (if maxTerms < 0 then 0 else maxTerms)
            && (forall t | t in ts :: t !in norm(question) && t in MatchTerms(norm, g, Tiles(g, norm(question))))
            && (forall j, k | 0 <= j < k < |ts| :: ts[j] != ts[k])
  {
    var all := Unseen((set w | w in norm(question)), MatchTerms(norm, g, Tiles(g, norm(question))));
    UnseenIsNew((set w | w in norm(question)), MatchTerms(norm, g, Tiles(g, norm(question))));
    assert forall t | t in Limit(all, maxTerms) :: t in all;
  }

  /** The same for the glossary and the questions as the server has them, normalised by `TermsOf`. */
  lemma ServerScanIsTheTiling(g: Glossary, question: string, ms: seq<Match>)
    requires WellDefined(TermsOf, g)
    ensures ms == Tiles(g, TermsOf(question)) <==> LeftmostLongest(SpotsOf(g, TermsOf(question)), 0, ms)
  {
    TermsOfGivesTerms();
    ScanIsTheTiling(TermsOf, g, question, ms);
  }
}
