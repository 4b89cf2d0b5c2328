/** What a matched phrase adds to a search. */
module GlossaryAccount {
  import opened Schema
  import opened Text
  import opened Terms
  import opened Tiling
  import opened Glossary

  // The expansion of packages/core/src/semantic/expand.ts, from the entries as their author wrote them.

  /** A text the entry goes by: its term or one of its synonyms. */
  ghost predicate GoesBy(e: GlossaryEntry, form: string) {
    form == e.term || match e.synonyms case Some(all) => form in all case None => false
  }

  /** A word of something the entry names: a text it goes by, a table it refers to, or a column of one. */
  ghost predicate WordOf(norm: Normaliser, e: GlossaryEntry, w: string) {
    (exists form :: GoesBy(e, form) && w in norm(form)) || exists r :: RefersTo(e, r) && WordOfRef(norm, r, w)
  }

  predicate RefersTo(e: GlossaryEntry, r: GlossaryRef) {
    match e.refs
    case Some(refs) => r in refs
    case None => false
  }

  ghost predicate WordOfRef(norm: Normaliser, r: GlossaryRef, w: string) {
    w in norm(r.table)
    || match r.columns
       case Some(columns) => exists c :: c in columns && w in norm(c)
       case None => false
  }

  lemma {:induction false} FormTermsMean(norm: Normaliser, forms: seq<string>, w: string)
    ensures w in FormTerms(norm, forms) <==> exists f :: f in forms && w in norm(f)
  {
    if forms != [] {
      FormTermsMean(norm, forms[1..], w);
      assert forall f :: f in forms <==> f == forms[0] || f in forms[1..];
    }
  }

  lemma {:induction false} RefTermsMean(norm: Normaliser, refs: seq<GlossaryRef>, w: string)
    ensures w in RefTerms(norm, refs) <==> exists r :: r in refs && WordOfRef(norm, r, w)
  {
    if refs != [] {
      var first := refs[0];
      RefTermsMean(norm, refs[1..], w);
      RefWords(norm, first, w);
      if r :| r in refs && WordOfRef(norm, r, w) { assert r == first || r in refs[1..]; }
      assert first in refs && forall r | r in refs[1..] :: r in refs;
    }
  }

  lemma RefWords(norm: Normaliser, r: GlossaryRef, w: string)
    ensures w in norm(r.table) + FormTerms(norm, r.columns.GetOr([])) <==> WordOfRef(norm, r, w)
  {
    FormTermsMean(norm, r.columns.GetOr([]), w);
  }

  lemma FormsAre(e: GlossaryEntry, form: string)
    ensures form in SurfaceForms(e) <==> GoesBy(e, form)
  {
  }

  lemma EntryTermsMean(norm: Normaliser, e: GlossaryEntry, w: string)
    ensures w in EntryTerms(norm, e) <==> WordOf(norm, e, w)
  {
    FormTermsMean(norm, SurfaceForms(e), w);
    RefTermsMean(norm, e.refs.GetOr([]), w);
    forall form ensures form in SurfaceForms(e) <==> GoesBy(e, form) { FormsAre(e, form); }
  }

  ghost predicate WordOfMatch(norm: Normaliser, g: Glossary, ms: seq<Match>, w: string) {
    exists m :: m in ms && m.entry < |g.entries| && WordOf(norm, g.entries[m.entry], w)
  }

  lemma {:induction false} MatchTermsMean(norm: Normaliser, g: Glossary, ms: seq<Match>, w: string)
    ensures w in MatchTerms(norm, g, ms) <==> WordOfMatch(norm, g, ms, w)
  {
    if ms != [] {
      MatchTermsMean(norm, g, ms[1..], w);
      if ms[0].entry < |g.entries| { EntryTermsMean(norm, g.entries[ms[0].entry], w); }
      assert forall m :: m in ms <==> m == ms[0] || m in ms[1..];
    }
  }

  /** What an expansion adds: words of the matched entries, none of which the question has, each once, at most
      maxTerms; and when there are fewer than that, all of them. */
  ghost predicate Adds(norm: Normaliser, g: Glossary, question: string, maxTerms: int, e: Expansion) {
    && (forall w | w in e.terms :: w !in norm(question) && WordOfMatch(norm, g, e.matches, w))
    && (forall j, k | 0 <= j < k < |e.terms| :: e.terms[j] != e.terms[k])
    && (e.terms != [] ==> |e.terms| <= maxTerms)
    && (|e.terms| < maxTerms ==>
          forall w | WordOfMatch(norm, g, e.matches, w) && w !in norm(question) :: w in e.terms)
  }

  lemma ExpansionAdds(norm: Normaliser, g: Glossary, question: string, maxTerms: int, e: Expansion)
    requires e.matches == Tiles(g, norm(question))
    requires e.terms == Limit(Unseen((set w | w in norm(question)), MatchTerms(norm, g, e.matches)), maxTerms)
    ensures Adds(norm, g, question, maxTerms, e)
  {
    var seen := set w | w in norm(question);
    var offered := MatchTerms(norm, g, e.matches);
    UnseenIsNew(seen, offered);
    forall w ensures w in offered <==> WordOfMatch(norm, g, e.matches, w) { MatchTermsMean(norm, g, e.matches, w); }
    assert forall w | w in e.terms :: w in Unseen(seen, offered);
  }

  // ---- which phrases there are ----

  /** The entry claims the phrase: some text it goes by reduces to it, and it is not empty. */
  ghost predicate ClaimsPhrase(norm: Normaliser, e: GlossaryEntry, key: string) {
    key != "" && exists form :: GoesBy(e, form) && Join(norm(form), " ") == key
  }

  lemma ClaimsMean(norm: Normaliser, entries: seq<GlossaryEntry>, i: nat, key: string)
    requires i < |entries|
    ensures Claims(norm, entries, i, key) <==> ClaimsPhrase(norm, entries[i], key)
  {
    var forms := SurfaceForms(entries[i]);
    if Claims(norm, entries, i, key) {
      var k :| 0 <= k < |forms| && PhraseKey(norm, forms[k]) == key;
      FormsAre(entries[i], forms[k]);
    }
    if form :| GoesBy(entries[i], form) && Join(norm(form), " ") == key {
      FormsAre(entries[i], form);
      var k :| 0 <= k < |forms| && forms[k] == form;
      assert PhraseKey(norm, forms[k]) == key;
    }
  }

  /** Every phrase goes to the first entry that claims it, and nothing else is a phrase. */
  lemma PhrasesGoToFirst(norm: Normaliser, g: Glossary, key: string)
    requires WellDefined(norm, g)
    ensures key in g.byPhrase <==> exists i | 0 <= i < |g.entries| :: ClaimsPhrase(norm, g.entries[i], key)
    ensures key in g.byPhrase ==>
              && g.byPhrase[key] < |g.entries| && ClaimsPhrase(norm, g.entries[g.byPhrase[key]], key)
              && forall j | 0 <= j < g.byPhrase[key] :: !ClaimsPhrase(norm, g.entries[j], key)
  {
    forall i: nat | i < |g.entries| ensures Claims(norm, g.entries, i, key) <==> ClaimsPhrase(norm, g.entries[i], key) {
      ClaimsMean(norm, g.entries, i, key);
    }
  }
}
