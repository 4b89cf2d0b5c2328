/** glossaryGate of packages/server/src/config.ts: the glossary a server goes on with once a schema is
    known, and the memo that keeps it. */
module GlossaryGate {
  import opened Schema
  import opened Terms
  import opened Glossary
  import opened GlossaryCheck

  function Filtered(entries: seq<GlossaryEntry>, good: GlossaryEntry -> bool): seq<GlossaryEntry> {
    if entries == [] then []
    else (if good(entries[0]) then [entries[0]] else []) + Filtered(entries[1..], good)
  }

  lemma {:induction false} FilteredMeans(entries: seq<GlossaryEntry>, good: GlossaryEntry -> bool)
    ensures forall e :: e in Filtered(entries, good) <==> e in entries && good(e)
    ensures (forall e :: e in entries ==> good(e)) ==> Filtered(entries, good) == entries
  {
    if entries != [] {
      FilteredMeans(entries[1..], good);
      assert forall e :: e in entries <==> e == entries[0] || e in entries[1..];
    }
  }

  /** The entries a schema bears out, in their order. */
  function SoundEntries(entries: seq<GlossaryEntry>, tables: seq<TableInfo>): seq<GlossaryEntry> {
    Filtered(entries, e => Sound(e, tables))
  }

  lemma SoundEntriesAreSound(entries: seq<GlossaryEntry>, tables: seq<TableInfo>)
    ensures forall e :: e in SoundEntries(entries, tables) <==> e in entries && Sound(e, tables)
    ensures (forall e :: e in entries ==> Sound(e, tables)) ==> SoundEntries(entries, tables) == entries
  {
    FilteredMeans(entries, e => Sound(e, tables));
  }

  /** `entries.filter((_, i) => !broken.has(i))`, from entry i on. */
  function Unbroken(entries: seq<GlossaryEntry>, broken: set<int>, i: nat): seq<GlossaryEntry>
    requires i <= |entries|
    decreases |entries| - i
  {
    if i == |entries| then []
    else (if i in broken then [] else [entries[i]]) + Unbroken(entries, broken, i + 1)
  }

  lemma {:induction false} UnbrokenAreSound(entries: seq<GlossaryEntry>, broken: set<int>, tables: seq<TableInfo>,
                                            i: nat)
    requires i <= |entries|
    requires forall j :: 0 <= j < |entries| ==> (j in broken <==> !Sound(entries[j], tables))
    ensures Unbroken(entries, broken, i) == SoundEntries(entries[i..], tables)
    decreases |entries| - i
  {
    if i < |entries| {
      UnbrokenAreSound(entries, broken, tables, i + 1);
      assert entries[i..][1..] == entries[i + 1..];
    }
  }

  function Broken(problems: seq<Problem>): set<int> {
    set p | p in problems && IsError(p.code) :: p.entry
  }

  /** What vetting must give: exactly the entries the schema bears out, indexed afresh. */
  ghost predicate Vets(norm: Normaliser, g: Glossary, tables: seq<TableInfo>, vetted: Glossary) {
    vetted.entries == SoundEntries(g.entries, tables) && WellDefined(norm, vetted)
  }

  method Vet(g: Glossary, tables: seq<TableInfo>, k: Checker, report: Report) returns (vetted: Glossary)
    requires WellDefined(k.norm, g) && report == Validated(g, tables, k)
    ensures Vets(k.norm, g, tables, vetted)
  {
    var broken := Broken(report.problems);
    forall j | 0 <= j < |g.entries| ensures j in broken <==> !Sound(g.entries[j], tables) {
      ErrorsMean(g, tables, k, j);
      BrokenMeans(report.problems, j);
    }
    UnbrokenAreSound(g.entries, broken, tables, 0);
    assert g.entries[0..] == g.entries;
    if broken == {} {
      SoundEntriesAreSound(g.entries, tables);
      return g;
    }
    vetted := DefineGlossary(k.norm, Unbroken(g.entries, broken, 0));
  }

  lemma BrokenMeans(problems: seq<Problem>, i: int)
    ensures i in Broken(problems) <==> HasError(problems, i)
  {
  }

  /** The vetted glossary validates again without an error, in any order of checks and with any caps. */
  lemma VettedIsClean(g: Glossary, tables: seq<TableInfo>, vetted: Glossary, k: Checker)
    requires Vets(k.norm, g, tables, vetted)
    ensures Validated(vetted, tables, k).ok
  {
    SoundEntriesAreSound(g.entries, tables);
    forall i | 0 <= i < |vetted.entries| ensures Sound(vetted.entries[i], tables) {
      assert vetted.entries[i] in vetted.entries;
    }
    ErrorsMean(vetted, tables, k, 0);
  }

  /** So vetting a vetted glossary changes nothing. */
  lemma VettingTwice(norm: Normaliser, g: Glossary, tables: seq<TableInfo>, once: Glossary, twice: Glossary)
    requires Vets(norm, g, tables, once) && Vets(norm, once, tables, twice)
    ensures twice.entries == once.entries
  {
    SoundEntriesAreSound(g.entries, tables);
    SoundEntriesAreSound(once.entries, tables);
  }

  /** What is found out about a schema: the report, and the glossary to go on with. */
  ghost predicate FoundOut(glossary: Glossary, checker: Checker, tables: seq<TableInfo>, report: Report,
                           vetted: Glossary) {
    report == Validated(glossary, tables, checker) && Vets(checker.norm, glossary, tables, vetted)
  }

  method FindOut(glossary: Glossary, checker: Checker, tables: seq<TableInfo>)
      returns (report: Report, vetted: Glossary)
    requires WellDefined(checker.norm, glossary)
    ensures FoundOut(glossary, checker, tables, report, vetted)
  {
    report := ValidateGlossary(glossary, tables, checker);
    vetted := Vet(glossary, tables, checker, report);
  }

  /** The closure and its three variables. A schema is an object compared by identity: `schemas` says what
      the object with a given identity holds. */
  class Gate {
    const glossary: Glossary
    const checker: Checker
    const schemas: nat -> seq<TableInfo>
    var against: Option<nat>
    var vetted: Option<Glossary>
    var report: Option<Report>

    constructor (glossary: Glossary, checker: Checker, schemas: nat -> seq<TableInfo>)
      requires WellDefined(checker.norm, glossary)
      ensures Valid() && against == None
      ensures this.glossary == glossary && this.checker == checker && this.schemas == schemas
    {
      this.glossary, this.checker, this.schemas := glossary, checker, schemas;
      against, vetted, report := None, None, None;
    }

    /** What is remembered was found out against the schema that is remembered. */
    ghost predicate Valid()
      reads this
    {
      && WellDefined(checker.norm, glossary)
      && (report.Some? ==>
            && against.Some? && vetted.Some?
            && FoundOut(glossary, checker, schemas(against.value), report.value, vetted.value))
    }

    /** One report per schema object; problems reach the host when they are found, not when remembered. */
    method Run(schema: nat) returns (r: Report, raised: bool)
      requires Valid()
      modifies this
      ensures Valid() && against == Some(schema) && report == Some(r)
      ensures r == Validated(glossary, schemas(schema), checker)
      ensures raised <==> r.problems != [] && !(old(against) == Some(schema) && old(report).Some?)
    {
      if against == Some(schema) && report.Some? { return report.value, false; }
      against := Some(schema);
      var g;
      r, g := FindOut(glossary, checker, schemas(schema));
      report := Some(r);
      raised := |r.problems| > 0;
      vetted := Some(g);
    }

    /** Whatever happened before, the glossary handed out is the vetted one for the schema asked about. */
    method Use(schema: nat) returns (g: Glossary)
      requires Valid()
      modifies this
      ensures Valid()
      ensures Vets(checker.norm, glossary, schemas(schema), g)
      ensures Validated(g, schemas(schema), checker).ok
    {
      var r, raised := Run(schema);
      g := vetted.value;
      VettedIsClean(glossary, schemas(schema), g, checker);
    }
  }
}
