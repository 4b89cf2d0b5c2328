/** packages/sql-guard/src/rowcap.ts: trees on which the clamp shows. */
module GuardWitness {
  import opened Schema
  import opened SqlTypes
  import opened SqlGuard

  // Two statements that the first inspection accepts and the clamp changes: one that a shallow policy then
  // refuses, and one that loses a table with the limit it had.

  /** The allowlists admit what the two trees are made of. */
  ghost predicate KnowsParts(lists: Allowlists) {
    KnowsLimits(lists) && KnowsTags(lists) && KnowsFields(lists)
  }

  ghost predicate KnowsTags(lists: Allowlists) {
    "SelectStmt" in lists.tags && "RangeVar" in lists.tags
  }

  ghost predicate KnowsFields(lists: Allowlists) {
    && "RangeVar" in lists.fields && "relname" in lists.fields["RangeVar"]
    && "A_Const" in lists.fields && "isnull" in lists.fields["A_Const"]
  }

  lemma SourceListsKnowTags(lower: string -> string)
    ensures KnowsTags(SourceLists(lower))
  {
  }

  lemma SourceListsKnowFields(lower: string -> string)
    ensures KnowsFields(SourceLists(lower))
  {
  }

  lemma DifferentKeys()
    ensures "limitOption" != "limitCount" && "SelectStmt" != "FuncCall" && "RangeVar" != "FuncCall"
              && "A_Const" != "FuncCall"
    ensures "A_Const" != "RangeVar" && "SelectStmt" != "RangeVar" && "isnull" != "A_Const"
    ensures "LIMIT_OPTION_DEFAULT" != "LIMIT_OPTION_WITH_TIES" && "LIMIT_OPTION_COUNT" != "LIMIT_OPTION_WITH_TIES"
  {
    assert |"limitOption"| == 11 && |"limitCount"| == 10 && |"SelectStmt"| == 10 && |"FuncCall"| == 8;
    assert "RangeVar"[0] != "FuncCall"[0] && "A_Const"[0] != "FuncCall"[0] && "A_Const"[0] != "RangeVar"[0];
    assert |"isnull"| == 6 && |"A_Const"| == 7 && |"RangeVar"| == 8;
    assert |"LIMIT_OPTION_DEFAULT"| == 20 && |"LIMIT_OPTION_WITH_TIES"| == 22 && |"LIMIT_OPTION_COUNT"| == 18;
  }

  function Root(select: seq<Field>): Node {
    Obj([Field("SelectStmt", Obj(select))])
  }

  function Whole(maxRows: int): real {
    maxRows as real
  }

  /** The statement passes and is clamped, and the result does not pass. */
  ghost predicate AcceptsThenRefuses(select: seq<Field>, lists: Allowlists, maxDepth: int, maxRows: int,
                               toNumber: Node -> Option<real>) {
    && AllPass(Sites(Root(select), None, 0), lists, maxDepth)
    && CapOf(select, Whole(maxRows), toNumber) == Capped(Whole(maxRows), true)
    && !AllPass(Sites(Root(Clamp(select, Whole(maxRows))), None, 0), lists, maxDepth)
  }

  /** The statement passes and is clamped, and the result names other tables. */
  ghost predicate LosesTables(select: seq<Field>, lists: Allowlists, maxDepth: int, maxRows: int,
                        toNumber: Node -> Option<real>) {
    && AllPass(Sites(Root(select), None, 0), lists, maxDepth)
    && CapOf(select, Whole(maxRows), toNumber) == Capped(Whole(maxRows), true)
    && Tables(Sites(Root(Clamp(select, Whole(maxRows))), None, 0)) != Tables(Sites(Root(select), None, 0))
  }

  // ---- a policy too shallow for the clamp ----

  /** `SELECT` with nothing selected: the one property is the limit option every SELECT has. */
  function Bare(): seq<Field> {
    [Field("limitOption", Str("LIMIT_OPTION_DEFAULT"))]
  }

  lemma BareSites()
    ensures Sites(Root(Bare()), None, 0) ==
            [Depth(0), Tag("SelectStmt", Obj(Bare())), Depth(1), FieldOf("SelectStmt", "limitOption"), Depth(2)]
  {
    SelectSites(Bare());
    var f := Field("limitOption", Str("LIMIT_OPTION_DEFAULT"));
    assert !IsTag("limitOption");
    assert OneField(f, Some("SelectStmt"), 1) == [FieldOf("SelectStmt", "limitOption"), Depth(2)];
    assert Bare()[1..] == [];
    assert FieldSites(Bare(), Some("SelectStmt"), 1) ==
        OneField(f, Some("SelectStmt"), 1) + FieldSites([], Some("SelectStmt"), 1);
  }

  /** Under a depth limit of two to four a bare SELECT passes, is clamped, and passes no more. */
  lemma ShallowPolicyRefusesItsOwnClamp(lists: Allowlists, maxDepth: int, maxRows: int, toNumber: Node -> Option<real>)
    requires KnowsParts(lists) && 2 <= maxDepth <= 4 && 1 <= maxRows
    ensures AcceptsThenRefuses(Bare(), lists, maxDepth, maxRows, toNumber)
  {
    BarePasses(lists, maxDepth);
    BareIsClamped(maxRows, toNumber);
    ClampKeepsAcceptance(Bare(), Whole(maxRows), lists, maxDepth);
  }

  lemma BarePasses(lists: Allowlists, maxDepth: int)
    requires KnowsParts(lists) && 2 <= maxDepth
    ensures AllPass(Sites(Root(Bare()), None, 0), lists, maxDepth)
  {
    DifferentKeys();
    BareSites();
  }

  lemma BareIsClamped(maxRows: int, toNumber: Node -> Option<real>)
    requires 1 <= maxRows
    ensures CapOf(Bare(), Whole(maxRows), toNumber) == Capped(Whole(maxRows), true)
  {
    DifferentKeys();
    assert Bare()[1..] == [];
    assert GetFrom(Bare(), "limitCount") == GetFrom([], "limitCount") == Undefined;
  }

  // ---- a limit that names a table ----

  /** A null constant beside a table, which reads as no limit at all. A parser that puts one property into each
      node, as that of Postgres does, never produces it. */
  function OddLimit(): Node {
    Obj([Field("A_Const", Obj([Field("isnull", Bool(true))])), Field("RangeVar", Obj([Field("relname", Str("t"))]))])
  }

  function Odd(): seq<Field> {
    [Field("limitCount", OddLimit())]
  }

  function OddSites(): seq<Site> {
    [FieldOf("SelectStmt", "limitCount"), Depth(2),
     Tag("A_Const", Obj([Field("isnull", Bool(true))])), Depth(3), FieldOf("A_Const", "isnull"), Depth(4),
     Tag("RangeVar", Obj([Field("relname", Str("t"))])), Depth(3), FieldOf("RangeVar", "relname"), Depth(4)]
  }

  /** A node with one leaf under a tag. */
  lemma LeafSites(tag: string, key: string, leaf: Node, outer: Option<string>, depth: int)
    requires IsTag(tag) && !IsTag(key) && (leaf.Bool? || leaf.Str?)
    ensures OneField(Field(tag, Obj([Field(key, leaf)])), outer, depth) ==
            [Tag(tag, Obj([Field(key, leaf)])), Depth(depth + 1), FieldOf(tag, key), Depth(depth + 2)]
  {
    OneFieldObject(Field(key, leaf), Some(tag), depth + 1);
  }

  lemma TwoFields(a: Field, r: Field, tag: Option<string>, depth: int)
    ensures Sites(Obj([a, r]), tag, depth) == [Depth(depth)] + (OneField(a, tag, depth) + OneField(r, tag, depth))
  {
    assert [a, r][1..] == [r] && [r][1..] == [];
    assert FieldSites([r], tag, depth) == OneField(r, tag, depth) + FieldSites([], tag, depth);
  }

  lemma OddLimitSites()
    ensures OneField(Field("limitCount", OddLimit()), Some("SelectStmt"), 1) == OddSites()
  {
    LeafSites("A_Const", "isnull", Bool(true), Some("SelectStmt"), 2);
    LeafSites("RangeVar", "relname", Str("t"), Some("SelectStmt"), 2);
    TwoFields(OddLimit().fields[0], OddLimit().fields[1], Some("SelectStmt"), 2);
    assert !IsTag("limitCount");
  }

  lemma OddTables()
    ensures Tables(OddSites()) != []
  {
    var range := OddSites()[6];
    assert range.key == "RangeVar";
    assert TablesAt(range) != [];
    var before, after := OddSites()[..6], OddSites()[7..];
    assert OddSites() == before + ([range] + after);
    TablesConcat(before, [range] + after);
    assert Tables([range] + after) == TablesAt(range) + Tables(after) by { assert ([range] + after)[1..] == after; }
  }

  /** The tree passes, its limit is overwritten, and the table in it is gone. */
  lemma ClampCanLoseATable(lists: Allowlists, maxDepth: int, maxRows: int, toNumber: Node -> Option<real>)
    requires KnowsParts(lists) && maxDepth >= 5 && 1 <= maxRows
    ensures LosesTables(Odd(), lists, maxDepth, maxRows, toNumber)
  {
    OddPasses(lists, maxDepth);
    OddIsClamped(maxRows, toNumber);
    OddOverwritten();
    OddTables();
    ClampKeepsAcceptance(Odd(), Whole(maxRows), lists, maxDepth);
  }

  lemma OddOverwritten()
    ensures OverwrittenCount(Odd()) == OddSites()
  {
    DifferentKeys();
    OddLimitSites();
    assert Odd()[1..] == [];
    assert SetIn(Odd(), "limitOption", Str("LIMIT_OPTION_COUNT"))[0] == Odd()[0];
  }

  lemma OddPasses(lists: Allowlists, maxDepth: int)
    requires KnowsParts(lists) && maxDepth >= 5
    ensures AllPass(Sites(Root(Odd()), None, 0), lists, maxDepth)
  {
    var head := [Depth(0), Tag("SelectStmt", Obj(Odd())), Depth(1)];
    SelectSites(Odd());
    OddLimitSites();
    assert Odd()[1..] == [];
    assert FieldSites(Odd(), Some("SelectStmt"), 1) == OddSites() + FieldSites([], Some("SelectStmt"), 1) == OddSites();
    OddSitesPass(head, lists, maxDepth);
    AllPassConcat(head, OddSites(), lists, maxDepth);
  }

  lemma OddSitesPass(head: seq<Site>, lists: Allowlists, maxDepth: int)
    requires KnowsParts(lists) && maxDepth >= 5 && head == [Depth(0), Tag("SelectStmt", Obj(Odd())), Depth(1)]
    ensures AllPass(head, lists, maxDepth) && AllPass(OddSites(), lists, maxDepth)
  {
    DifferentKeys();
  }

  lemma OddIsClamped(maxRows: int, toNumber: Node -> Option<real>)
    requires 1 <= maxRows
    ensures CapOf(Odd(), Whole(maxRows), toNumber) == Capped(Whole(maxRows), true)
  {
    DifferentKeys();
    assert Odd()[1..] == [];
    assert GetFrom(Odd(), "limitOption") == GetFrom([], "limitOption") == Undefined;
    assert GetFrom(Odd(), "limitCount") == OddLimit();
    assert Get(OddLimit(), "A_Const") == Obj([Field("isnull", Bool(true))]);
    assert Get(Get(OddLimit(), "A_Const"), "isnull") == Bool(true);
    assert ReadLimit(OddLimit(), toNumber) == NoLimit;
  }

  // ---- with the lists of the source ----

  lemma SourceListsKnowParts(lower: string -> string)
    ensures KnowsParts(SourceLists(lower))
  {
    SourceListsKnowLimits(lower);
    SourceListsKnowTags(lower);
    SourceListsKnowFields(lower);
  }

  /** Both happen with the lists the guard comes with. */
  lemma SourceListsShowBoth(lower: string -> string, shallow: int, deep: int, maxRows: int,
                            toNumber: Node -> Option<real>)
    requires 2 <= shallow <= 4 && deep >= 5 && 1 <= maxRows
    ensures AcceptsThenRefuses(Bare(), SourceLists(lower), shallow, maxRows, toNumber)
    ensures LosesTables(Odd(), SourceLists(lower), deep, maxRows, toNumber)
  {
    SourceListsKnowParts(lower);
    ShallowPolicyRefusesItsOwnClamp(SourceLists(lower), shallow, maxRows, toNumber);
    ClampCanLoseATable(SourceLists(lower), deep, maxRows, toNumber);
  }
}
