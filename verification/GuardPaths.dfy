/** What the guard reaches. */
module GuardPaths {
  import opened Schema
  import opened SqlTypes
  import opened SqlGuard

  // Acceptance by packages/sql-guard/src/guard.ts, told of the tree itself: a path is the indices of array items
  // and of properties one goes through, and every path that leads anywhere is looked at.

  type Path = seq<int>

  /** The node at the end of a path. */
  function At(n: Node, p: Path): Option<Node>
    decreases p
  {
    if p == [] then Some(n)
    else
      match n
      case Arr(items) => if 0 <= p[0] < |items| then At(items[p[0]], p[1..]) else None
      case Obj(fields) => if 0 <= p[0] < |fields| then At(fields[p[0]].value, p[1..]) else None
      case _ => None
  }

  predicate Capital(key: string) {
    key != "" && 'A' <= key[0] <= 'Z'
  }

  /** The property a path ends with, when its last step goes into one. */
  function LastField(n: Node, p: Path): Option<Field>
    decreases p
  {
    if p == [] then None
    else
      match n
      case Arr(items) => if 0 <= p[0] < |items| then LastField(items[p[0]], p[1..]) else None
      case Obj(fields) =>
        if !(0 <= p[0] < |fields|) then None
        else if |p| == 1 then Some(fields[p[0]]) else LastField(fields[p[0]].value, p[1..])
      case _ => None
  }

  /** The nearest capitalised key above the last step of a path, `tag` being that above the root. */
  function TagAbove(n: Node, tag: Option<string>, p: Path): Option<string>
    decreases p
  {
    if |p| <= 1 then tag
    else
      match n
      case Arr(items) => if 0 <= p[0] < |items| then TagAbove(items[p[0]], tag, p[1..]) else None
      case Obj(fields) =>
        if 0 <= p[0] < |fields|
        then TagAbove(fields[p[0]].value, if Capital(fields[p[0]].key) then Some(fields[p[0]].key) else tag, p[1..])
        else None
      case _ => None
  }

  // ---- every site is at a path, and every path has its sites ----

  function SiteOf(f: Field, tag: Option<string>): Option<Site> {
    if Capital(f.key) then Some(Tag(f.key, f.value))
    else match tag
         case Some(t) => Some(FieldOf(t, f.key))
         case None => None
  }

  ghost predicate SiteAt(n: Node, tag: Option<string>, depth: int, p: Path, s: Site) {
    && At(n, p).Some?
    && (s == Depth(depth + |p|)
        || (LastField(n, p).Some? && Some(s) == SiteOf(LastField(n, p).value, TagAbove(n, tag, p))))
  }

  lemma ItemStep(items: seq<Node>, tag: Option<string>, depth: int, k: nat, q: Path, s: Site)
    requires k < |items|
    ensures SiteAt(Arr(items), tag, depth, [k] + q, s) <==> SiteAt(items[k], tag, depth + 1, q, s)
  {
    assert ([k] + q)[1..] == q;
  }

  lemma FieldStep(fields: seq<Field>, tag: Option<string>, depth: int, k: nat, q: Path, s: Site)
    requires k < |fields|
    ensures var f := fields[k];
            SiteAt(Obj(fields), tag, depth, [k] + q, s) <==>
            SiteAt(f.value, if Capital(f.key) then Some(f.key) else tag, depth + 1, q, s)
            || (q == [] && Some(s) == SiteOf(f, tag))
  {
    assert ([k] + q)[1..] == q;
  }

  ghost predicate Reached(n: Node, tag: Option<string>, depth: int, s: Site) {
    exists p :: SiteAt(n, tag, depth, p, s)
  }

  ghost predicate ReachedBelow(n: Node, tag: Option<string>, depth: int, k: int, s: Site) {
    exists q: Path :: SiteAt(n, tag, depth, [k] + q, s)
  }

  /** A path is empty or begins with a step. */
  lemma FirstSteps(n: Node, tag: Option<string>, depth: int, s: Site)
    ensures Reached(n, tag, depth, s) <==> s == Depth(depth) || exists k :: ReachedBelow(n, tag, depth, k, s)
  {
    if p :| SiteAt(n, tag, depth, p, s) {
      if p != [] {
        assert p == [p[0]] + p[1..];
        assert ReachedBelow(n, tag, depth, p[0], s);
      }
    }
    if s == Depth(depth) { assert SiteAt(n, tag, depth, [], s); }
    if k, q: Path :| SiteAt(n, tag, depth, [k] + q, s) {
      assert Reached(n, tag, depth, s);
    }
  }

  lemma BelowItem(items: seq<Node>, tag: Option<string>, depth: int, k: nat, s: Site)
    requires k < |items|
    ensures ReachedBelow(Arr(items), tag, depth, k, s) <==> Reached(items[k], tag, depth + 1, s)
  {
    if q: Path :| SiteAt(Arr(items), tag, depth, [k] + q, s) { ItemStep(items, tag, depth, k, q, s); }
    var d := depth + 1;
    if q :| SiteAt(items[k], tag, d, q, s) { ItemStep(items, tag, depth, k, q, s); }
  }

  lemma BelowField(fields: seq<Field>, tag: Option<string>, depth: int, k: nat, s: Site)
    requires k < |fields|
    ensures var f := fields[k];
            ReachedBelow(Obj(fields), tag, depth, k, s) <==>
            Reached(f.value, if Capital(f.key) then Some(f.key) else tag, depth + 1, s) || Some(s) == SiteOf(f, tag)
  {
    var f := fields[k];
    var below := if Capital(f.key) then Some(f.key) else tag;
    if q: Path :| SiteAt(Obj(fields), tag, depth, [k] + q, s) { FieldStep(fields, tag, depth, k, q, s); }
    var d := depth + 1;
    if q :| SiteAt(f.value, below, d, q, s) { FieldStep(fields, tag, depth, k, q, s); }
    FieldStep(fields, tag, depth, k, [], s);
  }

  lemma NothingBeyond(n: Node, tag: Option<string>, depth: int, k: int, s: Site)
    requires match n
             case Arr(items) => !(0 <= k < |items|)
             case Obj(fields) => !(0 <= k < |fields|)
             case _ => true
    ensures !ReachedBelow(n, tag, depth, k, s)
  {
    forall q: Path ensures !SiteAt(n, tag, depth, [k] + q, s) { assert ([k] + q)[0] == k; }
  }

  /** The sites of a tree are those at its paths. */
  lemma {:induction false} SitesAreReached(n: Node, tag: Option<string>, depth: int, s: Site)
    ensures s in Sites(n, tag, depth) <==> Reached(n, tag, depth, s)
    decreases n, 1
  {
    FirstSteps(n, tag, depth, s);
    match n {
      case Arr(items) =>
        ItemsReached(items, tag, depth, 0, s);
        ArrayReached(items, tag, depth, s);
      case Obj(fields) =>
        FieldsReached(fields, tag, depth, 0, s);
        ObjectReached(fields, tag, depth, s);
      case _ =>
        forall k ensures !ReachedBelow(n, tag, depth, k, s) { NothingBeyond(n, tag, depth, k, s); }
    }
  }

  ghost predicate InItem(items: seq<Node>, tag: Option<string>, depth: int, k: int, s: Site) {
    0 <= k < |items| && Reached(items[k], tag, depth + 1, s)
  }

  ghost predicate InField(fields: seq<Field>, tag: Option<string>, depth: int, k: int, s: Site) {
    0 <= k < |fields| && var f := fields[k];
        Reached(f.value, if Capital(f.key) then Some(f.key) else tag, depth + 1, s) || Some(s) == SiteOf(f, tag)
  }

  lemma ArrayReached(items: seq<Node>, tag: Option<string>, depth: int, s: Site)
    ensures (exists k :: ReachedBelow(Arr(items), tag, depth, k, s)) <==> exists k :: InItem(items, tag, depth, k, s)
  {
    forall k ensures ReachedBelow(Arr(items), tag, depth, k, s) <==> InItem(items, tag, depth, k, s) {
      if 0 <= k < |items| { BelowItem(items, tag, depth, k, s); } else { NothingBeyond(Arr(items), tag, depth, k, s); }
    }
  }

  lemma ObjectReached(fields: seq<Field>, tag: Option<string>, depth: int, s: Site)
    ensures (exists k :: ReachedBelow(Obj(fields), tag, depth, k, s)) <==> exists k :: InField(fields, tag, depth, k, s)
  {
    forall k ensures ReachedBelow(Obj(fields), tag, depth, k, s) <==> InField(fields, tag, depth, k, s) {
      if 0 <= k < |fields| { BelowField(fields, tag, depth, k, s); }
      else { NothingBeyond(Obj(fields), tag, depth, k, s); }
    }
  }

  lemma {:induction false} ItemsReached(items: seq<Node>, tag: Option<string>, depth: int, k: nat, s: Site)
    requires k <= |items|
    ensures s in ItemSites(items[k..], tag, depth) <==> exists j :: k <= j && InItem(items, tag, depth, j, s)
    decreases items, 0, |items| - k
  {
    if k < |items| {
      SitesAreReached(items[k], tag, depth + 1, s);
      ItemsReached(items, tag, depth, k + 1, s);
      assert items[k..][1..] == items[k + 1..];
      assert InItem(items, tag, depth, k, s) <==> s in Sites(items[k], tag, depth + 1);
    }
  }

  lemma OneFieldSites(f: Field, tag: Option<string>, depth: int, s: Site)
    ensures s in OneField(f, tag, depth) <==>
            s in Sites(f.value, if Capital(f.key) then Some(f.key) else tag, depth + 1) || Some(s) == SiteOf(f, tag)
  {
  }

  lemma {:induction false} FieldsReached(fields: seq<Field>, tag: Option<string>, depth: int, k: nat, s: Site)
    requires k <= |fields|
    ensures s in FieldSites(fields[k..], tag, depth) <==> exists j :: k <= j && InField(fields, tag, depth, j, s)
    decreases fields, 0, |fields| - k
  {
    if k < |fields| {
      var f := fields[k];
      OneFieldSites(f, tag, depth, s);
      SitesAreReached(f.value, if Capital(f.key) then Some(f.key) else tag, depth + 1, s);
      FieldsReached(fields, tag, depth, k + 1, s);
      assert fields[k..][1..] == fields[k + 1..];
      assert InField(fields, tag, depth, k, s) <==> s in OneField(f, tag, depth);
    }
  }

  // ---- what inspection asks of a path ----

  /** What a part of a function name says. */
  function Part(n: Node): string {
    match Get(Get(n, "String"), "sval")
    case Str(s) => s
    case _ => "?"
  }

  /** A call of an allowed name, alone or behind an allowed schema. */
  predicate CallAllowed(body: Node, lists: Allowlists) {
    match Get(body, "funcname")
    case Arr(parts) =>
      || (|parts| == 1 && lists.lower(Part(parts[0])) in lists.functions)
      || (|parts| == 2 && Part(parts[0]) in lists.functionSchemas && lists.lower(Part(parts[1])) in lists.functions)
    case _ => false
  }

  predicate FieldAllowed(f: Field, tag: Option<string>, lists: Allowlists) {
    if Capital(f.key) then f.key in lists.tags && (f.key == "FuncCall" ==> CallAllowed(f.value, lists))
    else tag.Some? ==> tag.value in lists.fields && f.key in lists.fields[tag.value]
  }

  ghost predicate PathAllowed(root: Node, p: Path, lists: Allowlists, maxDepth: int) {
    At(root, p).Some? ==>
      && |p| <= maxDepth
      && (LastField(root, p).Some? ==> FieldAllowed(LastField(root, p).value, TagAbove(root, None, p), lists))
  }

  ghost predicate EveryPathAllowed(root: Node, lists: Allowlists, maxDepth: int) {
    forall p :: PathAllowed(root, p, lists, maxDepth)
  }

  lemma FieldFault(f: Field, tag: Option<string>, lists: Allowlists, maxDepth: int)
    ensures FieldAllowed(f, tag, lists) <==>
            (SiteOf(f, tag).Some? ==> Fault(SiteOf(f, tag).value, lists, maxDepth).None?)
  {
    if f.key == "FuncCall" { CallFault(f.value, lists); }
  }

  lemma CallFault(body: Node, lists: Allowlists)
    ensures FunctionAllowed(body, lists) <==> CallAllowed(body, lists)
  {
  }

  lemma PathFault(root: Node, p: Path, lists: Allowlists, maxDepth: int)
    ensures PathAllowed(root, p, lists, maxDepth) <==>
            forall s | SiteAt(root, None, 0, p, s) :: Fault(s, lists, maxDepth).None?
  {
    if At(root, p).Some? {
      assert SiteAt(root, None, 0, p, Depth(0 + |p|));
      if LastField(root, p).Some? {
        var f, tag := LastField(root, p).value, TagAbove(root, None, p);
        FieldFault(f, tag, lists, maxDepth);
        if SiteOf(f, tag).Some? { assert SiteAt(root, None, 0, p, SiteOf(f, tag).value); }
      }
    }
  }

  /** The checks of a tree pass exactly when every path is allowed. */
  lemma PassMeansAllowed(root: Node, lists: Allowlists, maxDepth: int)
    ensures AllPass(Sites(root, None, 0), lists, maxDepth) <==> EveryPathAllowed(root, lists, maxDepth)
  {
    var sites := Sites(root, None, 0);
    if AllPass(sites, lists, maxDepth) {
      forall p ensures PathAllowed(root, p, lists, maxDepth) {
        forall s | SiteAt(root, None, 0, p, s) ensures Fault(s, lists, maxDepth).None? {
          SitesAreReached(root, None, 0, s);
        }
        PathFault(root, p, lists, maxDepth);
      }
    }
    if EveryPathAllowed(root, lists, maxDepth) {
      forall i | 0 <= i < |sites| ensures Fault(sites[i], lists, maxDepth).None? {
        SitesAreReached(root, None, 0, sites[i]);
        var p :| SiteAt(root, None, 0, p, sites[i]);
        assert PathAllowed(root, p, lists, maxDepth);
        PathFault(root, p, lists, maxDepth);
      }
    }
  }

  // ---- tables and names ----

  ghost predicate RangeVarAt(root: Node, p: Path) {
    LastField(root, p).Some? && LastField(root, p).value.key == "RangeVar"
  }

  function RefOf(body: Node): TableRef {
    TableRef(match Get(body, "schemaname") case Str(s) => Some(s) case _ => None,
             match Get(body, "relname") case Str(s) => s case _ => "")
  }

  function RefAt(root: Node, p: Path): TableRef {
    match LastField(root, p)
    case Some(f) => RefOf(f.value)
    case None => TableRef(None, "")
  }

  ghost predicate CteAt(root: Node, p: Path, name: string) {
    && LastField(root, p).Some? && LastField(root, p).value.key == "CommonTableExpr"
    && Get(LastField(root, p).value.value, "ctename") == Str(name)
  }

  /** Two paths that part at some step go left and right there; a path comes before what is below it. */
  predicate ComesBefore(p: Path, q: Path) {
    if p == [] then q != []
    else q != [] && (p[0] < q[0] || (p[0] == q[0] && ComesBefore(p[1..], q[1..])))
  }

  ghost predicate InOrder(ps: seq<Path>) {
    forall i, j | 0 <= i < j < |ps| :: ComesBefore(ps[i], ps[j])
  }

  /** The paths of the table references of a tree, in the order of the walk. */
  function TablePaths(n: Node): seq<Path>
    decreases n, 1
  {
    match n
    case Arr(items) => ItemPaths(items, 0)
    case Obj(fields) => FieldPaths(fields, 0)
    case _ => []
  }

  function ItemPaths(items: seq<Node>, k: nat): seq<Path>
    requires k <= |items|
    decreases items, 0, |items| - k
  {
    if k == |items| then [] else Under(k, TablePaths(items[k])) + ItemPaths(items, k + 1)
  }

  function FieldPaths(fields: seq<Field>, k: nat): seq<Path>
    requires k <= |fields|
    decreases fields, 0, |fields| - k
  {
    if k == |fields| then [] else OwnPaths(fields[k], k) + FieldPaths(fields, k + 1)
  }

  function OwnPaths(f: Field, k: nat): seq<Path>
    decreases f
  {
    (if f.key == "RangeVar" then [[k as int]] else []) + Under(k, TablePaths(f.value))
  }

  function Under(k: int, ps: seq<Path>): (qs: seq<Path>)
    ensures |qs| == |ps| && forall i | 0 <= i < |ps| :: qs[i] == [k] + ps[i]
  {
    seq(|ps|, i requires 0 <= i < |ps| => [k] + ps[i])
  }

  function Refs(root: Node, ps: seq<Path>): (ts: seq<TableRef>)
    ensures |ts| == |ps| && forall i | 0 <= i < |ps| :: ts[i] == RefAt(root, ps[i])
  {
    seq(|ps|, i requires 0 <= i < |ps| => RefAt(root, ps[i]))
  }

  lemma InUnder(k: int, ps: seq<Path>, p: Path)
    ensures p in Under(k, ps) <==> p != [] && p[0] == k && p[1..] in ps
  {
    if p in Under(k, ps) {
      var i :| 0 <= i < |ps| && Under(k, ps)[i] == p;
      assert ([k] + ps[i])[1..] == ps[i];
    }
    if p != [] && p[0] == k && p[1..] in ps {
      var i :| 0 <= i < |ps| && ps[i] == p[1..];
      assert p == [k] + p[1..] == Under(k, ps)[i];
    }
  }

  /** Exactly the paths that end in a RangeVar. */
  lemma {:induction false} PathsAreRangeVars(n: Node, p: Path)
    ensures p in TablePaths(n) <==> RangeVarAt(n, p)
    decreases n, 1
  {
    match n
    case Arr(items) => ItemPathsAre(items, 0, p);
    case Obj(fields) => FieldPathsAre(fields, 0, p);
    case _ =>
  }

  lemma {:induction false} ItemPathsAre(items: seq<Node>, k: nat, p: Path)
    requires k <= |items|
    ensures p in ItemPaths(items, k) <==> p != [] && k <= p[0] && RangeVarAt(Arr(items), p)
    decreases items, 0, |items| - k
  {
    if k < |items| {
      ItemPathsAre(items, k + 1, p);
      InUnder(k, TablePaths(items[k]), p);
      if p != [] && p[0] == k { PathsAreRangeVars(items[k], p[1..]); }
    }
  }

  lemma {:induction false} FieldPathsAre(fields: seq<Field>, k: nat, p: Path)
    requires k <= |fields|
    ensures p in FieldPaths(fields, k) <==> p != [] && k <= p[0] && RangeVarAt(Obj(fields), p)
    decreases fields, 0, |fields| - k
  {
    if k < |fields| {
      FieldPathsAre(fields, k + 1, p);
      InUnder(k, TablePaths(fields[k].value), p);
      if p != [] && p[0] == k {
        PathsAreRangeVars(fields[k].value, p[1..]);
        OwnOrBelow(fields[k], k, p);
        FieldPathAt(fields, k, p);
      } else {
        NotOwn(fields[k], k, p);
      }
    }
  }

  lemma FieldPathAt(fields: seq<Field>, k: nat, p: Path)
    requires k < |fields| && p != [] && p[0] == k
    ensures RangeVarAt(Obj(fields), p) <==>
            if |p| == 1 then fields[k].key == "RangeVar" else RangeVarAt(fields[k].value, p[1..])
  {
  }

  lemma NotOwn(f: Field, k: nat, p: Path)
    requires (p == [] || p[0] != k) && p !in Under(k, TablePaths(f.value))
    ensures p !in OwnPaths(f, k)
  {
  }

  lemma OwnOrBelow(f: Field, k: nat, p: Path)
    requires p != [] && p[0] == k
    requires p in Under(k, TablePaths(f.value)) <==> p[1..] in TablePaths(f.value)
    requires p[1..] in TablePaths(f.value) <==> RangeVarAt(f.value, p[1..])
    ensures p in OwnPaths(f, k) <==> if |p| == 1 then f.key == "RangeVar" else RangeVarAt(f.value, p[1..])
  {
    assert |p| == 1 ==> p == [k as int] && p[1..] == [];
  }

  /** In order, and all beginning at or after step k. */
  ghost predicate OrderedFrom(ps: seq<Path>, k: int) {
    InOrder(ps) && forall i | 0 <= i < |ps| :: ps[i] != [] && ps[i][0] >= k
  }

  ghost predicate OrderedAt(ps: seq<Path>, k: int) {
    InOrder(ps) && forall i | 0 <= i < |ps| :: ps[i] != [] && ps[i][0] == k
  }

  lemma OrderedTogether(a: seq<Path>, b: seq<Path>, k: int)
    requires OrderedAt(a, k) && OrderedFrom(b, k + 1)
    ensures OrderedFrom(a + b, k)
  {
    var ps := a + b;
    forall i, j | 0 <= i < j < |ps| ensures ComesBefore(ps[i], ps[j]) {
      if j < |a| { assert ComesBefore(a[i], a[j]); }
      else if i >= |a| { assert ComesBefore(b[i - |a|], b[j - |a|]); }
    }
  }

  lemma OrderedUnder(k: int, ps: seq<Path>)
    requires InOrder(ps)
    ensures OrderedAt(Under(k, ps), k)
  {
    var qs := Under(k, ps);
    forall i, j | 0 <= i < j < |qs| ensures ComesBefore(qs[i], qs[j]) {
      assert qs[i][1..] == ps[i] && qs[j][1..] == ps[j] && ComesBefore(ps[i], ps[j]);
    }
  }

  lemma OrderedOwn(f: Field, k: nat)
    requires OrderedFrom(TablePaths(f.value), 0)
    ensures OrderedAt(OwnPaths(f, k), k)
  {
    var below := Under(k, TablePaths(f.value));
    OrderedUnder(k, TablePaths(f.value));
    var own := [[k as int]] + below;
    forall i, j | 0 <= i < j < |own| ensures ComesBefore(own[i], own[j]) {
      if i == 0 {
        assert own[j][1..] == TablePaths(f.value)[j - 1] != [];
        assert own[0][1..] == [];
      } else {
        assert ComesBefore(below[i - 1], below[j - 1]);
      }
    }
    assert [] + below == below;
  }

  lemma {:induction false} PathsInOrder(n: Node)
    ensures OrderedFrom(TablePaths(n), 0)
    decreases n, 1
  {
    match n
    case Arr(items) => ItemPathsInOrder(items, 0);
    case Obj(fields) => FieldPathsInOrder(fields, 0);
    case _ =>
  }

  lemma {:induction false} ItemPathsInOrder(items: seq<Node>, k: nat)
    requires k <= |items|
    ensures OrderedFrom(ItemPaths(items, k), k)
    decreases items, 0, |items| - k
  {
    if k < |items| {
      PathsInOrder(items[k]);
      OrderedUnder(k, TablePaths(items[k]));
      ItemPathsInOrder(items, k + 1);
      OrderedTogether(Under(k, TablePaths(items[k])), ItemPaths(items, k + 1), k);
    }
  }

  lemma {:induction false} FieldPathsInOrder(fields: seq<Field>, k: nat)
    requires k <= |fields|
    ensures OrderedFrom(FieldPaths(fields, k), k)
    decreases fields, 0, |fields| - k
  {
    if k < |fields| {
      PathsInOrder(fields[k].value);
      OrderedOwn(fields[k], k);
      FieldPathsInOrder(fields, k + 1);
      OrderedTogether(OwnPaths(fields[k], k), FieldPaths(fields, k + 1), k);
    }
  }

  lemma RefsTogether(root: Node, a: seq<Path>, b: seq<Path>)
    ensures Refs(root, a + b) == Refs(root, a) + Refs(root, b)
  {
  }

  lemma ItemRefs(items: seq<Node>, k: nat, ps: seq<Path>)
    requires k < |items|
    ensures Refs(Arr(items), Under(k, ps)) == Refs(items[k], ps)
  {
    forall i | 0 <= i < |ps| ensures RefAt(Arr(items), [k] + ps[i]) == RefAt(items[k], ps[i]) {
      assert ([k] + ps[i])[1..] == ps[i];
    }
  }

  lemma FieldRefs(fields: seq<Field>, k: nat, ps: seq<Path>)
    requires k < |fields| && OrderedFrom(ps, 0)
    ensures Refs(Obj(fields), Under(k, ps)) == Refs(fields[k].value, ps)
    ensures RefAt(Obj(fields), [k as int]) == RefOf(fields[k].value)
  {
    forall i | 0 <= i < |ps| ensures RefAt(Obj(fields), [k] + ps[i]) == RefAt(fields[k].value, ps[i]) {
      assert ([k] + ps[i])[1..] == ps[i];
    }
  }

  /** The tables the sites of a tree name are the references at those paths. */
  lemma {:induction false} TablesAreRefs(n: Node, tag: Option<string>, depth: int)
    ensures Tables(Sites(n, tag, depth)) == Refs(n, TablePaths(n))
    decreases n, 1
  {
    var below := match n
                 case Arr(items) => ItemSites(items, tag, depth)
                 case Obj(fields) => FieldSites(fields, tag, depth)
                 case _ => [];
    TablesConcat([Depth(depth)], below);
    NoRangeVars([Depth(depth)]);
    assert Sites(n, tag, depth) == [Depth(depth)] + below;
    match n
    case Arr(items) =>
      ItemTables(items, tag, depth, 0);
      assert items[0..] == items;
    case Obj(fields) =>
      FieldTables(fields, tag, depth, 0);
      assert fields[0..] == fields;
    case _ =>
  }

  lemma {:induction false} ItemTables(items: seq<Node>, tag: Option<string>, depth: int, k: nat)
    requires k <= |items|
    ensures Tables(ItemSites(items[k..], tag, depth)) == Refs(Arr(items), ItemPaths(items, k))
    decreases items, 0, |items| - k
  {
    if k < |items| {
      assert items[k..][1..] == items[k + 1..];
      TablesAreRefs(items[k], tag, depth + 1);
      ItemTables(items, tag, depth, k + 1);
      TablesConcat(Sites(items[k], tag, depth + 1), ItemSites(items[k + 1..], tag, depth));
      ItemRefs(items, k, TablePaths(items[k]));
      RefsTogether(Arr(items), Under(k, TablePaths(items[k])), ItemPaths(items, k + 1));
    }
  }

  lemma {:induction false} FieldTables(fields: seq<Field>, tag: Option<string>, depth: int, k: nat)
    requires k <= |fields|
    ensures Tables(FieldSites(fields[k..], tag, depth)) == Refs(Obj(fields), FieldPaths(fields, k))
    decreases fields, 0, |fields| - k
  {
    if k < |fields| {
      var f := fields[k];
      assert fields[k..][1..] == fields[k + 1..];
      TablesAreRefs(f.value, if Capital(f.key) then Some(f.key) else tag, depth + 1);
      FieldTables(fields, tag, depth, k + 1);
      TablesConcat(OneField(f, tag, depth), FieldSites(fields[k + 1..], tag, depth));
      OwnTables(fields, tag, depth, k);
      RefsTogether(Obj(fields), OwnPaths(f, k), FieldPaths(fields, k + 1));
    }
  }

  lemma OwnTables(fields: seq<Field>, tag: Option<string>, depth: int, k: nat)
    requires k < |fields|
    requires var f := fields[k];
             Tables(Sites(f.value, if Capital(f.key) then Some(f.key) else tag, depth + 1)) ==
             Refs(f.value, TablePaths(f.value))
    ensures Tables(OneField(fields[k], tag, depth)) == Refs(Obj(fields), OwnPaths(fields[k], k))
  {
    var f := fields[k];
    var own := match SiteOf(f, tag) case Some(s) => [s] case None => [];
    var below := Sites(f.value, if Capital(f.key) then Some(f.key) else tag, depth + 1);
    TablesConcat(own, below);
    OwnSite(f, tag);
    PathsInOrder(f.value);
    FieldRefs(fields, k, TablePaths(f.value));
    RefsTogether(Obj(fields), if f.key == "RangeVar" then [[k as int]] else [], Under(k, TablePaths(f.value)));
  }

  lemma OwnSite(f: Field, tag: Option<string>)
    ensures var own := match SiteOf(f, tag) case Some(s) => [s] case None => [];
            Tables(own) == if f.key == "RangeVar" then [RefOf(f.value)] else []
  {
    assert "RangeVar"[0] == 'R';
    var own := match SiteOf(f, tag) case Some(s) => [s] case None => [];
    if own != [] {
      assert own[1..] == [] && Tables(own) == TablesAt(own[0]) + Tables([]);
      assert Capital(f.key) ==> TablesAt(own[0]) == if f.key == "RangeVar" then [RefOf(f.value)] else [];
    }
  }

  lemma {:induction false} InUnited(at: Site -> set<string>, sites: seq<Site>, name: string)
    ensures name in United(at, sites) <==> exists s :: s in sites && name in at(s)
  {
    if sites != [] {
      InUnited(at, sites[1..], name);
      assert forall s :: s in sites <==> s == sites[0] || s in sites[1..];
    }
  }

  /** The names the sites of a tree bring in are those of the common table expressions at its paths. */
  lemma NamesAreCtes(root: Node, name: string)
    ensures name in CteNames(Sites(root, None, 0)) <==> exists p :: CteAt(root, p, name)
  {
    InUnited(CteNamesAt, Sites(root, None, 0), name);
    if s :| s in Sites(root, None, 0) && name in CteNamesAt(s) { SiteNamesCte(root, name, s); }
    if p :| CteAt(root, p, name) { CteHasSite(root, name, p); }
  }

  lemma SiteNamesCte(root: Node, name: string, s: Site)
    requires s in Sites(root, None, 0) && name in CteNamesAt(s)
    ensures exists p :: CteAt(root, p, name)
  {
    SitesAreReached(root, None, 0, s);
    var p :| SiteAt(root, None, 0, p, s);
    assert CteAt(root, p, name);
  }

  lemma CteHasSite(root: Node, name: string, p: Path)
    requires CteAt(root, p, name)
    ensures exists s :: s in Sites(root, None, 0) && name in CteNamesAt(s)
  {
    var s := Tag("CommonTableExpr", LastField(root, p).value.value);
    assert "CommonTableExpr"[0] == 'C';
    FieldsHaveNodes(root, p);
    assert SiteAt(root, None, 0, p, s);
    SitesAreReached(root, None, 0, s);
    assert name in CteNamesAt(s);
  }

  lemma {:induction false} FieldsHaveNodes(n: Node, p: Path)
    ensures LastField(n, p).Some? ==> At(n, p).Some?
    decreases p
  {
    if p != [] {
      match n
      case Arr(items) => if 0 <= p[0] < |items| { FieldsHaveNodes(items[p[0]], p[1..]); }
      case Obj(fields) => if 0 <= p[0] < |fields| { FieldsHaveNodes(fields[p[0]].value, p[1..]); }
      case _ =>
    }
  }

  // ---- what passing means ----

  /** The policy lets the reference be: an unqualified name that a common table expression has taken, or a
      table in an allowed schema, allowed by its name with the schema or without. */
  ghost predicate RefAllowed(root: Node, t: TableRef, policy: Policy) {
    || (t.schema == None && exists p :: CteAt(root, p, t.name))
    || (var schema := match t.schema case Some(s) => s case None => "public";
        && (match policy.allowedSchemas case Some(allowed) => schema in allowed case None => true)
        && (match policy.allowedTables
            case Some(allowed) => schema + "." + t.name in allowed || t.name in allowed
            case None => true))
  }

  ghost predicate EveryTableAllowed(root: Node, policy: Policy) {
    forall p | RangeVarAt(root, p) :: RefAllowed(root, RefAt(root, p), policy)
  }

  /** The tables are the references of the tree, each at its place in the order of the walk. */
  ghost predicate ListsTables(root: Node, tables: seq<TableRef>) {
    exists ps :: InOrder(ps) && (forall p :: p in ps <==> RangeVarAt(root, p)) && tables == Refs(root, ps)
  }

  lemma TablesListed(root: Node)
    ensures ListsTables(root, Tables(Sites(root, None, 0)))
  {
    var ps := TablePaths(root);
    TablesAreRefs(root, None, 0);
    PathsInOrder(root);
    forall p ensures p in ps <==> RangeVarAt(root, p) { PathsAreRangeVars(root, p); }
  }

  lemma RefPasses(root: Node, t: TableRef, policy: Policy)
    ensures TablePasses(t, CteNames(Sites(root, None, 0)), policy) <==> RefAllowed(root, t, policy)
  {
    NamesAreCtes(root, t.name);
  }

  lemma PolicyMeansAllowed(root: Node, policy: Policy)
    ensures PolicyPasses(Tables(Sites(root, None, 0)), CteNames(Sites(root, None, 0)), policy) <==>
            EveryTableAllowed(root, policy)
  {
    var tables, names := Tables(Sites(root, None, 0)), CteNames(Sites(root, None, 0));
    TablesListed(root);
    var ps :| InOrder(ps) && (forall p :: p in ps <==> RangeVarAt(root, p)) && tables == Refs(root, ps);
    forall t ensures TablePasses(t, names, policy) <==> RefAllowed(root, t, policy) { RefPasses(root, t, policy); }
    if PolicyPasses(tables, names, policy) {
      forall p | RangeVarAt(root, p) ensures RefAllowed(root, RefAt(root, p), policy) {
        var i :| 0 <= i < |ps| && ps[i] == p;
        assert tables[i] == RefAt(root, p) && TablePasses(tables[i], names, policy);
      }
    }
    if EveryTableAllowed(root, policy) {
      forall i | 0 <= i < |tables| ensures TablePasses(tables[i], names, policy) {
        assert ps[i] in ps && RangeVarAt(root, ps[i]);
      }
    }
  }

  /** The nesting a policy allows. */
  function Deepest(policy: Policy): int {
    match policy.maxDepth
    case Some(n) => n
    case None => 100
  }

  /** One statement, an object with SelectStmt for its only property, every path of it allowed, every table too. */
  ghost predicate OneAllowedSelect(p: Parsed, policy: Policy, lists: Allowlists) {
    && |p.stmts| == 1
    && var root := p.stmts[0].stmt;
       && root.Obj? && |root.fields| == 1 && root.fields[0].key == "SelectStmt"
       && EveryPathAllowed(root, lists, Deepest(policy)) && EveryTableAllowed(root, policy)
  }

  /** Inspection passes exactly such trees, and reports the tables. */
  lemma InspectionReaches(p: Parsed, policy: Policy, lists: Allowlists)
    ensures InspectTree(p, policy, lists).Fine? <==> OneAllowedSelect(p, policy, lists)
    ensures InspectTree(p, policy, lists).Fine? ==>
              && InspectTree(p, policy, lists).tree == p
              && ListsTables(p.stmts[0].stmt, InspectTree(p, policy, lists).tables)
  {
    InspectionMeans(p, policy, lists);
    if |p.stmts| == 1 {
      var root := p.stmts[0].stmt;
      PassMeansAllowed(root, lists, DepthLimit(policy));
      PolicyMeansAllowed(root, policy);
      TablesListed(root);
    }
  }

  // ---- and what each refusal means ----

  /** Some path of the tree gives the reason. */
  ghost predicate Caused(root: Node, policy: Policy, lists: Allowlists, code: DenyCode) {
    match code
    case EDepthExceeded => exists p :: At(root, p).Some? && |p| > Deepest(policy)
    case ENodeNotAllowed => exists p :: CapitalAt(root, p) && LastField(root, p).value.key !in lists.tags
    case EFunctionNotAllowed =>
      exists p :: && CapitalAt(root, p) && LastField(root, p).value.key == "FuncCall"
                  && !CallAllowed(LastField(root, p).value.value, lists)
    case EFieldNotAllowed =>
      exists p :: && LastField(root, p).Some? && !CapitalAt(root, p)
                  && !FieldAllowed(LastField(root, p).value, TagAbove(root, None, p), lists)
    case ESchemaNotAllowed =>
      exists p :: Forbidden(root, p, policy) && !SchemaAllowed(RefAt(root, p), policy)
    case ETableNotAllowed =>
      exists p :: Forbidden(root, p, policy) && SchemaAllowed(RefAt(root, p), policy)
    case _ => false
  }

  ghost predicate CapitalAt(root: Node, p: Path) {
    LastField(root, p).Some? && Capital(LastField(root, p).value.key)
  }

  ghost predicate Forbidden(root: Node, p: Path, policy: Policy) {
    RangeVarAt(root, p) && !RefAllowed(root, RefAt(root, p), policy)
  }

  predicate SchemaAllowed(t: TableRef, policy: Policy) {
    match policy.allowedSchemas
    case Some(allowed) => (match t.schema case Some(s) => s case None => "public") in allowed
    case None => true
  }

  lemma {:induction false} FaultAmong(sites: seq<Site>, lists: Allowlists, maxDepth: int) returns (s: Site)
    requires FirstFault(sites, lists, maxDepth).Some?
    ensures s in sites && Fault(s, lists, maxDepth) == FirstFault(sites, lists, maxDepth)
  {
    if Fault(sites[0], lists, maxDepth).Some? { s := sites[0]; } else { s := FaultAmong(sites[1..], lists, maxDepth); }
  }

  lemma SiteFaultCaused(root: Node, policy: Policy, lists: Allowlists, s: Site)
    requires s in Sites(root, None, 0) && Fault(s, lists, DepthLimit(policy)).Some?
    ensures Caused(root, policy, lists, Fault(s, lists, DepthLimit(policy)).value)
  {
    SitesAreReached(root, None, 0, s);
    var p :| SiteAt(root, None, 0, p, s);
    if s.Tag? {
      assert CapitalAt(root, p);
      if s.key == "FuncCall" { CallFault(s.body, lists); }
    }
  }

  lemma {:induction false} PolicyFaultAmong(tables: seq<TableRef>, names: set<string>, policy: Policy)
      returns (t: TableRef)
    requires PolicyFault(tables, names, policy).Some?
    ensures t in tables && !TablePasses(t, names, policy)
    ensures PolicyFault(tables, names, policy).value ==
            if SchemaAllowed(t, policy) then ETableNotAllowed else ESchemaNotAllowed
  {
    if !TablePasses(tables[0], names, policy) {
      t := tables[0];
    } else {
      t := PolicyFaultAmong(tables[1..], names, policy);
    }
  }

  lemma TableFaultCaused(root: Node, policy: Policy, lists: Allowlists, t: TableRef)
    requires t in Tables(Sites(root, None, 0)) && !TablePasses(t, CteNames(Sites(root, None, 0)), policy)
    ensures Caused(root, policy, lists, if SchemaAllowed(t, policy) then ETableNotAllowed else ESchemaNotAllowed)
  {
    RefPasses(root, t, policy);
    TablesListed(root);
    var tables := Tables(Sites(root, None, 0));
    var ps :| InOrder(ps) && (forall p :: p in ps <==> RangeVarAt(root, p)) && tables == Refs(root, ps);
    var i :| 0 <= i < |ps| && Refs(root, ps)[i] == t;
    assert ps[i] in ps && Forbidden(root, ps[i], policy) && RefAt(root, ps[i]) == t;
  }

  /** A refusal by inspection has its reason in what was parsed. */
  lemma RefusalHasCause(p: Parsed, policy: Policy, lists: Allowlists)
    requires InspectTree(p, policy, lists).Refused?
    ensures match InspectTree(p, policy, lists).code
            case EEmpty => |p.stmts| == 0
            case EMultiStatement => |p.stmts| > 1
            case EParse => |p.stmts| == 1 && !p.stmts[0].stmt.Obj? && !p.stmts[0].stmt.Arr?
            case ENotSelect =>
              && |p.stmts| == 1
              && var root := p.stmts[0].stmt; !(root.Obj? && |root.fields| == 1 && root.fields[0].key == "SelectStmt")
            case code => |p.stmts| == 1 && Caused(p.stmts[0].stmt, policy, lists, code)
  {
    if |p.stmts| == 1 && IsSelect(p.stmts[0].stmt) {
      var root := p.stmts[0].stmt;
      var sites := Sites(root, None, 0);
      if FirstFault(sites, lists, DepthLimit(policy)).Some? {
        var s := FaultAmong(sites, lists, DepthLimit(policy));
        SiteFaultCaused(root, policy, lists, s);
      } else {
        var t := PolicyFaultAmong(Tables(sites), CteNames(sites), policy);
        TableFaultCaused(root, policy, lists, t);
      }
    }
  }

  // ---- the limit ----

  /** A literal: a whole number in `ival`, where zero may be left out, or one in `fval` that converts. */
  predicate Literal(n: Node, v: real, toNumber: Node -> Option<real>) {
    var c := Get(n, "A_Const");
    && c != Undefined && c != Null && Get(c, "isnull") != Bool(true)
    && var whole := Get(c, "ival");
       if whole.Obj? || whole.Arr?
       then Get(whole, "ival") == Num(v) || (v == 0.0 && Get(whole, "ival") in {Undefined, Null})
       else
         var other := Get(Get(c, "fval"), "fval");
         whole != Null && other != Undefined && toNumber(other) == Some(v)
  }

  predicate Unlimited(n: Node) {
    n == Undefined || n == Null || (Get(n, "A_Const") != Null && Get(Get(n, "A_Const"), "isnull") == Bool(true))
  }

  lemma LimitsRead(n: Node, v: real, toNumber: Node -> Option<real>)
    ensures ReadLimit(n, toNumber) == Static(v) <==> Literal(n, v, toNumber)
    ensures ReadLimit(n, toNumber) == NoLimit <==> Unlimited(n)
  {
  }

  /** What becomes of the limit a SELECT has: a literal within the cap is left alone, a greater one and none at all
      become the cap, and anything else is refused, as are ties and a cap that is not a whole number of rows. */
  lemma CapDecides(select: seq<Field>, maxRows: real, toNumber: Node -> Option<real>, v: real)
    ensures var limit := GetFrom(select, "limitCount");
            var o := CapOf(select, maxRows, toNumber);
            var fit := maxRows.Floor as real == maxRows && maxRows >= 1.0
                       && GetFrom(select, "limitOption") != Str("LIMIT_OPTION_WITH_TIES");
            && (fit && Literal(limit, v, toNumber) ==>
                  o == if v <= maxRows then Capped(v, false) else Capped(maxRows, true))
            && (fit && Unlimited(limit) ==> o == Capped(maxRows, true))
            && (o.Capped? ==> fit && (Unlimited(limit) || exists w :: Literal(limit, w, toNumber)))
  {
    var limit := GetFrom(select, "limitCount");
    LimitsRead(limit, v, toNumber);
    match ReadLimit(limit, toNumber)
    case Static(w) => LimitsRead(limit, w, toNumber);
    case _ =>
  }

  /** The limit of the SELECT, when the statement is one. */
  function LimitOf(p: Parsed): Node {
    if p.stmts == [] then Undefined else Get(Get(p.stmts[0].stmt, "SelectStmt"), "limitCount")
  }

  /** So whatever the parser and the deparser do, the SQL of an ok verdict parses to such a tree. */
  lemma AllowedReaches(sql: string, policy: Policy, lists: Allowlists, f: Foreign)
    requires GuardSql(sql, policy, lists, f).Allowed?
    ensures var v := GuardSql(sql, policy, lists, f);
            && f.parse(v.sql).Ok? && OneAllowedSelect(f.parse(v.sql).value, policy, lists)
            && ListsTables(f.parse(v.sql).value.stmts[0].stmt, v.tables)
            && (policy.maxRows.Some? ==>
                  exists n | n <= policy.maxRows.value :: Literal(LimitOf(f.parse(v.sql).value), n, f.toNumber))
  {
    var v := GuardSql(sql, policy, lists, f);
    InspectionReaches(f.parse(v.sql).value, policy, lists);
    AllowedMeans(sql, policy, lists, f);
    if policy.maxRows.Some? {
      var present := ReadLimit(LimitOf(f.parse(v.sql).value), f.toNumber);
      LimitsRead(LimitOf(f.parse(v.sql).value), present.value, f.toNumber);
    }
  }
}
