/** The product taxonomy: which source lists form a tree, and what its rows say. */
module Categories {
  import opened Common
  import opened Text
  import opened CategoryPaths

  /** A line of the source file; an empty parent counts as none. */
  datatype Category = Category(code: string, name: string, parent: Option<string>)

  datatype Row =
    Row(code: string, name: string, parentCode: Option<string>, level: nat, path: string, position: nat)

  datatype CategoryError = BadCode | Duplicate | BadName | Cycle | UnknownParent | TooDeep

  const MAX_CODE := 64
  const MAX_NAME := 120
  const MAX_LEVEL := 10

  predicate CodeFits(code: string) {
    IsSlug(code) && Utf16Length(code) <= MAX_CODE
  }

  predicate NameFits(name: string) {
    Trim(name) != "" && Trim(name) == name && Utf16Length(name) <= MAX_NAME && '>' !in name
  }

  function ParentOf(c: Category): Option<string> {
    if c.parent == Some("") then None else c.parent
  }

  /** The categories by code. */
  function Index(source: seq<Category>): map<string, Category> {
    if source == [] then map[]
    else
      var last := source[|source| - 1];
      Index(source[..|source| - 1])[last.code := last]
  }

  predicate DistinctCodes(source: seq<Category>) {
    forall i, j | 0 <= i < j < |source| :: source[i].code != source[j].code
  }

  lemma {:induction false} IndexHolds(source: seq<Category>)
    ensures forall c | c in source :: c.code in Index(source)
    ensures forall k | k in Index(source) :: Index(source)[k] in source && Index(source)[k].code == k
    ensures DistinctCodes(source) ==> forall c | c in source :: Index(source)[c.code] == c
  {
    if source != [] {
      var n := |source| - 1;
      IndexHolds(source[..n]);
      assert source == source[..n] + [source[n]];
      if DistinctCodes(source) {
        forall c | c in source
          ensures Index(source)[c.code] == c
        {
          var i :| 0 <= i <= n && source[i] == c;
          if i < n {
            assert source[..n][i] == c && c in source[..n];
            assert source[i].code != source[n].code;
          }
        }
      }
    }
  }

  /** Every code and name is well formed. */
  predicate AllFit(source: seq<Category>) {
    forall c | c in source :: CodeFits(c.code) && NameFits(c.name)
  }

  lemma AllFitAppend(source: seq<Category>, c: Category)
    requires AllFit(source) && CodeFits(c.code) && NameFits(c.name)
    ensures AllFit(source + [c])
  {
  }

  lemma DistinctAppend(source: seq<Category>, c: Category)
    requires DistinctCodes(source) && c.code !in Index(source)
    ensures DistinctCodes(source + [c]) && Index(source + [c]) == Index(source)[c.code := c]
  {
    IndexHolds(source);
    assert (source + [c])[..|source|] == source;
    forall i | 0 <= i < |source|
      ensures source[i].code != c.code
    {
      assert source[i] in source;
    }
  }

  lemma DuplicateFound(source: seq<Category>, i: nat)
    requires i < |source| && source[i].code in Index(source[..i])
    ensures !DistinctCodes(source)
  {
    IndexHolds(source[..i]);
    var earlier := Index(source[..i])[source[i].code];
    var j :| 0 <= j < i && source[..i][j] == earlier;
    assert source[j].code == source[i].code;
  }

  // --- trees -----------------------------------------------------------------------

  predicate IsParent(index: map<string, Category>, child: string, parent: string) {
    child in index && ParentOf(index[child]) == Some(parent)
  }

  /** Codes from a category upwards, each followed by its parent. */
  predicate Ascent(index: map<string, Category>, codes: seq<string>) {
    && (forall i | 0 <= i < |codes| :: codes[i] in index)
    && (forall i | 0 <= i < |codes| - 1 :: IsParent(index, codes[i], codes[i + 1]))
  }

  /** Following parents comes back to where it started. */
  predicate Circular(index: map<string, Category>, codes: seq<string>) {
    codes != [] && Ascent(index, codes) && IsParent(index, codes[|codes| - 1], codes[0])
  }

  ghost predicate Acyclic(index: map<string, Category>) {
    forall codes :: !Circular(index, codes)
  }

  predicate ParentsKnown(index: map<string, Category>) {
    forall c | c in index && ParentOf(index[c]).Some? :: ParentOf(index[c]).value in index
  }

  ghost predicate Shallow(index: map<string, Category>) {
    forall codes | Ascent(index, codes) :: |codes| <= MAX_LEVEL
  }

  /** A taxonomy that can be built. */
  ghost predicate Buildable(source: seq<Category>) {
    && AllFit(source)
    && DistinctCodes(source)
    && ParentsKnown(Index(source))
    && Acyclic(Index(source))
    && Shallow(Index(source))
  }

  /** What each error says about the source. */
  ghost predicate Justified(source: seq<Category>, e: CategoryError) {
    match e
    case BadCode => exists c | c in source :: !CodeFits(c.code)
    case BadName => exists c | c in source :: !NameFits(c.name)
    case Duplicate => !DistinctCodes(source)
    case Cycle => !Acyclic(Index(source))
    case UnknownParent => !ParentsKnown(Index(source))
    case TooDeep => !Shallow(Index(source))
  }

  /** Every error names a real fault. */
  lemma JustifiedMeansUnbuildable(source: seq<Category>, e: CategoryError)
    requires Justified(source, e)
    ensures !Buildable(source)
  {
  }

  // --- rows ------------------------------------------------------------------------

  /** A row agrees with its category and, one level up, with its parent's row. */
  predicate RowFits(index: map<string, Category>, rows: map<string, Row>, code: string)
    requires code in rows
  {
    && code in index
    && var row := rows[code];
    && row.code == code && row.name == index[code].name && row.parentCode == ParentOf(index[code])
    && 1 <= row.level <= MAX_LEVEL
    && match row.parentCode
       case None => row.level == 1 && row.path == row.name
       case Some(p) =>
         p in rows && row.level == rows[p].level + 1 && row.path == rows[p].path + SEPARATOR + row.name
  }

  predicate RowsFit(index: map<string, Category>, rows: map<string, Row>) {
    forall code | code in rows :: RowFits(index, rows, code)
  }

  /** A row's code and those of its ancestors, upwards. */
  function Ancestors(index: map<string, Category>, rows: map<string, Row>, code: string): (codes: seq<string>)
    requires RowsFit(index, rows) && code in rows
    ensures codes != [] && codes[0] == code && |codes| == rows[code].level
    ensures Ascent(index, codes)
    decreases rows[code].level
  {
    assert RowFits(index, rows, code);
    match rows[code].parentCode
    case None => [code]
    case Some(p) =>
      var above := Ancestors(index, rows, p);
      assert IsParent(index, code, p);
      [code] + above
  }

  /** The names from the root down to a row. */
  function Lineage(index: map<string, Category>, rows: map<string, Row>, code: string): (names: seq<string>)
    requires RowsFit(index, rows) && code in rows
    ensures |names| == rows[code].level && names[|names| - 1] == rows[code].name
    decreases rows[code].level
  {
    assert RowFits(index, rows, code);
    match rows[code].parentCode
    case None => [rows[code].name]
    case Some(p) => Lineage(index, rows, p) + [rows[code].name]
  }

  lemma {:induction false} PathJoinsLineage(index: map<string, Category>, rows: map<string, Row>, code: string)
    requires RowsFit(index, rows) && code in rows
    requires forall c | c in index :: NameFits(index[c].name)
    ensures rows[code].path == Join(Lineage(index, rows, code), SEPARATOR)
    ensures forall n | n in Lineage(index, rows, code) :: '>' !in n
    decreases rows[code].level
  {
    assert RowFits(index, rows, code);
    if rows[code].parentCode.Some? {
      var p := rows[code].parentCode.value;
      PathJoinsLineage(index, rows, p);
      JoinAppend(Lineage(index, rows, p), rows[code].name);
    }
  }

  /** Splitting a row's path gives back the names from the root to the row. */
  lemma PathSplitsIntoLineage(index: map<string, Category>, rows: map<string, Row>, code: string)
    requires RowsFit(index, rows) && code in rows
    requires forall c | c in index :: NameFits(index[c].name)
    ensures Split(rows[code].path) == Lineage(index, rows, code)
    ensures |Split(rows[code].path)| == rows[code].level
  {
    PathJoinsLineage(index, rows, code);
    SplitUndoesJoin(Lineage(index, rows, code));
  }

  /** Going up from a row costs a level a step. */
  lemma {:induction false} AscentLowersLevel(index: map<string, Category>, rows: map<string, Row>, codes: seq<string>, i: nat)
    requires RowsFit(index, rows) && index.Keys <= rows.Keys && Ascent(index, codes) && i < |codes|
    ensures rows[codes[i]].level == rows[codes[0]].level - i
    ensures 1 <= rows[codes[i]].level <= MAX_LEVEL
    decreases i
  {
    assert RowFits(index, rows, codes[i]);
    if i != 0 {
      AscentLowersLevel(index, rows, codes, i - 1);
      assert IsParent(index, codes[i - 1], codes[i]);
      assert RowFits(index, rows, codes[i - 1]);
    }
  }

  /** If every category has a fitting row, the links form a forest of bounded depth. */
  lemma RowsShowForest(index: map<string, Category>, rows: map<string, Row>)
    requires RowsFit(index, rows) && index.Keys <= rows.Keys
    ensures ParentsKnown(index) && Acyclic(index) && Shallow(index)
  {
    forall c | c in index && ParentOf(index[c]).Some?
      ensures ParentOf(index[c]).value in index
    {
      assert RowFits(index, rows, c);
      assert RowFits(index, rows, ParentOf(index[c]).value);
    }
    forall codes | Ascent(index, codes)
      ensures |codes| <= MAX_LEVEL
    {
      if codes != [] {
        AscentLowersLevel(index, rows, codes, |codes| - 1);
        AscentLowersLevel(index, rows, codes, 0);
      }
    }
    forall codes
      ensures !Circular(index, codes)
    {
      NoReturn(index, rows, codes);
    }
  }

  lemma NoReturn(index: map<string, Category>, rows: map<string, Row>, codes: seq<string>)
    requires RowsFit(index, rows) && index.Keys <= rows.Keys
    ensures !Circular(index, codes)
  {
    if codes != [] && Ascent(index, codes) {
      AscentLowersLevel(index, rows, codes, |codes| - 1);
      assert RowFits(index, rows, codes[|codes| - 1]);
    }
  }

  /** Fitting rows for every category are rows for the categories and no others. */
  lemma RowsCover(source: seq<Category>, rows: map<string, Row>)
    requires RowsFit(Index(source), rows) && forall c | c in source :: c.code in rows
    ensures rows.Keys == Index(source).Keys
  {
    IndexHolds(source);
    forall code
      ensures code in rows <==> code in Index(source)
    {
      if code in rows {
        assert RowFits(Index(source), rows, code);
      }
    }
  }

  // --- one step of the recursion ---------------------------------------------------------

  /** The codes below the one being resolved, each a child of the next. */
  predicate Below(index: map<string, Category>, seen: seq<string>, code: string) {
    && Ascent(index, seen)
    && (forall i, j | 0 <= i < j < |seen| :: seen[i] != seen[j])
    && (seen != [] ==> IsParent(index, seen[|seen| - 1], code))
  }

  lemma SeenAgain(index: map<string, Category>, seen: seq<string>, code: string)
    requires Below(index, seen, code) && code in seen
    ensures !Acyclic(index)
  {
    var k :| 0 <= k < |seen| && seen[k] == code;
    assert Circular(index, seen[k..]);
  }

  lemma ClimbsOn(index: map<string, Category>, seen: seq<string>, code: string, parent: string)
    requires Below(index, seen, code) && code !in seen && IsParent(index, code, parent)
    ensures Below(index, seen + [code], parent)
  {
  }

  lemma AboveTooDeep(index: map<string, Category>, rows: map<string, Row>, code: string, parent: string)
    requires RowsFit(index, rows) && parent in rows && IsParent(index, code, parent)
    requires MAX_LEVEL <= rows[parent].level
    ensures !Shallow(index)
  {
    assert RowFits(index, rows, parent);
    assert Ascent(index, [code] + Ancestors(index, rows, parent));
  }

  lemma RootRowFits(index: map<string, Category>, rows: map<string, Row>, code: string)
    requires code in index && ParentOf(index[code]).None?
    ensures RowFits(index, rows[code := Row(code, index[code].name, None, 1, index[code].name, 0)], code)
  {
  }

  lemma ChildRowFits(index: map<string, Category>, rows: map<string, Row>, code: string, parent: string)
    requires RowsFit(index, rows) && IsParent(index, code, parent) && parent in rows && parent != code
    requires rows[parent].level < MAX_LEVEL
    ensures var name, p := index[code].name, rows[parent];
      RowFits(index, rows[code := Row(code, name, Some(parent), p.level + 1, p.path + SEPARATOR + name, 0)], code)
  {
  }

  lemma AddRow(index: map<string, Category>, rows: map<string, Row>, row: Row)
    requires RowsFit(index, rows) && row.code !in rows
    requires RowFits(index, rows[row.code := row], row.code)
    ensures RowsFit(index, rows[row.code := row])
  {
    forall code | code in rows
      ensures RowFits(index, rows[row.code := row], code)
    {
      assert RowFits(index, rows, code);
    }
  }

  // --- sibling positions ----------------------------------------------------------------

  /** How many of the first `n` categories have this parent. */
  function Siblings(source: seq<Category>, parent: Option<string>, n: nat): nat
    requires n <= |source|
  {
    if n == 0 then 0
    else Siblings(source, parent, n - 1) + if ParentOf(source[n - 1]) == parent then 1 else 0
  }

  lemma {:induction false} SiblingsGrow(source: seq<Category>, parent: Option<string>, m: nat, n: nat)
    requires m <= n <= |source|
    ensures Siblings(source, parent, m) <= Siblings(source, parent, n)
    decreases n - m
  {
    if m < n {
      SiblingsGrow(source, parent, m, n - 1);
    }
  }

  /** Each position below the count is taken by exactly one sibling, in file order. */
  lemma {:induction false} SiblingsNumbered(source: seq<Category>, parent: Option<string>, n: nat, position: nat)
    returns (i: nat)
    requires n <= |source| && position < Siblings(source, parent, n)
    ensures i < n && ParentOf(source[i]) == parent && Siblings(source, parent, i) == position
    ensures forall j | 0 <= j < n && ParentOf(source[j]) == parent && j != i ::
      (j < i ==> Siblings(source, parent, j) < position) && (i < j ==> position < Siblings(source, parent, j))
  {
    i := n - 1;
    if ParentOf(source[n - 1]) == parent && position == Siblings(source, parent, n - 1) {
      forall j | 0 <= j < n && ParentOf(source[j]) == parent && j != i
        ensures Siblings(source, parent, j) < position
      {
        SiblingsGrow(source, parent, j + 1, i);
      }
    } else {
      i := SiblingsNumbered(source, parent, n - 1, position);
    }
  }

  function FinalRow(source: seq<Category>, rows: map<string, Row>, i: nat): Row
    requires i < |source| && source[i].code in rows
  {
    rows[source[i].code].(position := Siblings(source, ParentOf(source[i]), i))
  }

  /** The finished list: the rows in file order, with siblings numbered from zero. */
  predicate RowsFor(source: seq<Category>, rows: map<string, Row>, out: seq<Row>) {
    && |out| == |source|
    && forall i | 0 <= i < |source| :: source[i].code in rows && out[i] == FinalRow(source, rows, i)
  }

  /** The rows of the tree the source describes. */
  ghost predicate IsTaxonomy(source: seq<Category>, out: seq<Row>) {
    exists rows :: RowsFit(Index(source), rows) && rows.Keys == Index(source).Keys && RowsFor(source, rows, out)
  }

  /** A category without a parent; the file may say so with an empty one. */
  predicate IsRoot(c: Category) {
    c.parent.None? || c.parent.value == ""
  }

  predicate AreSiblings(a: Category, b: Category) {
    (IsRoot(a) && IsRoot(b)) || (!IsRoot(a) && !IsRoot(b) && a.parent == b.parent)
  }

  lemma {:induction false} SiblingsCounted(source: seq<Category>, c: Category, n: nat)
    requires n <= |source|
    ensures Siblings(source, ParentOf(c), n) == |set k | 0 <= k < n && AreSiblings(source[k], c)|
    decreases n
  {
    var all := set k | 0 <= k < n && AreSiblings(source[k], c);
    if n == 0 {
      assert all == {};
    } else {
      SiblingsCounted(source, c, n - 1);
      var before := set k | 0 <= k < n - 1 && AreSiblings(source[k], c);
      assert all == before + if AreSiblings(source[n - 1], c) then {n - 1} else {};
      assert AreSiblings(source[n - 1], c) <==> ParentOf(source[n - 1]) == ParentOf(c);
    }
  }

  /** Row j is row i's parent: one level less, and its names all but the last. */
  predicate IsChildRow(source: seq<Category>, out: seq<Row>, i: nat, j: nat)
    requires i < |source| == |out| && j < |source|
  {
    && source[i].parent == Some(source[j].code) && out[i].parentCode == Some(source[j].code)
    && out[i].level == out[j].level + 1
    && Split(out[i].path) == Split(out[j].path) + [source[i].name]
  }

  lemma RowPosition(source: seq<Category>, out: seq<Row>, i: nat)
    requires IsTaxonomy(source, out) && i < |source|
    ensures |out| == |source| && out[i].position == |set k | 0 <= k < i && AreSiblings(source[k], source[i])|
  {
    SiblingsCounted(source, source[i], i);
    hide RowsFit, Siblings, Index;
  }

  lemma RowOf(source: seq<Category>, rows: map<string, Row>, out: seq<Row>, i: nat)
    requires Buildable(source) && RowsFit(Index(source), rows) && rows.Keys == Index(source).Keys
    requires RowsFor(source, rows, out) && i < |source|
    ensures out[i].code == source[i].code && out[i].name == source[i].name
    ensures out[i].parentCode == ParentOf(source[i])
    ensures out[i].level == rows[source[i].code].level && out[i].path == rows[source[i].code].path
    ensures |Split(out[i].path)| == out[i].level && Split(out[i].path)[out[i].level - 1] == source[i].name
    ensures 1 <= out[i].level <= 10
    ensures IsRoot(source[i]) ==> out[i].level == 1
  {
    IndexHolds(source);
    assert source[i] in source;
    assert RowFits(Index(source), rows, source[i].code);
    PathSplitsIntoLineage(Index(source), rows, source[i].code);
    hide Acyclic, Shallow, ParentsKnown, AllFit, DistinctCodes, Index, Split;
  }

  lemma PlaceOf(source: seq<Category>, code: string) returns (j: nat)
    requires code in Index(source)
    ensures j < |source| && source[j].code == code
  {
    IndexHolds(source);
    j :| 0 <= j < |source| && source[j] == Index(source)[code];
  }

  lemma NamesFit(source: seq<Category>)
    requires AllFit(source)
    ensures forall c | c in Index(source) :: NameFits(Index(source)[c].name)
  {
    IndexHolds(source);
  }

  lemma ChildSplits(index: map<string, Category>, rows: map<string, Row>, code: string, parent: string)
    requires RowsFit(index, rows) && code in rows && rows[code].parentCode == Some(parent)
    requires forall c | c in index :: NameFits(index[c].name)
    ensures parent in rows && rows[code].level == rows[parent].level + 1
    ensures Split(rows[code].path) == Split(rows[parent].path) + [rows[code].name]
  {
    assert RowFits(index, rows, code);
    PathSplitsIntoLineage(index, rows, code);
    PathSplitsIntoLineage(index, rows, parent);
  }

  lemma RowOfParent(source: seq<Category>, rows: map<string, Row>, out: seq<Row>, i: nat) returns (j: nat)
    requires Buildable(source) && RowsFit(Index(source), rows) && rows.Keys == Index(source).Keys
    requires RowsFor(source, rows, out) && i < |source| && !IsRoot(source[i])
    ensures j < |source| && IsChildRow(source, out, i, j)
  {
    RowOf(source, rows, out, i);
    NamesFit(source);
    hide Acyclic, Shallow, ParentsKnown, AllFit, DistinctCodes, Index, Split, RowsFit;
    var p := source[i].parent.value;
    ChildSplits(Index(source), rows, source[i].code, p);
    j := PlaceOf(source, p);
    RowOf(source, rows, out, j);
  }

  /**
   * What that says about each row, in the file's own terms: its code and name, its parent's
   * level plus one, its parent's names and its own, and how many siblings come before it.
   */
  lemma TaxonomyRow(source: seq<Category>, out: seq<Row>, i: nat)
    requires Buildable(source) && IsTaxonomy(source, out) && i < |source|
    ensures |out| == |source| && out[i].code == source[i].code && out[i].name == source[i].name
    ensures out[i].position == |set k | 0 <= k < i && AreSiblings(source[k], source[i])|
    ensures 1 <= out[i].level <= 10
    ensures |Split(out[i].path)| == out[i].level && Split(out[i].path)[out[i].level - 1] == source[i].name
    ensures IsRoot(source[i]) ==> out[i].level == 1 && out[i].parentCode.None?
    ensures !IsRoot(source[i]) ==> exists j | 0 <= j < |source| :: IsChildRow(source, out, i, j)
  {
    RowPosition(source, out, i);
    var rows :| RowsFit(Index(source), rows) && rows.Keys == Index(source).Keys && RowsFor(source, rows, out);
    hide RowsFit, RowsFor, Index, IsChildRow, Buildable;
    RowOf(source, rows, out, i);
    if !IsRoot(source[i]) {
      var j := RowOfParent(source, rows, out, i);
    }
  }

  // --- what fits ---------------------------------------------------------------------------

  lemma {:induction false} PlainLength(s: string)
    requires forall i | 0 <= i < |s| :: s[i] as int < 0x1_0000
    ensures Utf16Length(s) == |s|
  {
    if s != "" {
      PlainLength(s[1..]);
    }
  }

  /** A code fits if it is hyphenated lower-case words of at most 64 characters. */
  lemma CodesExactly(code: string)
    ensures CodeFits(code) <==> IsSlug(code) && |code| <= 64
  {
    if IsSlug(code) {
      forall i | 0 <= i < |code|
        ensures code[i] as int < 0x1_0000
      {
        assert IsWordChar(code[i]) || code[i] == '-';
      }
      PlainLength(code);
    }
  }

  /** A name fits if it has no white space at either end, no angle bracket and at most 120 UTF-16 units. */
  lemma NamesExactly(name: string)
    ensures NameFits(name) <==>
      && name != "" && !IsSpace(name[0]) && !IsSpace(name[|name| - 1])
      && '>' !in name && Utf16Length(name) <= 120
  {
    if name != "" && !IsSpace(name[0]) && !IsSpace(name[|name| - 1]) {
      assert TrimStart(name) == name && TrimEnd(name) == name;
    }
    if name != "" && Trim(name) == name && IsSpace(name[0]) {
      TrimStartShortens(name);
    }
  }

  lemma {:induction false} TrimStartShortens(s: string)
    ensures |TrimStart(s)| <= |s|
    ensures s != "" && IsSpace(s[0]) ==> |TrimStart(s)| < |s|
  {
    if s != "" && IsSpace(s[0]) {
      TrimStartShortens(s[1..]);
    }
  }

  /** Lengths add up, one for a character of the basic plane and two for any other. */
  lemma {:induction false} LengthsAddUp(a: string, c: char, b: string)
    ensures Utf16Length(a + [c] + b) == Utf16Length(a) + (if c as int < 0x1_0000 then 1 else 2) + Utf16Length(b)
    decreases |a|
  {
    if a == "" {
      assert (a + [c] + b)[1..] == b;
    } else {
      assert (a + [c] + b)[1..] == a[1..] + [c] + b;
      LengthsAddUp(a[1..], c, b);
    }
  }
}
