/** Building the taxonomy rows: three maps filled in place and a memoised recursion. */
module CategoryBuilder {
  import opened Common
  import opened CategoryPaths
  import opened Categories

  class TreeBuilder {
    var byCode: map<string, Category>
    var rows: map<string, Row>
    var siblings: map<Option<string>, nat>

    constructor ()
      ensures byCode == map[] && rows == map[] && siblings == map[]
    {
      byCode, rows, siblings := map[], map[], map[];
    }

    /** Checks codes and names and files the categories by code. */
    method Load(source: seq<Category>) returns (r: Result<(), CategoryError>)
      requires byCode == map[]
      modifies this`byCode
      ensures r.Err? ==> Justified(source, r.error)
      ensures r.Ok? ==> byCode == Index(source) && DistinctCodes(source) && AllFit(source)
    {
      assert source[..0] == [];
      for i := 0 to |source|
        invariant byCode == Index(source[..i]) && DistinctCodes(source[..i]) && AllFit(source[..i])
      {
        var c := source[i];
        assert c in source;
        if !CodeFits(c.code) {
          return Err(BadCode);
        }
        if c.code in byCode {
          DuplicateFound(source, i);
          return Err(Duplicate);
        }
        if !NameFits(c.name) {
          return Err(BadName);
        }
        byCode := byCode[c.code := c];
        DistinctAppend(source[..i], c);
        AllFitAppend(source[..i], c);
        assert source[..i + 1] == source[..i] + [c];
      }
      assert source[..|source|] == source;
      r := Ok(());
    }

    /** The row of a category, resolving its ancestors first; `seen` are the codes below it. */
    method ResolveRow(code: string, seen: seq<string>) returns (r: Result<Row, CategoryError>)
      requires RowsFit(byCode, rows) && Below(byCode, seen, code) && (seen == [] ==> code in byCode)
      modifies this`rows
      ensures RowsFit(byCode, rows)
      ensures forall k | k in old(rows) :: k in rows && rows[k] == old(rows[k])
      ensures forall k | k in seen && k !in old(rows) :: k !in rows
      ensures r.Ok? ==> code in rows && r.value == rows[code]
      ensures r.Err? ==> Explains(byCode, r.error)
      decreases byCode.Keys - (set c | c in seen)
    {
      hide Acyclic, Shallow, CodeFits, NameFits, RowsFit, RowFits;
      if code in rows {
        return Ok(rows[code]);
      }
      if code in seen {
        SeenAgain(byCode, seen, code);
        return Err(Cycle);
      }
      if code !in byCode {
        assert IsParent(byCode, seen[|seen| - 1], code);
        return Err(UnknownParent);
      }
      var c := byCode[code];
      var row := Row(code, c.name, None, 1, c.name, 0);
      if ParentOf(c).None? {
        RootRowFits(byCode, rows, code);
      } else {
        var p := ParentOf(c).value;
        ClimbsOn(byCode, seen, code, p);
        Shrinks(byCode.Keys, seen, code);
        assert code in seen + [code] && forall k | k in seen :: k in seen + [code];
        var parent := ResolveRow(p, seen + [code]);
        if parent.Err? {
          return Err(parent.error);
        }
        if parent.value.level + 1 > MAX_LEVEL {
          AboveTooDeep(byCode, rows, code, p);
          return Err(TooDeep);
        }
        ChildRowFits(byCode, rows, code, p);
        row := Row(code, c.name, Some(p), parent.value.level + 1, parent.value.path + SEPARATOR + c.name, 0);
      }
      AddRow(byCode, rows, row);
      rows := rows[code := row];
      r := Ok(row);
    }

    /** Resolves every category in file order. */
    method ResolveAll(source: seq<Category>) returns (r: Result<(), CategoryError>)
      requires byCode == Index(source) && rows == map[]
      modifies this`rows
      ensures r.Err? ==> Justified(source, r.error)
      ensures r.Ok? ==> RowsFit(byCode, rows) && rows.Keys == byCode.Keys
    {
      hide RowsFit, Index, Below, ParentsKnown, Acyclic, Shallow;
      NothingResolved(byCode);
      for i := 0 to |source|
        invariant RowsFit(byCode, rows)
        invariant forall j | 0 <= j < i :: source[j].code in rows
      {
        SourceIndexed(source, i);
        var row := ResolveRow(source[i].code, []);
        if row.Err? {
          return Err(row.error);
        }
      }
      RowsCover(source, rows);
      r := Ok(());
    }

    /** Numbers the siblings and lists the rows in file order. */
    method Number(source: seq<Category>) returns (out: seq<Row>)
      requires siblings == map[] && forall c | c in source :: c.code in rows && rows[c.code].parentCode == ParentOf(c)
      modifies this`siblings
      ensures RowsFor(source, rows, out)
    {
      out := [];
      for i := 0 to |source|
        invariant |out| == i && Counted(siblings, source, i)
        invariant forall j | 0 <= j < i :: out[j] == FinalRow(source, rows, j)
      {
        assert source[i] in source;
        var row := rows[source[i].code];
        var position := if row.parentCode in siblings then siblings[row.parentCode] else 0;
        siblings := siblings[row.parentCode := position + 1];
        out := out + [row.(position := position)];
      }
    }
  }

  /** What an error of the recursion says about the links. */
  ghost predicate Explains(index: map<string, Category>, e: CategoryError) {
    match e
    case Cycle => !Acyclic(index)
    case UnknownParent => !ParentsKnown(index)
    case TooDeep => !Shallow(index)
    case _ => false
  }

  lemma NothingResolved(index: map<string, Category>)
    ensures RowsFit(index, map[])
  {
  }

  lemma SourceIndexed(source: seq<Category>, i: nat)
    requires i < |source|
    ensures source[i].code in Index(source) && Below(Index(source), [], source[i].code)
  {
    IndexHolds(source);
  }

  lemma Shrinks(keys: set<string>, seen: seq<string>, code: string)
    requires code in keys && code !in seen
    ensures keys - (set c | c in seen + [code]) < keys - (set c | c in seen)
  {
    assert code in keys - (set c | c in seen);
    assert code !in keys - (set c | c in seen + [code]);
  }

  ghost predicate Counted(siblings: map<Option<string>, nat>, source: seq<Category>, i: nat)
    requires i <= |source|
  {
    forall p :: Siblings(source, p, i) == if p in siblings then siblings[p] else 0
  }

  lemma ParentsAgree(source: seq<Category>, rows: map<string, Row>)
    requires DistinctCodes(source) && RowsFit(Index(source), rows) && rows.Keys == Index(source).Keys
    ensures forall c | c in source :: c.code in rows && rows[c.code].parentCode == ParentOf(c)
  {
    IndexHolds(source);
    forall c | c in source
      ensures c.code in rows && rows[c.code].parentCode == ParentOf(c)
    {
      assert RowFits(Index(source), rows, c.code);
    }
  }

  /**
   * The whole builder: it succeeds exactly on the buildable sources, its errors are
   * justified, and its rows are those of the tree.
   */
  method BuildCategoryRows(source: seq<Category>) returns (r: Result<seq<Row>, CategoryError>)
    ensures r.Ok? <==> Buildable(source)
    ensures r.Err? ==> Justified(source, r.error)
    ensures r.Ok? ==> IsTaxonomy(source, r.value)
  {
    hide Index, AllFit, DistinctCodes, ParentsKnown, Acyclic, Shallow, RowsFit, RowsFor, Justified;
    var b := new TreeBuilder();
    var loaded := b.Load(source);
    if loaded.Err? {
      JustifiedMeansUnbuildable(source, loaded.error);
      return Err(loaded.error);
    }
    var resolved := b.ResolveAll(source);
    if resolved.Err? {
      JustifiedMeansUnbuildable(source, resolved.error);
      return Err(resolved.error);
    }
    RowsShowForest(b.byCode, b.rows);
    ParentsAgree(source, b.rows);
    var out := b.Number(source);
    r := Ok(out);
  }
}
