/** The structured resume and the checks it passes before it is stored or rendered. */
module ResumeDocument {
  import opened Options

  datatype Value = Text(text: string) | Items(items: seq<string>) | Other

  datatype Block = Block(id: string, kind: string, title: string, visible: bool, content: seq<(string, Value)>)

  datatype Column = Column(id: string, width: real, minWidth: real, maxWidth: real, sectionIds: seq<string>)
  datatype Row = Row(columns: seq<Column>)
  datatype Page = Page(rows: seq<Row>)
  datatype Paper = A4 | Letter
  datatype Style = Style(fontFamily: string, fontSize: real, accentColor: string, textColor: string, margin: real,
      spacing: real)
  datatype Document = Document(paper: Paper, pages: seq<Page>, blocks: seq<Block>, style: Style)

  datatype LayoutError = DuplicateBlockId | DuplicateReference | UnmatchedReference | FixedColumns

  function BlockIds(blocks: seq<Block>): (ids: seq<string>)
    ensures |ids| == |blocks| && forall i :: 0 <= i < |ids| ==> ids[i] == blocks[i].id
  {
    seq(|blocks|, i requires 0 <= i < |blocks| => blocks[i].id)
  }

  function Flatten<T>(ss: seq<seq<T>>): seq<T> {
    if ss == [] then [] else ss[0] + Flatten(ss[1..])
  }

  lemma {:induction false} FlattenConcat<T>(a: seq<seq<T>>, b: seq<seq<T>>)
    ensures Flatten(a + b) == Flatten(a) + Flatten(b)
  {
    if a == [] {
      assert a + b == b;
    } else {
      assert (a + b)[1..] == a[1..] + b;
      FlattenConcat(a[1..], b);
    }
  }

  lemma FlattenMore<T>(a: seq<seq<T>>, last: seq<T>)
    ensures Flatten(a + [last]) == Flatten(a) + last
  {
    FlattenConcat(a, [last]);
    assert [last][1..] == [];
  }

  function ColumnReferences(columns: seq<Column>): seq<string> {
    if columns == [] then [] else columns[0].sectionIds + ColumnReferences(columns[1..])
  }

  function RowReferences(rows: seq<Row>): seq<string> {
    if rows == [] then [] else ColumnReferences(rows[0].columns) + RowReferences(rows[1..])
  }

  function References(pages: seq<Page>): seq<string> {
    if pages == [] then [] else RowReferences(pages[0].rows) + References(pages[1..])
  }

  function Elements<T>(s: seq<T>): set<T> {
    set x | x in s
  }

  predicate ColumnsResizable(pages: seq<Page>) {
    forall page <- pages :: forall row <- page.rows ::
      |row.columns| > 1 ==> forall column <- row.columns :: column.minWidth < 1.0
  }

  /** The layout validator: the first check that fails, if any. */
  function FirstLayoutError(doc: Document): Option<LayoutError> {
    var ids, refs := BlockIds(doc.blocks), References(doc.pages);
    if |Elements(ids)| != |ids| then Some(DuplicateBlockId)
    else if |refs| != |Elements(refs)| then Some(DuplicateReference)
    else if Elements(refs) != Elements(ids) then Some(UnmatchedReference)
    else if !ColumnsResizable(doc.pages) then Some(FixedColumns)
    else None
  }

  /** The field bounds the renderer relies on, and the layout checks. */
  predicate IsValid(doc: Document) {
    && 1 <= |doc.pages| <= 10
    && (forall page <- doc.pages :: 1 <= |page.rows| <= 8 && forall row <- page.rows :: 1 <= |row.columns| <= 4)
    && 0.25 <= doc.style.margin <= 1.25
    && 0.5 <= doc.style.spacing <= 2.0
    && FirstLayoutError(doc) == None
  }

  predicate NoDuplicates<T(==)>(s: seq<T>) {
    forall i, j :: 0 <= i < j < |s| ==> s[i] != s[j]
  }

  lemma {:induction false} SizeTellsDuplicates<T>(s: seq<T>)
    ensures |Elements(s)| <= |s|
    ensures |Elements(s)| == |s| <==> NoDuplicates(s)
  {
    if s != [] {
      var rest := s[1..];
      SizeTellsDuplicates(rest);
      assert Elements(s) == Elements(rest) + {s[0]};
      if s[0] in rest {
        assert Elements(s) == Elements(rest);
        var k :| 0 <= k < |rest| && rest[k] == s[0];
        assert s[k + 1] == s[0];
      } else {
        assert forall i, j :: 0 <= i < j < |s| ==> s[j] == rest[j - 1] && (i > 0 ==> s[i] == rest[i - 1]);
        assert NoDuplicates(rest) ==> NoDuplicates(s);
        if NoDuplicates(s) {
          assert forall i, j :: 0 <= i < j < |rest| ==> rest[i] == s[i + 1] && rest[j] == s[j + 1];
        }
      }
    }
  }

  lemma {:induction false} CountInDistinct<T>(s: seq<T>, x: T)
    requires NoDuplicates(s)
    ensures multiset(s)[x] == if x in s then 1 else 0
  {
    if s != [] {
      var rest := s[1..];
      assert forall i, j :: 0 <= i < j < |rest| ==> rest[i] == s[i + 1] && rest[j] == s[j + 1];
      CountInDistinct(rest, x);
      assert s == [s[0]] + rest;
      assert s[0] !in rest;
    }
  }

  lemma SameElementsSameMultiset<T>(s: seq<T>, t: seq<T>)
    requires NoDuplicates(s) && NoDuplicates(t)
    ensures Elements(s) == Elements(t) <==> multiset(s) == multiset(t)
  {
    if Elements(s) == Elements(t) {
      forall x
        ensures multiset(s)[x] == multiset(t)[x]
      {
        CountInDistinct(s, x);
        CountInDistinct(t, x);
        assert x in s <==> x in Elements(s);
        assert x in t <==> x in Elements(t);
      }
    }
    if multiset(s) == multiset(t) {
      forall x
        ensures x in Elements(s) <==> x in Elements(t)
      {
        assert x in s <==> x in multiset(s);
        assert x in t <==> x in multiset(t);
      }
    }
  }

  lemma {:induction false} DistinctMultiset<T>(s: seq<T>, t: seq<T>)
    requires NoDuplicates(s) && multiset(s) == multiset(t)
    ensures NoDuplicates(t)
  {
    if !NoDuplicates(t) {
      var i, j :| 0 <= i < j < |t| && t[i] == t[j];
      assert t == t[..i] + [t[i]] + t[i + 1..j] + [t[j]] + t[j + 1..];
      assert multiset(t)[t[i]] >= 2;
      CountInDistinct(s, t[i]);
      assert false;
    }
  }

  /** The layout checks hold exactly when the references are a permutation of distinct block ids. */
  lemma LayoutIsPermutation(doc: Document)
    ensures FirstLayoutError(doc) == None <==>
      && NoDuplicates(BlockIds(doc.blocks))
      && multiset(References(doc.pages)) == multiset(BlockIds(doc.blocks))
      && ColumnsResizable(doc.pages)
  {
    var ids, refs := BlockIds(doc.blocks), References(doc.pages);
    SizeTellsDuplicates(ids);
    SizeTellsDuplicates(refs);
    if NoDuplicates(ids) && NoDuplicates(refs) {
      SameElementsSameMultiset(refs, ids);
    } else if NoDuplicates(ids) && multiset(refs) == multiset(ids) {
      DistinctMultiset(ids, refs);
    }
  }

  /** Which error is reported: two blocks of one id before two references to one block, those before a block
      without a reference or a reference without a block, and last a row of several columns one of which
      takes it all. */
  lemma LayoutErrorIs(doc: Document)
    ensures var error, ids, refs := FirstLayoutError(doc), BlockIds(doc.blocks), References(doc.pages);
      && (error == Some(DuplicateBlockId) <==> !NoDuplicates(ids))
      && (error == Some(DuplicateReference) <==> NoDuplicates(ids) && !NoDuplicates(refs))
      && (error == Some(UnmatchedReference) <==>
            NoDuplicates(ids) && NoDuplicates(refs) && !(forall id :: id in ids <==> id in refs))
      && (error == Some(FixedColumns) <==>
            && NoDuplicates(ids) && NoDuplicates(refs) && (forall id :: id in ids <==> id in refs)
            && exists page <- doc.pages :: HasFixedRow(page))
  {
    var ids, refs := BlockIds(doc.blocks), References(doc.pages);
    SizeTellsDuplicates(ids);
    SizeTellsDuplicates(refs);
    assert Elements(refs) == Elements(ids) <==> forall id :: id in ids <==> id in refs by {
      assert forall id :: (id in ids <==> id in Elements(ids)) && (id in refs <==> id in Elements(refs));
    }
    FixedIff(doc.pages);
    hide Elements, NoDuplicates, ColumnsResizable, HasFixedRow;
  }

  predicate HasFixedRow(page: Page) {
    exists row <- page.rows :: |row.columns| > 1 && exists column <- row.columns :: column.minWidth >= 1.0
  }

  lemma FixedIff(pages: seq<Page>)
    ensures !ColumnsResizable(pages) <==> exists page <- pages :: HasFixedRow(page)
  {
  }

  /** Every block is referenced at exactly one place of the layout. */
  lemma EachBlockReferencedOnce(doc: Document, b: Block)
    requires FirstLayoutError(doc) == None && b in doc.blocks
    ensures exists k :: 0 <= k < |References(doc.pages)| && References(doc.pages)[k] == b.id
    ensures NoDuplicates(References(doc.pages))
  {
    var ids, refs := BlockIds(doc.blocks), References(doc.pages);
    SizeTellsDuplicates(refs);
    var i :| 0 <= i < |doc.blocks| && doc.blocks[i] == b;
    assert ids[i] in Elements(ids);
    assert b.id in refs;
  }
}
