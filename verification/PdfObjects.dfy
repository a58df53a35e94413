/** What a reader takes from the objects of the file: the page tree, its pages and their font. */
module PdfObjects {
  import opened Options
  import opened Decimal
  import opened PdfWriter

  /** A value and what follows it. */
  datatype Read<T> = Got(value: T, rest: string) | Fails {
    predicate IsFailure() {
      Fails?
    }

    function PropagateFailure<U>(): Read<U>
      requires Fails?
    {
      Fails
    }

    function Extract(): (T, string)
      requires Got?
    {
      (value, rest)
    }
  }

  function Past(s: string, text: string): Read<()> {
    if text <= s then Got((), s[|text|..]) else Fails
  }

  function Number(s: string): Read<nat> {
    var k := DigitRun(s);
    if k == 0 then Fails else Got(Parse(s[..k]), s[k..])
  }

  /** `n 0 R` */
  function Reference(s: string): Read<nat> {
    var n :- Number(s);
    var end :- Past(n.1, " 0 R");
    Got(n.0, end.1)
  }

  function NameLength(s: string): (n: nat)
    ensures n <= |s|
  {
    if s == "" || s[0] == ' ' then 0 else 1 + NameLength(s[1..])
  }

  function Name(s: string): Read<string> {
    var slash :- Past(s, "/");
    var n := NameLength(slash.1);
    if n == 0 then Fails else Got(slash.1[..n], slash.1[n..])
  }

  datatype Box = Box(left: nat, bottom: nat, right: nat, top: nat)

  function ReadBox(s: string): Read<Box> {
    var start :- Past(s, "[");
    var left :- Number(start.1);
    var gap1 :- Past(left.1, " ");
    var bottom :- Number(gap1.1);
    var gap2 :- Past(bottom.1, " ");
    var right :- Number(gap2.1);
    var gap3 :- Past(right.1, " ");
    var top :- Number(gap3.1);
    var end :- Past(top.1, "]");
    Got(Box(left.0, bottom.0, right.0, top.0), end.1)
  }

  datatype PageEntries = PageEntries(parent: nat, mediaBox: Box, fontName: string, font: nat, contents: nat)

  function ReadPage(obj: string): Read<PageEntries> {
    var head :- Past(obj, "<< /Type /Page /Parent ");
    var parent :- Reference(head.1);
    var boxKey :- Past(parent.1, " /MediaBox ");
    var box :- ReadBox(boxKey.1);
    var fontKey :- Past(box.1, " /Resources << /Font << ");
    var name :- Name(fontKey.1);
    var gap :- Past(name.1, " ");
    var font :- Reference(gap.1);
    var contentsKey :- Past(font.1, " >> >> /Contents ");
    var contents :- Reference(contentsKey.1);
    var end :- Past(contents.1, " >>");
    Got(PageEntries(parent.0, box.0, name.0, font.0, contents.0), end.1)
  }

  /** References with a space between them, up to a bracket. */
  function ReadKids(s: string): Read<seq<nat>>
    decreases |s|
  {
    if s != "" && s[0] == ']' then Got([], s[1..])
    else
      var first :- Reference(s);
      if |first.1| >= |s| then Fails
      else if first.1 != "" && first.1[0] == ' ' then
        var later :- ReadKids(first.1[1..]);
        Got([first.0] + later.0, later.1)
      else
        var end :- Past(first.1, "]");
        Got([first.0], end.1)
  }

  datatype TreeEntries = TreeEntries(kids: seq<nat>, count: nat)

  function ReadTree(obj: string): Read<TreeEntries> {
    var head :- Past(obj, "<< /Type /Pages /Kids [");
    var kids :- ReadKids(head.1);
    var countKey :- Past(kids.1, " /Count ");
    var count :- Number(countKey.1);
    var end :- Past(count.1, " >>");
    Got(TreeEntries(kids.0, count.0), end.1)
  }

  function ReadCatalog(obj: string): Read<nat> {
    var head :- Past(obj, "<< /Type /Catalog /Pages ");
    var pages :- Reference(head.1);
    var end :- Past(pages.1, " >>");
    Got(pages.0, end.1)
  }

  /** The name of the font that a font object stands for. */
  function ReadFont(obj: string): Read<string> {
    var head :- Past(obj, "<< /Type /Font /Subtype /Type1 /BaseFont ");
    var name :- Name(head.1);
    var end :- Past(name.1, " >>");
    Got(name.0, end.1)
  }

  // ---- the readers on what is written -----------------------------------------------------

  predicate NoDigit(rest: string) {
    rest == "" || !IsDigit(rest[0])
  }

  lemma PastIs(text: string, rest: string)
    ensures Past(text + rest, text) == Got((), rest)
  {
  }

  lemma NumberIs(n: nat, rest: string)
    requires NoDigit(rest)
    ensures Number(Dec(n) + rest) == Got(n, rest)
  {
    DigitRunOf(Dec(n), rest);
    ParseDec(n);
    assert (Dec(n) + rest)[..|Dec(n)|] == Dec(n) && (Dec(n) + rest)[|Dec(n)|..] == rest;
  }

  lemma ReferenceIs(n: nat, rest: string)
    ensures Reference(Dec(n) + (" 0 R" + rest)) == Got(n, rest)
  {
    hide Number, Past;
    NumberIs(n, " 0 R" + rest);
    PastIs(" 0 R", rest);
  }

  predicate IsName(s: string) {
    s != "" && ' ' !in s
  }

  lemma {:induction false} NameLengthOf(name: string, rest: string)
    requires ' ' !in name
    ensures NameLength(name + (" " + rest)) == |name|
  {
    if name == "" {
      assert name + (" " + rest) == " " + rest;
    } else {
      assert (name + (" " + rest))[1..] == name[1..] + (" " + rest);
      NameLengthOf(name[1..], rest);
    }
  }

  lemma NameIs(name: string, rest: string)
    requires IsName(name)
    ensures Name("/" + (name + (" " + rest))) == Got(name, " " + rest)
  {
    var s := name + (" " + rest);
    PastIs("/", s);
    NameLengthOf(name, rest);
    assert s[..|name|] == name && s[|name|..] == " " + rest;
  }

  lemma BoxIs(a: nat, b: nat, c: nat, d: nat, rest: string)
    ensures ReadBox("[" + (Dec(a) + (" " + (Dec(b) + (" " + (Dec(c) + (" " + (Dec(d) + ("]" + rest)))))))))
         == Got(Box(a, b, c, d), rest)
  {
    hide Past, Number, Dec;
    var r4 := Dec(d) + ("]" + rest);
    var r3 := Dec(c) + (" " + r4);
    var r2 := Dec(b) + (" " + r3);
    var r1 := Dec(a) + (" " + r2);
    PastIs("[", r1);
    NumberIs(a, " " + r2);
    PastIs(" ", r2);
    NumberIs(b, " " + r3);
    PastIs(" ", r3);
    NumberIs(c, " " + r4);
    PastIs(" ", r4);
    NumberIs(d, "]" + rest);
    PastIs("]", rest);
  }

  lemma ZeroIs()
    ensures Dec(0) == "0"
  {
  }

  lemma ResourcesParts(resource: string, f: string, c: string)
    ensures "/Resources << /Font << /" + resource + " " + f + " 0 R >> >> /Contents " + c + " 0 R >>" ==
            "/Resources << /Font << /" + (resource + (" " + (f + (" 0 R" + (" >> >> /Contents " +
            (c + (" 0 R" + " >>")))))))
  {
    FontOpens();
    Seven("/Resources << /Font << /", resource, " ", f, " 0 R >> >> /Contents ", c, " 0 R >>");
    Three(" 0 R", " >> >> /Contents ", c + (" 0 R" + " >>"));
  }

  lemma BoxParts(p: string, w: string, h: string, rest: string)
    ensures "<< /Type /Page /Parent " + p + " 0 R /MediaBox [0 0 " + w + " " + h + "] " +
            ("/Resources << /Font << /" + rest) ==
            "<< /Type /Page /Parent " + (p + (" 0 R" + (" /MediaBox " + ("[" + ("0" + (" " + ("0" + (" " + (w + (" " +
            (h + ("]" + (" /Resources << /Font << " + ("/" + rest))))))))))))))
  {
    SevenThen("<< /Type /Page /Parent ", p, " 0 R /MediaBox [0 0 ", w, " ", h, "] ", "/Resources << /Font << /" + rest);
    BracketThen(rest);
    BoxOpensThen(w + (" " + (h + ("]" + (" /Resources << /Font << " + ("/" + rest))))));
  }

  /** What `PageObject` writes, taken apart. */
  lemma PageParts(pagesId: nat, fontId: nat, contentId: nat, l: Layout)
    ensures
      var r5 := Dec(contentId) + (" 0 R" + " >>");
      var r4 := Dec(fontId) + (" 0 R" + (" >> >> /Contents " + r5));
      var r3 := "/" + (l.resource + (" " + r4));
      var r2 := " /Resources << /Font << " + r3;
      var r1 := Dec(pagesId) + (" 0 R" + (" /MediaBox " + BoxThen(l, r2)));
      PageObject(pagesId, fontId, contentId, l) == "<< /Type /Page /Parent " + r1
  {
    hide Dec;
    ZeroIs();
    ResourcesParts(l.resource, Dec(fontId), Dec(contentId));
    BoxParts(Dec(pagesId), Dec(l.width), Dec(l.height), l.resource + (" " + (Dec(fontId) + (" 0 R" +
        (" >> >> /Contents " + (Dec(contentId) + (" 0 R" + " >>")))))));
  }

  lemma Three(a: string, b: string, c: string)
    ensures a + b + c == a + (b + c)
  {
  }

  lemma Five(a: string, b: string, c: string, d: string, e: string)
    ensures a + b + c + d + e == a + (b + (c + (d + e)))
  {
    Three(a + b + c, d, e);
    Three(a + b, c, d + e);
    Three(a, b, c + (d + e));
  }

  lemma Seven(a: string, b: string, c: string, d: string, e: string, g: string, h: string)
    ensures a + b + c + d + e + g + h == a + (b + (c + (d + (e + (g + h)))))
  {
    Three(a + b + c + d + e, g, h);
    Three(a + b + c + d, e, g + h);
    Five(a, b, c, d, e + (g + h));
  }

  lemma SevenThen(a: string, b: string, c: string, d: string, e: string, g: string, h: string, rest: string)
    ensures a + b + c + d + e + g + h + rest == a + (b + (c + (d + (e + (g + (h + rest))))))
  {
    Three(a + b + c + d + e + g, h, rest);
    Seven(a, b, c, d, e, g, h + rest);
  }

  lemma BracketThen(rest: string)
    ensures "] " + ("/Resources << /Font << /" + rest) == "]" + (" /Resources << /Font << " + ("/" + rest))
  {
    FontOpens();
    Three("] ", "/Resources << /Font << /", rest);
    Three("]", " /Resources << /Font << " + "/", rest);
    Three(" /Resources << /Font << ", "/", rest);
  }

  lemma BoxOpensThen(rest: string)
    ensures " 0 R /MediaBox [0 0 " + rest == " 0 R" + (" /MediaBox " + ("[" + ("0" + (" " + ("0" + (" " + rest))))))
  {
    BoxOpens();
    Three(" 0 R", " /MediaBox " + ("[" + ("0" + (" " + ("0" + " ")))), rest);
    Three(" /MediaBox ", "[" + ("0" + (" " + ("0" + " "))), rest);
    Three("[", "0" + (" " + ("0" + " ")), rest);
    Three("0", " " + ("0" + " "), rest);
    Three(" ", "0" + " ", rest);
    Three("0", " ", rest);
  }

  function BoxThen(l: Layout, rest: string): string {
    "[" + (Dec(0) + (" " + (Dec(0) + (" " + (Dec(l.width) + (" " + (Dec(l.height) + ("]" + rest))))))))
  }

  lemma BoxOpens()
    ensures " 0 R /MediaBox [0 0 " == " 0 R" + (" /MediaBox " + ("[" + ("0" + (" " + ("0" + " ")))))
  {
  }

  lemma FontOpens()
    ensures "] " + "/Resources << /Font << /" == "]" + (" /Resources << /Font << " + "/")
    ensures " 0 R >> >> /Contents " == " 0 R" + " >> >> /Contents " && " 0 R >>" == " 0 R" + " >>"
  {
  }

  /** A page names its tree, its size, its font and its content as they were given. */
  lemma PageReads(pagesId: nat, fontId: nat, contentId: nat, l: Layout)
    requires IsName(l.resource)
    ensures ReadPage(PageObject(pagesId, fontId, contentId, l)) ==
            Got(PageEntries(pagesId, Box(0, 0, l.width, l.height), l.resource, fontId, contentId), "")
  {
    PageParts(pagesId, fontId, contentId, l);
    hide Past, Number, Reference, Name, ReadBox, Dec, PageObject;
    var r5 := Dec(contentId) + (" 0 R" + " >>");
    var r4 := Dec(fontId) + (" 0 R" + (" >> >> /Contents " + r5));
    var r3 := "/" + (l.resource + (" " + r4));
    var r2 := " /Resources << /Font << " + r3;
    var r1 := Dec(pagesId) + (" 0 R" + (" /MediaBox " + BoxThen(l, r2)));
    PastIs("<< /Type /Page /Parent ", r1);
    ReferenceIs(pagesId, " /MediaBox " + BoxThen(l, r2));
    PastIs(" /MediaBox ", BoxThen(l, r2));
    BoxIs(0, 0, l.width, l.height, r2);
    PastIs(" /Resources << /Font << ", r3);
    NameIs(l.resource, r4);
    PastIs(" ", r4);
    ReferenceIs(fontId, " >> >> /Contents " + r5);
    PastIs(" >> >> /Contents ", r5);
    ReferenceIs(contentId, " >>");
    PastIs(" >>", "");
    assert " >>" + "" == " >>";
  }

  // ---- the page tree, the catalog and the font --------------------------------------------

  lemma {:induction false} KidsAre(ids: seq<nat>, rest: string)
    ensures ReadKids(Kids(ids) + ("]" + rest)) == Got(ids, rest)
  {
    hide Reference, Past, Dec;
    if ids == [] {
      assert Kids(ids) + ("]" + rest) == "]" + rest && ("]" + rest)[1..] == rest;
    } else {
      var n, tail := ids[0], Kids(ids[1..]) + ("]" + rest);
      if |ids| == 1 {
        Three(Dec(n), " 0 R", "]" + rest);
        ReferenceIs(n, "]" + rest);
        KidsEnd(n, rest);
        assert ids == [n];
      } else {
        KidsAre(ids[1..], rest);
        Four(Dec(n), " 0 R ", Kids(ids[1..]), "]" + rest);
        SpaceAfterReference(tail);
        ReferenceIs(n, " " + tail);
        KidsGoOn(n, tail, ids[1..], rest);
        assert ids == [n] + ids[1..];
      }
    }
  }

  lemma Four(a: string, b: string, c: string, d: string)
    ensures a + b + c + d == a + (b + (c + d))
  {
    Three(a + b, c, d);
    Three(a, b, c + d);
  }

  lemma SpaceAfterReference(tail: string)
    ensures " 0 R " + tail == " 0 R" + (" " + tail)
  {
    assert " 0 R " == " 0 R" + " ";
  }

  lemma KidsEnd(n: nat, rest: string)
    requires Reference(Dec(n) + (" 0 R" + ("]" + rest))) == Got(n, "]" + rest)
    ensures ReadKids(Dec(n) + (" 0 R" + ("]" + rest))) == Got([n], rest)
  {
    hide Reference;
    StartsWithDigit(n, " 0 R" + ("]" + rest));
    PastIs("]", rest);
  }

  lemma StartsWithDigit(n: nat, rest: string)
    ensures Dec(n) + rest != "" && IsDigit((Dec(n) + rest)[0])
  {
    assert Dec(n)[0] in Dec(n);
  }

  lemma KidsGoOn(n: nat, tail: string, later: seq<nat>, rest: string)
    requires Reference(Dec(n) + (" 0 R" + (" " + tail))) == Got(n, " " + tail)
    requires ReadKids(tail) == Got(later, rest)
    ensures ReadKids(Dec(n) + (" 0 R" + (" " + tail))) == Got([n] + later, rest)
  {
    hide Reference;
    StartsWithDigit(n, " 0 R" + (" " + tail));
    assert (" " + tail)[1..] == tail;
  }

  /** The page tree lists the pages in order, and how many they are. */
  lemma TreeReads(ids: seq<nat>)
    ensures ReadTree(PagesObject(ids)) == Got(TreeEntries(ids, |ids|), "")
  {
    hide Past, Number, ReadKids, Dec, Kids;
    var end := Dec(|ids|) + " >>";
    TreeEnds();
    var kids := Kids(ids);
    Five("<< /Type /Pages /Kids [", kids, "] /Count ", Dec(|ids|), " >>");
    Three("]", " /Count ", end);
    PastIs("<< /Type /Pages /Kids [", kids + ("]" + (" /Count " + end)));
    KidsAre(ids, " /Count " + end);
    PastIs(" /Count ", end);
    NumberIs(|ids|, " >>");
    PastIs(" >>", "");
    assert " >>" + "" == " >>";
  }

  lemma TreeEnds()
    ensures "] /Count " == "]" + " /Count "
  {
  }

  lemma CatalogReads(pagesId: nat)
    ensures ReadCatalog(CatalogObject(pagesId)) == Got(pagesId, "")
  {
    hide Past, Reference, Dec;
    FontOpens();
    Three("<< /Type /Catalog /Pages ", Dec(pagesId), " 0 R >>");
    PastIs("<< /Type /Catalog /Pages ", Dec(pagesId) + (" 0 R" + " >>"));
    ReferenceIs(pagesId, " >>");
    PastIs(" >>", "");
    assert " >>" + "" == " >>";
  }

  lemma FontReads(l: Layout)
    requires IsName(l.fontName)
    ensures ReadFont(FontObject(l)) == Got(l.fontName, "")
  {
    hide Past, Name;
    var head, name := "<< /Type /Font /Subtype /Type1 /BaseFont ", l.fontName;
    BaseFontOpens();
    FontParts(name);
    PastIs(head, "/" + (name + (" " + ">>")));
    NameIs(name, ">>");
    assert " " + ">>" == " >>";
    PastIs(" >>", "");
    assert " >>" + "" == " >>";
  }

  lemma BaseFontOpens()
    ensures "<< /Type /Font /Subtype /Type1 /BaseFont /" == "<< /Type /Font /Subtype /Type1 /BaseFont " + "/"
  {
  }

  lemma FontParts(name: string)
    ensures "<< /Type /Font /Subtype /Type1 /BaseFont /" + name + " >>" ==
            "<< /Type /Font /Subtype /Type1 /BaseFont " + ("/" + (name + (" " + ">>")))
  {
    BaseFontOpens();
    assert " " + ">>" == " >>";
    Four("<< /Type /Font /Subtype /Type1 /BaseFont ", "/", name, " >>");
  }

  // ---- the objects of a file --------------------------------------------------------------

  /** Object `id - 1` of the list is a page of the given size, in the tree that is last but one, with a
      font object of the given name and a content object with the given stream. */
  predicate IsPage(objects: seq<string>, id: nat, stream: string, l: Layout) {
    && 0 < id < |objects| && ReadPage(objects[id - 1]).Got?
    && var page := ReadPage(objects[id - 1]).value;
    && page.parent == |objects| - 1 && page.mediaBox == Box(0, 0, l.width, l.height)
    && page.fontName == l.resource && 0 < page.font < |objects|
    && ReadFont(objects[page.font - 1]) == Got(l.fontName, "")
    && 0 < page.contents < |objects| && ReadStream(objects[page.contents - 1]) == Some(stream)
  }

  lemma ObjectsAre(objects: seq<string>, streams: seq<string>, l: Layout)
    requires AreObjects(objects, streams, l)
    ensures |objects| == 2 * |streams| + 4
    ensures objects[|objects| - 1] == CatalogObject(PagesId(|streams|))
    ensures objects[|objects| - 2] == PagesObject(PageIds(|streams|))
    ensures objects[FontId(|streams|) - 1] == FontObject(l)
  {
    hide StreamObject, PageObject, PagesObject, CatalogObject, FontObject;
  }

  lemma PageObjectsAre(objects: seq<string>, streams: seq<string>, l: Layout, i: nat)
    requires AreObjects(objects, streams, l) && i < |streams|
    ensures |objects| == 2 * |streams| + 4
    ensures objects[ContentId(i) - 1] == StreamObject(streams[i])
    ensures objects[PageId(i) - 1] == PageObject(PagesId(|streams|), FontId(|streams|), ContentId(i), l)
  {
    hide StreamObject, PageObject, PagesObject, CatalogObject, FontObject;
  }

  lemma PageStands(objects: seq<string>, streams: seq<string>, l: Layout, i: nat)
    requires AreObjects(objects, streams, l) && IsName(l.resource) && IsName(l.fontName) && i < |streams|
    ensures IsPage(objects, PageId(i), streams[i], l)
  {
    hide ReadPage, ReadFont, ReadStream, PageObject, StreamObject, FontObject, IsName, AreObjects;
    var p := |streams|;
    ObjectsAre(objects, streams, l);
    PageObjectsAre(objects, streams, l, i);
    FontReads(l);
    PageReads(PagesId(p), FontId(p), ContentId(i), l);
    StreamReadsBack(streams[i]);
  }

  /** Read from the objects as they stand in the list: the catalog names the page tree, the tree lists its
      pages in order and counts them, every page names the tree, its size, the font and its own content, and
      the font is the one asked for. A number names the object one place before it. */
  lemma ObjectsRead(objects: seq<string>, streams: seq<string>, l: Layout)
    requires AreObjects(objects, streams, l) && IsName(l.resource) && IsName(l.fontName)
    ensures |objects| >= 2 && ReadCatalog(objects[|objects| - 1]) == Got(|objects| - 1, "")
    ensures ReadTree(objects[|objects| - 2]).Got?
    ensures var tree := ReadTree(objects[|objects| - 2]).value;
      && tree.count == |tree.kids| == |streams|
      && (forall i, k :: 0 <= i < k < |streams| ==> tree.kids[i] != tree.kids[k])
      && (forall i :: 0 <= i < |streams| ==> IsPage(objects, tree.kids[i], streams[i], l))
  {
    hide IsPage, ReadTree, ReadCatalog, PagesObject, CatalogObject, FontObject, IsName, AreObjects;
    var p := |streams|;
    ObjectsAre(objects, streams, l);
    CatalogReads(PagesId(p));
    TreeReads(PageIds(p));
    forall i | 0 <= i < p
      ensures IsPage(objects, PageIds(p)[i], streams[i], l)
    {
      PageStands(objects, streams, l, i);
    }
  }

  // ---- an object in the file --------------------------------------------------------------

  /** `n 0 obj` and a line end. */
  function ReadHeader(s: string): Read<nat> {
    var n :- Number(s);
    var end :- Past(n.1, " 0 obj\n");
    Got(n.0, end.1)
  }

  lemma HeaderReads(n: nat, obj: string, rest: string)
    ensures ReadHeader(Written(n, obj) + rest) == Got(n, obj + ("\nendobj\n" + rest))
  {
    hide Past, Number, Dec;
    SixThen(Dec(n), " 0 obj\n", obj, "\nendobj\n", "", rest);
    assert Written(n, obj) + "" == Written(n, obj) && "" + rest == rest;
    NumberIs(n, " 0 obj\n" + (obj + ("\nendobj\n" + rest)));
    PastIs(" 0 obj\n", obj + ("\nendobj\n" + rest));
  }

  /** The text stands at the start of this. */
  ghost predicate Begins(s: string, text: string) {
    text <= s
  }

  /** Entry n of the table leads to an object that says it is number n and is object n, to its end. */
  lemma EntryLeadsToObject(objects: seq<string>, rootId: nat, n: nat)
    requires 1 <= n < |objects| && OffsetsFit(objects)
    ensures TableAt(objects) + 20 * n + 20 <= |File(objects, rootId)|
    ensures var file := File(objects, rootId); var entry := EntryOf(file, TableAt(objects), n);
      && |entry| == 20 && AllDigits(entry[..10]) && Parse(entry[..10]) <= |file|
      && ReadHeader(file[Parse(entry[..10])..]).Got?
      && ReadHeader(file[Parse(entry[..10])..]).value == n
      && Begins(ReadHeader(file[Parse(entry[..10])..]).rest, objects[n] + "\nendobj\n")
  {
    hide File, Body, Table, TableAt, Entries, Written, ReadHeader, OffsetsFit, EntryOf;
    EntriesPointAtObjects(objects, rootId, n);
    var file := File(objects, rootId);
    var entry := EntryOf(file, TableAt(objects), n);
    var rest := FoundThen(file, Parse(entry[..10]), Written(n, objects[n]));
    HeaderReads(n, objects[n], rest);
    Three(objects[n], "\nendobj\n", rest);
  }

  // ---- the table's head and the trailer ---------------------------------------------------

  /** How many entries the table says it has. */
  function ReadCount(s: string): Read<nat> {
    var head :- Past(s, "xref\n0 ");
    var count :- Number(head.1);
    var end :- Past(count.1, "\n");
    Got(count.0, end.1)
  }

  datatype TrailerEntries = TrailerEntries(size: nat, root: nat)

  function ReadTrailer(s: string): Read<TrailerEntries> {
    var head :- Past(s, "trailer\n<< /Size ");
    var size :- Number(head.1);
    var rootKey :- Past(size.1, " /Root ");
    var root :- Reference(rootKey.1);
    var end :- Past(root.1, " >>\nstartxref\n");
    Got(TrailerEntries(size.0, root.0), end.1)
  }

  lemma CountReads(count: nat, rest: string)
    ensures ReadCount(XrefStart(count) + rest) == Got(count, rest)
  {
    hide Past, Number, Dec;
    Four("xref\n0 ", Dec(count), "\n", rest);
    PastIs("xref\n0 ", Dec(count) + ("\n" + rest));
    NumberIs(count, "\n" + rest);
    PastIs("\n", rest);
  }

  lemma TrailerEnds()
    ensures " 0 R >>\nstartxref\n" == " 0 R" + " >>\nstartxref\n"
  {
  }

  lemma TrailerReads(count: nat, rootId: nat, rest: string)
    ensures ReadTrailer(BeforeXref(count, rootId) + rest) == Got(TrailerEntries(count, rootId), rest)
  {
    hide Past, Number, Reference, Dec;
    TrailerEnds();
    var tail := " 0 R" + (" >>\nstartxref\n" + rest);
    Three(" 0 R", " >>\nstartxref\n", rest);
    Five("trailer\n<< /Size ", Dec(count), " /Root ", Dec(rootId), " 0 R >>\nstartxref\n");
    SixThen("trailer\n<< /Size ", Dec(count), " /Root ", Dec(rootId), " 0 R >>\nstartxref\n", rest);
    PastIs("trailer\n<< /Size ", Dec(count) + (" /Root " + (Dec(rootId) + tail)));
    NumberIs(count, " /Root " + (Dec(rootId) + tail));
    PastIs(" /Root ", Dec(rootId) + tail);
    ReferenceIs(rootId, " >>\nstartxref\n" + rest);
    PastIs(" >>\nstartxref\n", rest);
  }

  lemma SixThen(a: string, b: string, c: string, d: string, e: string, rest: string)
    ensures a + b + c + d + e + rest == a + (b + (c + (d + (e + rest))))
  {
    Three(a + b + c + d, e, rest);
    Five(a, b, c, d, e + rest);
  }

  lemma FreeEntryIsFirst(objects: seq<string>)
    requires |objects| >= 1
    ensures Begins(Table(objects), "0000000000 65535 f \n")
  {
    hide Entries;
  }

  lemma FoundThen(file: string, at: nat, text: string) returns (rest: string)
    requires FoundAt(file, at, text)
    ensures file[at..] == text + rest
  {
    rest := file[at..][|text|..];
  }

  /** Read from the end of the file: where the table is, that it counts every number up to the last, the one
      that is never used included, and that the trailer says the same and names the root. */
  lemma TailReads(objects: seq<string>, rootId: nat)
    requires |objects| >= 1
    ensures ReadStartXref(File(objects, rootId)).Some?
    ensures var file := File(objects, rootId); var at := ReadStartXref(file).value;
      && at <= |file| && ReadCount(file[at..]).Got? && ReadCount(file[at..]).value == |objects|
      && Table(objects) <= ReadCount(file[at..]).rest && Begins(Table(objects), "0000000000 65535 f \n")
      && ReadTrailer(ReadCount(file[at..]).rest[|Table(objects)|..]).Got?
      && ReadTrailer(ReadCount(file[at..]).rest[|Table(objects)|..]).value == TrailerEntries(|objects|, rootId)
  {
    FreeEntryIsFirst(objects);
    hide ReadCount, ReadTrailer, ReadStartXref, File, Table, XrefStart, BeforeXref, Begins;
    StartXrefIsXref(objects, rootId);
    var file, n := File(objects, rootId), |objects|;
    var rest := ThreeFound(file, ReadStartXref(file).value, XrefStart(n), Table(objects), BeforeXref(n, rootId));
    CountReads(n, Table(objects) + (BeforeXref(n, rootId) + rest));
    DropFirst(Table(objects), BeforeXref(n, rootId) + rest);
    TrailerReads(n, rootId, rest);
  }

  lemma DropFirst(a: string, b: string)
    ensures a <= a + b && (a + b)[|a|..] == b
  {
  }

  lemma ThreeFound(file: string, at: nat, a: string, b: string, c: string) returns (rest: string)
    requires FoundAt(file, at, a) && FoundAt(file, at + |a|, b) && FoundAt(file, at + |a| + |b|, c)
    ensures at <= |file| && file[at..] == a + (b + (c + rest))
  {
    rest := FoundThen(file, at + |a| + |b|, c);
    Split(file, at, a);
    Split(file, at + |a|, b);
  }

  lemma Split(file: string, at: nat, text: string)
    requires FoundAt(file, at, text)
    ensures at + |text| <= |file| && file[at..] == text + file[at + |text|..]
  {
    var rest := FoundThen(file, at, text);
    assert file[at..][|text|..] == file[at + |text|..];
  }
}
