/**
 Serialising the rendered pages as a PDF file. A byte is the character with its
 value. `objects[0]` is never written; `objects[n]` is written as object `n`.
 */
module PdfWriter {
  import opened Options
  import opened Decimal

  datatype Layout = Layout(width: nat, height: nat, fontName: string, resource: string)

  const HEADER := "%PDF-1.4\n"
  const FREE_ENTRY := "0000000000 65535 f \n"

  function StreamObject(stream: string): string {
    "<< /Length " + Dec(|stream|) + " >>\nstream\n" + stream + "\nendstream"
  }

  function FontObject(l: Layout): string {
    "<< /Type /Font /Subtype /Type1 /BaseFont /" + l.fontName + " >>"
  }

  function PageObject(pagesId: nat, fontId: nat, contentId: nat, l: Layout): string {
    "<< /Type /Page /Parent " + Dec(pagesId) + " 0 R /MediaBox [0 0 " + Dec(l.width) + " " + Dec(l.height) + "] "
    + "/Resources << /Font << /" + l.resource + " " + Dec(fontId) + " 0 R >> >> /Contents " + Dec(contentId) + " 0 R >>"
  }

  function Kids(ids: seq<nat>): string {
    if ids == [] then "" else if |ids| == 1 then Dec(ids[0]) + " 0 R" else Dec(ids[0]) + " 0 R " + Kids(ids[1..])
  }

  function PagesObject(pageIds: seq<nat>): string {
    "<< /Type /Pages /Kids [" + Kids(pageIds) + "] /Count " + Dec(|pageIds|) + " >>"
  }

  function CatalogObject(pagesId: nat): string {
    "<< /Type /Catalog /Pages " + Dec(pagesId) + " 0 R >>"
  }

  /** The ids the source assigns: each is one more than the list index of the object it names. */
  function ContentId(i: nat): nat { 2 * i + 2 }
  function PageId(i: nat): nat { 2 * i + 3 }
  function FontId(pages: nat): nat { 2 * pages + 2 }
  function PagesId(pages: nat): nat { 2 * pages + 3 }
  function CatalogId(pages: nat): nat { 2 * pages + 4 }

  function PageIds(pages: nat): (ids: seq<nat>)
    ensures |ids| == pages && forall i :: 0 <= i < pages ==> ids[i] == PageId(i)
  {
    seq(pages, i requires i >= 0 => PageId(i))
  }

  /** Which object stands at which list index. */
  predicate AreObjects(objects: seq<string>, streams: seq<string>, l: Layout) {
    var p := |streams|;
    && |objects| == 2 * p + 4
    && (forall i :: 0 <= i < p ==> objects[ContentId(i) - 1] == StreamObject(streams[i]))
    && (forall i :: 0 <= i < p ==> objects[PageId(i) - 1] == PageObject(PagesId(p), FontId(p), ContentId(i), l))
    && objects[FontId(p) - 1] == FontObject(l)
    && objects[PagesId(p) - 1] == PagesObject(PageIds(p))
    && objects[CatalogId(p) - 1] == CatalogObject(PagesId(p))
  }

  function Written(n: nat, obj: string): string {
    Dec(n) + " 0 obj\n" + obj + "\nendobj\n"
  }

  /** The file up to object `n`. */
  function Body(objects: seq<string>, n: nat): string
    requires 1 <= n <= |objects|
  {
    if n == 1 then HEADER else Body(objects, n - 1) + Written(n - 1, objects[n - 1])
  }

  function Entry(offset: nat): string {
    Pad(offset, 10) + " 00000 n \n"
  }

  /** The entries of objects 1 to n - 1. */
  function Entries(objects: seq<string>, n: nat): string
    requires 1 <= n <= |objects|
  {
    if n == 1 then "" else Entries(objects, n - 1) + Entry(|Body(objects, n - 1)|)
  }

  /** The cross-reference table: the free entry, then one entry per written object. */
  function Table(objects: seq<string>): string
    requires |objects| >= 1
  {
    FREE_ENTRY + Entries(objects, |objects|)
  }

  function XrefStart(count: nat): string {
    "xref\n0 " + Dec(count) + "\n"
  }

  const EOF_MARK := "\n%%EOF\n"

  function BeforeXref(count: nat, rootId: nat): string {
    "trailer\n<< /Size " + Dec(count) + " /Root " + Dec(rootId) + " 0 R >>\nstartxref\n"
  }

  function Trailer(count: nat, rootId: nat, xref: nat): string {
    BeforeXref(count, rootId) + Dec(xref) + EOF_MARK
  }

  function File(objects: seq<string>, rootId: nat): string
    requires |objects| >= 1
  {
    var n := |objects|;
    Body(objects, n) + XrefStart(n) + Table(objects) + Trailer(n, rootId, |Body(objects, n)|)
  }

  // ---- the writer's loops -----------------------------------------------------------------

  /** A content object and a place for its page, per stream. */
  method PlaceStreams(streams: seq<string>) returns (objects: seq<string>, contentIds: seq<nat>, pageIds: seq<nat>)
    ensures |objects| == 2 * |streams| + 1 && |pageIds| == |contentIds| == |streams|
    ensures forall k :: 0 <= k < |streams| ==> contentIds[k] == ContentId(k) && pageIds[k] == PageId(k)
    ensures forall k :: 0 <= k < |streams| ==> objects[ContentId(k) - 1] == StreamObject(streams[k])
  {
    objects := [""];
    pageIds, contentIds := [], [];
    for i := 0 to |streams|
      invariant |objects| == 2 * i + 1 && |pageIds| == |contentIds| == i
      invariant forall k :: 0 <= k < i ==> contentIds[k] == ContentId(k) && pageIds[k] == PageId(k)
      invariant forall k :: 0 <= k < i ==> objects[ContentId(k) - 1] == StreamObject(streams[k])
    {
      contentIds := contentIds + [|objects| + 1];
      objects := objects + [StreamObject(streams[i])];
      pageIds := pageIds + [|objects| + 1];
      objects := objects + [""];
    }
  }

  method FillPages(base: seq<string>, contentIds: seq<nat>, pageIds: seq<nat>, pagesId: nat, fontId: nat, l: Layout)
    returns (objects: seq<string>)
    requires |pageIds| == |contentIds| && |base| > 2 * |pageIds|
    requires forall k :: 0 <= k < |pageIds| ==> pageIds[k] == PageId(k)
    ensures |objects| == |base|
    ensures forall k :: 0 <= k < |pageIds| ==> objects[PageId(k) - 1] == PageObject(pagesId, fontId, contentIds[k], l)
    ensures forall k :: 0 <= k < |pageIds| ==> objects[ContentId(k) - 1] == base[ContentId(k) - 1]
    ensures forall k :: 2 * |pageIds| < k < |base| ==> objects[k] == base[k]
  {
    objects := base;
    for i := 0 to |pageIds|
      invariant |objects| == |base|
      invariant forall k :: 0 <= k < i ==> objects[PageId(k) - 1] == PageObject(pagesId, fontId, contentIds[k], l)
      invariant forall k :: 0 <= k < |pageIds| ==> objects[ContentId(k) - 1] == base[ContentId(k) - 1]
      invariant forall k :: 2 * |pageIds| < k < |base| ==> objects[k] == base[k]
    {
      objects := objects[pageIds[i] - 1 := PageObject(pagesId, fontId, contentIds[i], l)];
    }
  }

  method BuildObjects(streams: seq<string>, l: Layout) returns (objects: seq<string>, rootId: nat)
    ensures AreObjects(objects, streams, l) && rootId == CatalogId(|streams|)
  {
    hide StreamObject, FontObject, PageObject, PagesObject, CatalogObject;
    var base, contentIds, pageIds := PlaceStreams(streams);
    var fontId := |base| + 1;
    base := base + [FontObject(l)];
    var pagesId := |base| + 1;
    rootId := |base| + 2;
    base := base + ["", ""];
    objects := FillPages(base, contentIds, pageIds, pagesId, fontId, l);
    assert pageIds == PageIds(|streams|);
    objects := objects[pagesId - 1 := PagesObject(pageIds)];
    objects := objects[rootId - 1 := CatalogObject(pagesId)];
  }

  lemma BodyAppends(objects: seq<string>, n: nat)
    requires 1 <= n < |objects|
    ensures Body(objects, n + 1) == Body(objects, n) + Written(n, objects[n])
  {
  }

  lemma BodyStarts(objects: seq<string>)
    requires objects != []
    ensures Body(objects, 1) == HEADER
  {
  }

  method WriteBodies(objects: seq<string>) returns (output: string, offsets: seq<nat>)
    requires |objects| >= 1
    ensures output == Body(objects, |objects|) && |offsets| == |objects|
    ensures forall k :: 1 <= k < |objects| ==> offsets[k] == |Body(objects, k)|
  {
    hide Body, Written;
    output := HEADER;
    offsets := [0];
    BodyStarts(objects);
    for n := 1 to |objects|
      invariant output == Body(objects, n)
      invariant |offsets| == n
      invariant forall k :: 1 <= k < n ==> offsets[k] == |Body(objects, k)|
    {
      offsets := offsets + [|output|];
      BodyAppends(objects, n);
      output := output + Written(n, objects[n]);
    }
  }

  method WriteEntries(objects: seq<string>, offsets: seq<nat>) returns (entries: string)
    requires |objects| == |offsets| >= 1
    requires forall k :: 1 <= k < |objects| ==> offsets[k] == |Body(objects, k)|
    ensures entries == Entries(objects, |objects|)
  {
    entries := "";
    for n := 1 to |objects|
      invariant entries == Entries(objects, n)
    {
      entries := entries + Entry(offsets[n]);
    }
  }

  method WriteObjects(objects: seq<string>, rootId: nat) returns (output: string)
    requires |objects| >= 1
    ensures output == File(objects, rootId)
  {
    var offsets;
    output, offsets := WriteBodies(objects);
    var xref := |output|;
    var entries := WriteEntries(objects, offsets);
    output := output + XrefStart(|objects|);
    output := output + (FREE_ENTRY + entries);
    output := output + Trailer(|objects|, rootId, xref);
  }

  method RenderPdf(streams: seq<string>, l: Layout) returns (output: string, ghost objects: seq<string>)
    ensures AreObjects(objects, streams, l)
    ensures output == File(objects, CatalogId(|streams|))
  {
    var built, rootId := BuildObjects(streams, l);
    objects := built;
    output := WriteObjects(built, rootId);
  }

  // ---- what a reader finds ----------------------------------------------------------------

  predicate FoundAt(file: string, at: nat, text: string) {
    at <= |file| && text <= file[at..]
  }

  lemma FoundLater(file: string, more: string, at: nat, text: string)
    requires FoundAt(file, at, text)
    ensures FoundAt(file + more, at, text)
  {
    assert (file + more)[at..] == file[at..] + more;
  }

  lemma FoundEnd(file: string, more: string)
    ensures FoundAt(file + more, |file|, more)
  {
    assert (file + more)[|file|..] == more;
  }

  lemma SliceFound(file: string, at: nat, text: string, i: nat, j: nat)
    requires FoundAt(file, at, text) && i <= j <= |text|
    ensures at + j <= |file| && file[at + i..at + j] == text[i..j]
  {
    assert file[at..][..|text|] == text;
  }

  lemma PartsFound(a: string, b: string, c: string, d: string)
    ensures FoundAt(a + b + c + d, |a|, b) && FoundAt(a + b + c + d, |a| + |b|, c)
    ensures forall at: nat, text: string :: FoundAt(a, at, text) ==> FoundAt(a + b + c + d, at, text)
  {
    FoundEnd(a, b);
    FoundLater(a + b, c, |a|, b);
    FoundLater(a + b + c, d, |a|, b);
    FoundEnd(a + b, c);
    FoundLater(a + b + c, d, |a| + |b|, c);
    forall at: nat, text: string | FoundAt(a, at, text)
      ensures FoundAt(a + b + c + d, at, text)
    {
      FoundLater(a, b, at, text);
      FoundLater(a + b, c, at, text);
      FoundLater(a + b + c, d, at, text);
    }
  }

  lemma {:induction false} ObjectInBody(objects: seq<string>, k: nat, n: nat)
    requires 1 <= k < n <= |objects|
    ensures FoundAt(Body(objects, n), |Body(objects, k)|, Written(k, objects[k]))
    decreases n
  {
    if k == n - 1 {
      FoundEnd(Body(objects, k), Written(k, objects[k]));
    } else {
      ObjectInBody(objects, k, n - 1);
      FoundLater(Body(objects, n - 1), Written(n - 1, objects[n - 1]), |Body(objects, k)|, Written(k, objects[k]));
    }
  }

  /** Every offset that the table has to hold is below the largest a ten-digit field can. */
  predicate OffsetsFit(objects: seq<string>)
    requires |objects| >= 1
  {
    |Body(objects, |objects|)| <= Pow10(10)
  }

  lemma {:induction false} BodyGrows(objects: seq<string>, k: nat, n: nat)
    requires 1 <= k <= n <= |objects|
    ensures |Body(objects, k)| <= |Body(objects, n)| && (k < n ==> |Body(objects, k)| < |Body(objects, n)|)
    decreases n
  {
    if k < n {
      BodyGrows(objects, k, n - 1);
    }
  }

  lemma EntryTwenty(objects: seq<string>, n: nat)
    requires 1 <= n < |objects| && OffsetsFit(objects)
    ensures |Body(objects, n)| < Pow10(10) && |Entry(|Body(objects, n)|)| == 20
  {
    BodyGrows(objects, n, |objects|);
    PadLength(|Body(objects, n)|, 10);
  }

  lemma {:induction false} EntriesLength(objects: seq<string>, n: nat)
    requires 1 <= n <= |objects| && OffsetsFit(objects)
    ensures |Entries(objects, n)| == 20 * (n - 1)
  {
    if n > 1 {
      EntriesLength(objects, n - 1);
      EntryTwenty(objects, n - 1);
    }
  }

  lemma {:induction false} EntryAt(objects: seq<string>, k: nat, n: nat)
    requires 1 <= k < n <= |objects| && OffsetsFit(objects)
    ensures FoundAt(Entries(objects, n), 20 * (k - 1), Entry(|Body(objects, k)|))
    decreases n
  {
    EntriesLength(objects, n - 1);
    var last := Entry(|Body(objects, n - 1)|);
    if k == n - 1 {
      FoundEnd(Entries(objects, k), last);
    } else {
      EntryAt(objects, k, n - 1);
      FoundLater(Entries(objects, n - 1), last, 20 * (k - 1), Entry(|Body(objects, k)|));
    }
  }

  /** What comes before the table's first entry. */
  function TableAt(objects: seq<string>): nat
    requires |objects| >= 1
  {
    |Body(objects, |objects|)| + |XrefStart(|objects|)|
  }

  /** Entry `n` of the table of a file: twenty bytes each, section 7.5.4 of ISO 32000-1. */
  function EntryOf(file: string, table: nat, n: nat): string
    requires table + 20 * n + 20 <= |file|
  {
    file[table + 20 * n..table + 20 * n + 20]
  }

  lemma Prefixed(a: string, b: string, at: nat, text: string)
    requires FoundAt(b, at, text)
    ensures FoundAt(a + b, |a| + at, text)
  {
    assert (a + b)[|a| + at..] == b[at..];
  }

  lemma FoundWithin(file: string, at: nat, part: string, offset: nat, text: string)
    requires FoundAt(file, at, part) && FoundAt(part, offset, text)
    ensures FoundAt(file, at + offset, text)
  {
    var rest := file[at..];
    assert rest == part + rest[|part|..];
    FoundLater(part, rest[|part|..], offset, text);
    assert rest[offset..] == file[at + offset..];
  }

  lemma EntryInFile(objects: seq<string>, rootId: nat, n: nat)
    requires 1 <= n < |objects| && OffsetsFit(objects)
    ensures FoundAt(File(objects, rootId), TableAt(objects) + 20 * n, Entry(|Body(objects, n)|))
  {
    var count, entry := |objects|, Entry(|Body(objects, n)|);
    PartsFound(Body(objects, count), XrefStart(count), Table(objects), Trailer(count, rootId, |Body(objects, count)|));
    EntryAt(objects, n, count);
    assert |FREE_ENTRY| == 20;
    Prefixed(FREE_ENTRY, Entries(objects, count), 20 * (n - 1), entry);
    FoundWithin(File(objects, rootId), TableAt(objects), Table(objects), 20 * n, entry);
  }

  lemma ObjectInFile(objects: seq<string>, rootId: nat, n: nat)
    requires 1 <= n < |objects|
    ensures FoundAt(File(objects, rootId), |Body(objects, n)|, Written(n, objects[n]))
  {
    var count := |objects|;
    ObjectInBody(objects, n, count);
    PartsFound(Body(objects, count), XrefStart(count), Table(objects), Trailer(count, rootId, |Body(objects, count)|));
  }

  /** A table entry in use: ten digits, generation 0, and those digits are where the object stands. */
  predicate PointsAt(entry: string, file: string, written: string) {
    && |entry| == 20 && AllDigits(entry[..10]) && entry[10..] == " 00000 n \n"
    && FoundAt(file, Parse(entry[..10]), written)
  }

  lemma EntryPointsAt(offset: nat, file: string, written: string)
    requires |Entry(offset)| == 20 && FoundAt(file, offset, written)
    ensures PointsAt(Entry(offset), file, written)
  {
    var digits := Pad(offset, 10);
    assert |digits| == 10;
    ParsePad(offset, 10);
    assert Entry(offset)[..10] == digits;
  }

  lemma EntryRead(file: string, at: nat, entry: string)
    requires FoundAt(file, at, entry) && |entry| == 20
    ensures at + 20 <= |file| && file[at..at + 20] == entry
  {
    SliceFound(file, at, entry, 0, 20);
    assert entry[0..20] == entry;
  }

  /** Entry n of the cross-reference table is twenty bytes long and holds the byte position at which
      `n 0 obj` stands, for every object, while offsets stay below 10^10. */
  lemma EntriesPointAtObjects(objects: seq<string>, rootId: nat, n: nat)
    requires 1 <= n < |objects| && OffsetsFit(objects)
    ensures TableAt(objects) + 20 * n + 20 <= |File(objects, rootId)|
    ensures PointsAt(EntryOf(File(objects, rootId), TableAt(objects), n), File(objects, rootId), Written(n, objects[n]))
  {
    hide File, Body, Table, TableAt, Entries, Entry, Written, FoundAt, PointsAt;
    var offset, file, at := |Body(objects, n)|, File(objects, rootId), TableAt(objects) + 20 * n;
    EntryTwenty(objects, n);
    ObjectInFile(objects, rootId, n);
    EntryPointsAt(offset, file, Written(n, objects[n]));
    EntryInFile(objects, rootId, n);
    EntryRead(file, at, Entry(offset));
  }

  /** Entries stop being twenty bytes exactly at offset 10^10. */
  lemma EntryLength(offset: nat)
    ensures |Entry(offset)| == 20 <==> offset < Pow10(10)
  {
    PadLength(offset, 10);
  }

  /** `startxref`, read from the end of the file, section 7.5.5. */
  function ReadStartXref(file: string): Option<nat> {
    if |file| < |EOF_MARK| || file[|file| - |EOF_MARK|..] != EOF_MARK then None
    else
      var head := file[..|file| - |EOF_MARK|];
      var k := DigitTail(head);
      if k == 0 then None else Some(Parse(head[|head| - k..]))
  }

  lemma TailRead(head: string, x: nat)
    requires head != "" && head[|head| - 1] == '\n'
    ensures ReadStartXref(head + Dec(x) + EOF_MARK) == Some(x)
  {
    var file := head + Dec(x) + EOF_MARK;
    assert file[|file| - |EOF_MARK|..] == EOF_MARK;
    assert file[..|file| - |EOF_MARK|] == head + Dec(x);
    DigitTailOf(head, Dec(x));
    assert (head + Dec(x))[|head|..] == Dec(x);
    ParseDec(x);
  }

  lemma Regroup(a: string, b: string, c: string, d: string, e: string, f: string)
    ensures a + b + c + (d + e + f) == (a + b + c + d) + e + f
  {
  }

  /** What follows `startxref` is the position of the table, whose count is the number of the last
      object plus one. */
  lemma StartXrefIsXref(objects: seq<string>, rootId: nat)
    requires |objects| >= 1
    ensures var file := File(objects, rootId);
      && ReadStartXref(file).Some?
      && FoundAt(file, ReadStartXref(file).value, XrefStart(|objects|))
      && FoundAt(file, ReadStartXref(file).value + |XrefStart(|objects|)|, Table(objects))
      && FoundAt(file, ReadStartXref(file).value + |XrefStart(|objects|)| + |Table(objects)|,
                 BeforeXref(|objects|, rootId))
  {
    var n := |objects|;
    var b, x, t := Body(objects, n), XrefStart(n), Table(objects);
    PartsFound(b, x, t, Trailer(n, rootId, |b|));
    var head := b + x + t + BeforeXref(n, rootId);
    assert BeforeXref(n, rootId)[|BeforeXref(n, rootId)| - 1] == '\n';
    Regroup(b, x, t, BeforeXref(n, rootId), Dec(|b|), EOF_MARK);
    FoundEnd(b + x + t, BeforeXref(n, rootId));
    FoundLater(head, Dec(|b|), |b + x + t|, BeforeXref(n, rootId));
    FoundLater(head + Dec(|b|), EOF_MARK, |b + x + t|, BeforeXref(n, rootId));
    TailRead(head, |b|);
  }

  /** A stream object read by its `/Length`, section 7.3.8. */
  function ReadStream(obj: string): Option<string> {
    var head, middle, end := "<< /Length ", " >>\nstream\n", "\nendstream";
    if !(head <= obj) then None
    else
      var k := DigitRun(obj[|head|..]);
      var n := Parse(obj[|head|..][..k]);
      var rest := obj[|head| + k..];
      if middle <= rest && |rest| == |middle| + n + |end| && rest[|middle| + n..] == end
      then Some(rest[|middle|..|middle| + n]) else None
  }

  /** Its length is its byte count, so a reader gets the stream back, whatever bytes it holds. */
  lemma StreamReadsBack(stream: string)
    ensures ReadStream(StreamObject(stream)) == Some(stream)
  {
    var obj := StreamObject(stream);
    var head, middle, end := "<< /Length ", " >>\nstream\n", "\nendstream";
    var d := Dec(|stream|);
    assert obj == head + (d + (middle + stream + end));
    assert obj[|head|..] == d + (middle + stream + end);
    assert !IsDigit((middle + stream + end)[0]);
    DigitRunOf(d, middle + stream + end);
    assert obj[|head|..][..|d|] == d;
    ParseDec(|stream|);
    assert obj[|head| + |d|..] == middle + stream + end;
  }

  /** The ids are one too high: `/Contents` of page i names the number under which the page itself is
      written, and `/Root` names the number after the last one, which the table does not hold. */
  lemma IdsAreShifted(objects: seq<string>, streams: seq<string>, l: Layout, i: nat)
    requires AreObjects(objects, streams, l) && i < |streams|
    ensures 0 < ContentId(i) - 1 < ContentId(i) < |objects|
    ensures objects[ContentId(i) - 1] == StreamObject(streams[i])
    ensures objects[ContentId(i)] == PageObject(PagesId(|streams|), FontId(|streams|), ContentId(i), l)
    ensures CatalogId(|streams|) == |objects|
  {
    assert ContentId(i) == PageId(i) - 1;
  }
}
