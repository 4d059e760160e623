/**
 The object, cross-reference and trailer part of the PDF writers, against a
 reader that finds objects through the cross-reference table as section 7.5 of
 ISO 32000-1 prescribes.
 */
module PdfFile {
  import opened Wrappers
  import opened Strings
  import E = PdfEscape

  const HEADER := "%PDF-1.4\n"
  const FIRST_ENTRY := "0000000000 65535 f \n"
  const ENTRY_TAIL := " 00000 n \n"
  const PAGE := "<< /Type /Page /Parent 2 0 R /MediaBox [0 0 595.28 841.89] /Resources << /Font << /F1 4 0 R /F2 5 0 R >> >> /Contents 6 0 R >>"

  // ---- the writer ----

  function JoinLines(lines: seq<string>): string {
    if |lines| == 0 then "" else if |lines| == 1 then lines[0] else lines[0] + "\n" + JoinLines(lines[1..])
  }

  function StreamObject(stream: string): string {
    "<< /Length " + Dec(|stream|) + " >>\nstream\n" + stream + "\nendstream"
  }

  function Objects(stream: string): seq<string> {
    ["<< /Type /Catalog /Pages 2 0 R >>",
     "<< /Type /Pages /Kids [3 0 R] /Count 1 >>",
     PAGE,
     "<< /Type /Font /Subtype /Type1 /BaseFont /Helvetica >>",
     "<< /Type /Font /Subtype /Type1 /BaseFont /Helvetica-Bold >>",
     StreamObject(stream)]
  }

  function ObjectText(n: nat, obj: string): string {
    ObjectHead(n) + obj + "\nendobj\n"
  }

  /** The file up to and including its first n objects. */
  function Body(objects: seq<string>, n: nat): string
    requires n <= |objects|
  {
    if n == 0 then HEADER else Body(objects, n - 1) + ObjectText(n, objects[n - 1])
  }

  function Entry(offset: nat): string {
    PadStart(Dec(offset), 10) + ENTRY_TAIL
  }

  /** The entries of the first n objects. */
  function Entries(objects: seq<string>, n: nat): string
    requires n <= |objects|
  {
    if n == 0 then "" else Entries(objects, n - 1) + Entry(|Body(objects, n - 1)|)
  }

  function XrefHead(size: string): string {
    "xref\n0 " + size + "\n" + FIRST_ENTRY
  }

  function Trailer(size: string, xref: nat): string {
    "trailer\n<< /Size " + size + " /Root 1 0 R >>\nstartxref\n" + Dec(xref) + "\n%%EOF\n"
  }

  /** Body, table and trailer; the table starts where the body ends. */
  function Whole(body: string, size: string, entries: string): string {
    body + XrefHead(size) + entries + Trailer(size, |body|)
  }

  function File(objects: seq<string>): string {
    Whole(Body(objects, |objects|), Dec(|objects| + 1), Entries(objects, |objects|))
  }

  /** An invoice or a rate sheet as written, from the lines of its content stream. */
  function Sheet(content: seq<string>): string {
    E.Latin1(File(Objects(JoinLines(content))))
  }

  method WriteObjects(objects: seq<string>) returns (out: string, offsets: seq<nat>)
    ensures out == Body(objects, |objects|)
    ensures |offsets| == |objects| && forall j :: 0 <= j < |objects| ==> offsets[j] == |Body(objects, j)|
  {
    out := HEADER;
    offsets := [];
    for i := 0 to |objects|
      invariant out == Body(objects, i)
      invariant |offsets| == i && forall j :: 0 <= j < i ==> offsets[j] == |Body(objects, j)|
    {
      offsets := offsets + [|out|];
      out := out + ObjectText(i + 1, objects[i]);
    }
  }

  method WriteEntries(start: string, ghost objects: seq<string>, offsets: seq<nat>) returns (out: string)
    requires |offsets| == |objects| && forall j :: 0 <= j < |objects| ==> offsets[j] == |Body(objects, j)|
    ensures out == start + Entries(objects, |objects|)
  {
    out := start;
    for i := 0 to |offsets|
      invariant out == start + Entries(objects, i)
    {
      assert start + Entries(objects, i) + Entry(offsets[i]) == start + (Entries(objects, i) + Entry(offsets[i]));
      out := out + Entry(offsets[i]);
    }
  }

  /** The shared tail of buildInvoicePdf and buildRatesPdf. */
  method BuildPdf(content: seq<string>) returns (bytes: string)
    ensures bytes == Sheet(content)
  {
    var objects := Objects(JoinLines(content));
    var out, offsets := WriteObjects(objects);
    var xref := |out|;
    out := out + XrefHead(Dec(|objects| + 1));
    out := WriteEntries(out, objects, offsets);
    out := out + Trailer(Dec(|objects| + 1), xref);
    bytes := E.Latin1(out);
  }

  // ---- the reader ----

  /** The offset written after startxref, read backwards from the end of the file. */
  function StartXref(file: string): Option<nat> {
    if |file| < 7 || file[|file| - 7..] != "\n%%EOF\n" then None
    else
      var s := file[..|file| - 7];
      var n := TrailingDigits(s);
      var before := s[..|s| - n];
      if n == 0 || |before| < 10 || before[|before| - 10..] != "startxref\n" then None
      else Some(ParseDec(s[|s| - n..]))
  }

  /** Where the first entry of the table at x begins, when it starts with object 0. */
  function TableStart(file: string, x: nat): Option<nat> {
    if x > |file| || !StartsWith(file[x..], "xref\n0 ") then None
    else
      var n := LeadingDigits(file[x + 7..]);
      if x + 7 + n >= |file| || file[x + 7 + n] != '\n' then None else Some(x + 8 + n)
  }

  /** The offset in a 20-byte entry of an object in use. */
  function EntryOffset(e: string): Option<nat>
    requires |e| == 20
  {
    if AllDigits(e[..10]) && e[10..] == ENTRY_TAIL then Some(ParseDec(e[..10])) else None
  }

  function ObjectHead(n: nat): string {
    Dec(n) + " 0 obj\n"
  }

  /** The offset of object n: entries are 20 bytes each, so entry n is at a fixed place. */
  function FindObject(file: string, n: nat): Option<nat> {
    var x := StartXref(file);
    if x.None? then None
    else
      var t := TableStart(file, x.value);
      if t.None? || t.value + 20 * n + 20 > |file| then None
      else
        var o := EntryOffset(file[t.value + 20 * n..t.value + 20 * n + 20]);
        if o.Some? && o.value <= |file| && StartsWith(file[o.value..], ObjectHead(n)) then o else None
  }

  /** From the digits of /Length on: that many bytes, when the end marker follows them. */
  function ReadLength(s: string): Option<string> {
    var d := LeadingDigits(s);
    var len, rest := ParseDec(s[..d]), s[d..];
    if StartsWith(rest, " >>\nstream\n") && |rest| >= 11 + len
       && StartsWith(rest[11 + len..], "\nendstream\nendobj\n")
    then Some(rest[11..11 + len]) else None
  }

  /** The bytes of stream object n at this offset. */
  function ReadStream(file: string, offset: nat, n: nat): Option<string> {
    var head := ObjectHead(n) + "<< /Length ";
    if offset > |file| || !StartsWith(file[offset..], head) then None
    else ReadLength(file[offset..][|head|..])
  }

  /** What a reader gets by looking object n up in the table and reading its stream. */
  function LookUpStream(file: string, n: nat): Option<string> {
    var at := FindObject(file, n);
    if at.None? then None else ReadStream(file, at.value, n)
  }

  // ---- where things are ----

  lemma {:induction false} BodyPrefix(objects: seq<string>, i: nat, n: nat)
    requires i <= n <= |objects|
    ensures |Body(objects, i)| <= |Body(objects, n)| && StartsWith(Body(objects, n), Body(objects, i))
    decreases n - i
  {
    if i < n {
      BodyPrefix(objects, i, n - 1);
    }
  }

  lemma {:induction false} EntryLength(offset: nat)
    ensures |Entry(offset)| == 20 <==> offset < Pow10(10)
    ensures |Entry(offset)| == 20 ==> ParseDec(Entry(offset)[..10]) == offset && Entry(offset)[10..] == ENTRY_TAIL
  {
    DecLength(offset, 10);
    DecRoundTrip(offset);
    PadRoundTrip(Dec(offset), 10);
    if offset < Pow10(10) {
      assert Entry(offset)[..10] == PadStart(Dec(offset), 10);
    }
  }

  /** Every entry is 20 bytes if and only if every object starts below 10^10. */
  lemma EntriesAre20Bytes(objects: seq<string>)
    ensures (forall i :: 0 <= i < |objects| ==> |Entry(|Body(objects, i)|)| == 20)
            <==> (forall i :: 0 <= i < |objects| ==> |Body(objects, i)| < Pow10(10))
  {
    forall i | 0 <= i < |objects|
      ensures |Entry(|Body(objects, i)|)| == 20 <==> |Body(objects, i)| < Pow10(10)
    {
      EntryLength(|Body(objects, i)|);
    }
  }

  lemma SliceOfAppend(a: string, b: string, i: nat)
    requires |b| == 20 && 20 * i + 20 <= |a + b|
    ensures 20 * i + 20 <= |a| ==> (a + b)[20 * i..20 * i + 20] == a[20 * i..20 * i + 20]
    ensures 20 * i == |a| ==> (a + b)[20 * i..20 * i + 20] == b
  {
  }

  lemma {:induction false} EntryAt(objects: seq<string>, i: nat, n: nat)
    requires i < n <= |objects| && forall j :: 0 <= j < n ==> |Body(objects, j)| < Pow10(10)
    ensures |Entries(objects, n)| == 20 * n
    ensures Entries(objects, n)[20 * i..20 * i + 20] == Entry(|Body(objects, i)|)
    decreases n
  {
    EntryLength(|Body(objects, n - 1)|);
    if n > 1 {
      EntryAt(objects, if i < n - 1 then i else 0, n - 1);
    }
    SliceOfAppend(Entries(objects, n - 1), Entry(|Body(objects, n - 1)|), i);
  }

  lemma StartXrefRead(before: string, xref: nat)
    ensures StartXref(before + "startxref\n" + Dec(xref) + "\n%%EOF\n") == Some(xref)
  {
    var file := before + "startxref\n" + Dec(xref) + "\n%%EOF\n";
    var s := file[..|file| - 7];
    assert s == before + "startxref\n" + Dec(xref);
    assert s == (before + "startxref") + ['\n'] + Dec(xref);
    TrailingDigitsStop(before + "startxref", '\n', Dec(xref));
    assert s[|s| - |Dec(xref)|..] == Dec(xref);
    assert s[..|s| - |Dec(xref)|] == before + "startxref\n";
    DecRoundTrip(xref);
  }

  lemma TableRead(before: string, size: nat, rest: string)
    ensures TableStart(before + "xref\n0 " + Dec(size) + "\n" + rest, |before|)
            == Some(|before| + 8 + |Dec(size)|)
  {
    var file := before + "xref\n0 " + Dec(size) + "\n" + rest;
    assert file[|before|..] == "xref\n0 " + Dec(size) + "\n" + rest;
    assert file[|before| + 7..] == Dec(size) + ['\n'] + rest;
    LeadingDigitsStop(Dec(size), '\n', rest);
  }

  lemma MiddleSlice(a: string, b: string, all: string, file: string)
    requires StartsWith(all, a + b) && StartsWith(file, all)
    ensures |a| <= |file| && StartsWith(file[|a|..], b)
  {
    assert file[..|a + b|] == file[..|all|][..|a + b|] == a + b;
    assert file[|a|..][..|b|] == file[..|a + b|][|a|..];
  }

  lemma ObjectAt(objects: seq<string>, n: nat)
    requires 1 <= n <= |objects|
    ensures |Body(objects, n - 1)| <= |File(objects)|
    ensures StartsWith(File(objects)[|Body(objects, n - 1)|..], ObjectText(n, objects[n - 1]))
  {
    BodyPrefix(objects, n, |objects|);
    BodyStarts(Body(objects, |objects|), Dec(|objects| + 1), Entries(objects, |objects|));
    MiddleSlice(Body(objects, n - 1), ObjectText(n, objects[n - 1]), Body(objects, |objects|), File(objects));
  }

  lemma FourParts(a: string, b: string, c: string, d: string)
    ensures StartsWith(a + b + c + d, a)
  {
  }

  lemma BodyStarts(body: string, size: string, entries: string)
    ensures StartsWith(Whole(body, size, entries), body)
  {
    FourParts(body, XrefHead(size), entries, Trailer(size, |body|));
  }

  lemma XrefFound(body: string, size: string, entries: string)
    ensures StartXref(Whole(body, size, entries)) == Some(|body|)
  {
    var front := body + XrefHead(size) + entries + ("trailer\n<< /Size " + size + " /Root 1 0 R >>\n");
    assert Whole(body, size, entries) == front + "startxref\n" + Dec(|body|) + "\n%%EOF\n";
    StartXrefRead(front, |body|);
  }

  /** Where the first entry of the table begins. */
  function TableOffset(body: string, size: string): nat {
    |body| + 8 + |size|
  }

  lemma TableFound(body: string, n: nat, entries: string)
    ensures TableStart(Whole(body, Dec(n), entries), |body|) == Some(TableOffset(body, Dec(n)))
  {
    hide Trailer, Dec, TableStart;
    var tail := FIRST_ENTRY + (entries + Trailer(Dec(n), |body|));
    assert Whole(body, Dec(n), entries) == body + "xref\n0 " + Dec(n) + "\n" + tail;
    TableRead(body, n, tail);
  }

  lemma TableRest(body: string, size: string, entries: string)
    ensures TableOffset(body, size) <= |Whole(body, size, entries)|
    ensures Whole(body, size, entries)[TableOffset(body, size)..] == FIRST_ENTRY + (entries + Trailer(size, |body|))
  {
    var front, tail := body + "xref\n0 " + size + "\n", FIRST_ENTRY + (entries + Trailer(size, |body|));
    assert |front| == TableOffset(body, size);
    assert Whole(body, size, entries) == front + tail;
    PrefixSplit(Whole(body, size, entries), front, tail);
  }

  lemma SliceAt(f: string, t: nat, first: string, entries: string, tail: string, k: nat)
    requires t <= |f| && f[t..] == first + (entries + tail) && |first| == 20 && 20 * k + 20 <= |entries|
    ensures t + 20 * (k + 1) + 20 <= |f|
    ensures f[t + 20 * (k + 1)..t + 20 * (k + 1) + 20] == entries[20 * k..20 * k + 20]
  {
    var a := 20 * (k + 1);
    assert f[t + a..t + a + 20] == f[t..][a..a + 20];
    assert (first + (entries + tail))[a..a + 20] == (entries + tail)[a - 20..a];
  }

  lemma EntryFound(body: string, size: string, entries: string, k: nat, e: string)
    requires 20 * k + 20 <= |entries| && entries[20 * k..20 * k + 20] == e
    ensures var at := TableOffset(body, size) + 20 * (k + 1);
            at + 20 <= |Whole(body, size, entries)| && Whole(body, size, entries)[at..at + 20] == e
  {
    TableRest(body, size, entries);
    SliceAt(Whole(body, size, entries), TableOffset(body, size), FIRST_ENTRY, entries, Trailer(size, |body|), k);
  }

  lemma PrefixOfPrefix(s: string, p: string, q: string)
    requires StartsWith(s, p) && StartsWith(p, q)
    ensures StartsWith(s, q)
  {
    assert s[..|q|] == s[..|p|][..|q|];
  }

  // ---- main results ----

  /** While every object starts below 10^10, the reader finds each object at the offset it was written at. */
  lemma ObjectsFound(objects: seq<string>, n: nat)
    requires 1 <= n <= |objects|
    requires forall i :: 0 <= i < |objects| ==> |Body(objects, i)| < Pow10(10)
    ensures FindObject(File(objects), n) == Some(|Body(objects, n - 1)|)
  {
    hide FindObject, Whole, Body, Entries, Entry, ObjectHead;
    EntryAt(objects, n - 1, |objects|);
    EntryRead(|Body(objects, n - 1)|);
    ObjectHeadAt(objects, n);
    WholeFound(Body(objects, |objects|), |objects| + 1, Entries(objects, |objects|), n, |Body(objects, n - 1)|);
  }

  lemma WholeFound(body: string, size: nat, entries: string, n: nat, offset: nat)
    requires n >= 1 && 20 * n <= |entries|
    requires EntryOffset(entries[20 * (n - 1)..20 * (n - 1) + 20]) == Some(offset)
    requires var file := Whole(body, Dec(size), entries);
             offset <= |file| && StartsWith(file[offset..], ObjectHead(n))
    ensures FindObject(Whole(body, Dec(size), entries), n) == Some(offset)
  {
    hide *;
    XrefFound(body, Dec(size), entries);
    TableFound(body, size, entries);
    EntryFound(body, Dec(size), entries, n - 1, entries[20 * (n - 1)..20 * (n - 1) + 20]);
    FindSteps(Whole(body, Dec(size), entries), |body|, TableOffset(body, Dec(size)), offset, n);
  }

  lemma ObjectHeadAt(objects: seq<string>, n: nat)
    requires 1 <= n <= |objects|
    ensures |Body(objects, n - 1)| <= |File(objects)|
    ensures StartsWith(File(objects)[|Body(objects, n - 1)|..], ObjectHead(n))
  {
    ObjectAt(objects, n);
    HeadFirst(n, objects[n - 1]);
    PrefixOfPrefix(File(objects)[|Body(objects, n - 1)|..], ObjectText(n, objects[n - 1]), ObjectHead(n));
  }

  lemma EntryRead(offset: nat)
    requires offset < Pow10(10)
    ensures |Entry(offset)| == 20 && EntryOffset(Entry(offset)) == Some(offset)
  {
    EntryLength(offset);
    assert Entry(offset)[..10] == PadStart(Dec(offset), 10);
  }

  lemma FindSteps(file: string, x: nat, t: nat, offset: nat, n: nat)
    requires StartXref(file) == Some(x) && TableStart(file, x) == Some(t)
    requires t + 20 * n + 20 <= |file| && EntryOffset(file[t + 20 * n..t + 20 * n + 20]) == Some(offset)
    requires offset <= |file| && StartsWith(file[offset..], ObjectHead(n))
    ensures FindObject(file, n) == Some(offset)
  {
    hide StartXref, TableStart, EntryOffset, ObjectHead;
  }

  lemma HeadFirst(n: nat, obj: string)
    ensures StartsWith(ObjectText(n, obj), ObjectHead(n))
  {
    assert ObjectText(n, obj) == ObjectHead(n) + (obj + "\nendobj\n");
  }

  lemma NumeralRead(d: nat, after: string)
    requires after != "" && !IsDigit(after[0])
    ensures var s := Dec(d) + after;
            && LeadingDigits(s) == |Dec(d)|
            && ParseDec(s[..LeadingDigits(s)]) == d && s[LeadingDigits(s)..] == after
  {
    assert Dec(d) + after == Dec(d) + [after[0]] + after[1..];
    LeadingDigitsStop(Dec(d), after[0], after[1..]);
    DecRoundTrip(d);
    assert (Dec(d) + after)[..|Dec(d)|] == Dec(d);
  }

  lemma LengthSteps(len: nat, rest: string)
    requires StartsWith(rest, " >>\nstream\n") && |rest| >= 11 + len
    requires StartsWith(rest[11 + len..], "\nendstream\nendobj\n")
    ensures ReadLength(Dec(len) + rest) == Some(rest[11..11 + len])
  {
    assert rest[0] == " >>\nstream\n"[0] == ' ';
    NumeralRead(len, rest);
  }

  lemma LengthRead(stream: string, tail: string, rest: string)
    requires rest == " >>\nstream\n" + (stream + ("\nendstream\nendobj\n" + tail))
    ensures ReadLength(Dec(|stream|) + rest) == Some(stream)
  {
    var close := "\nendstream\nendobj\n" + tail;
    PrefixSplit(rest, " >>\nstream\n", stream + close);
    PrefixSplit(close, "\nendstream\nendobj\n", tail);
    Slices(rest, 11, stream, close);
    LengthSteps(|stream|, rest);
  }

  lemma Slices(rest: string, k: nat, stream: string, close: string)
    requires k <= |rest| && rest[k..] == stream + close
    ensures k + |stream| <= |rest| && rest[k..k + |stream|] == stream && rest[k + |stream|..] == close
  {
    assert rest[k..k + |stream|] == rest[k..][..|stream|];
    assert rest[k + |stream|..] == rest[k..][|stream|..];
  }

  lemma Regroup(h: string, o: string, d: string, m: string, s: string, e: string, f: string, t: string,
                obj: string, text: string, close: string)
    requires obj == o + d + m + s + e && text == h + obj + f && close == e + f
    ensures text + t == (h + o) + (d + (m + (s + (close + t))))
  {
  }

  lemma StreamEnd()
    ensures "\nendstream\nendobj\n" == "\nendstream" + "\nendobj\n"
  {
  }

  lemma StreamText(n: nat, stream: string, tail: string)
    ensures ObjectText(n, StreamObject(stream)) + tail
            == (ObjectHead(n) + "<< /Length ")
               + (Dec(|stream|) + (" >>\nstream\n" + (stream + ("\nendstream\nendobj\n" + tail))))
  {
    hide ObjectHead, Dec;
    StreamEnd();
    Regroup(ObjectHead(n), "<< /Length ", Dec(|stream|), " >>\nstream\n", stream, "\nendstream", "\nendobj\n", tail,
            StreamObject(stream), ObjectText(n, StreamObject(stream)), "\nendstream\nendobj\n");
  }

  /** The /Length of a stream object leads a reader to exactly the stream's bytes. */
  lemma StreamRead(file: string, offset: nat, n: nat, stream: string)
    requires offset <= |file| && StartsWith(file[offset..], ObjectText(n, StreamObject(stream)))
    ensures ReadStream(file, offset, n) == Some(stream)
  {
    hide ReadLength, Dec, ObjectHead, ObjectText, StreamObject;
    var head, text := ObjectHead(n) + "<< /Length ", ObjectText(n, StreamObject(stream));
    var tail := file[offset..][|text|..];
    var rest := " >>\nstream\n" + (stream + ("\nendstream\nendobj\n" + tail));
    assert file[offset..] == text + tail;
    StreamText(n, stream, tail);
    LengthRead(stream, tail, rest);
    PrefixSplit(file[offset..], head, Dec(|stream|) + rest);
  }

  lemma PrefixSplit(s: string, a: string, b: string)
    requires s == a + b
    ensures StartsWith(s, a) && s[|a|..] == b
  {
  }

  // ---- the bytes ----

  lemma Latin1Append(a: string, b: string)
    ensures E.Latin1(a + b) == E.Latin1(a) + E.Latin1(b)
  {
  }

  lemma Latin1Fixed(s: string)
    requires E.AllBytes(s)
    ensures E.Latin1(s) == s
  {
  }

  lemma DigitsAreBytes(s: string)
    requires AllDigits(s)
    ensures E.Latin1(s) == s
  {
  }

  lemma HeadBytes(size: string)
    requires AllDigits(size)
    ensures E.Latin1(XrefHead(size)) == XrefHead(size)
  {
    Latin1Append("xref\n0 " + size + "\n", FIRST_ENTRY);
    Latin1Append("xref\n0 " + size, "\n");
    Latin1Append("xref\n0 ", size);
    DigitsAreBytes(size);
    Latin1Fixed("xref\n0 ");
    Latin1Fixed("\n");
    Latin1Fixed(FIRST_ENTRY);
  }

  lemma TrailerBytes(size: string, xref: nat)
    requires AllDigits(size)
    ensures E.Latin1(Trailer(size, xref)) == Trailer(size, xref)
  {
    var a, b := "trailer\n<< /Size ", " /Root 1 0 R >>\nstartxref\n";
    Latin1Append(a + size + b + Dec(xref), "\n%%EOF\n");
    Latin1Append(a + size + b, Dec(xref));
    Latin1Append(a + size, b);
    Latin1Append(a, size);
    DigitsAreBytes(size);
    DigitsAreBytes(Dec(xref));
    Latin1Fixed(a);
    Latin1Fixed(b);
    Latin1Fixed("\n%%EOF\n");
  }

  lemma {:induction false} BodyBytes(objects: seq<string>, bytes: seq<string>, n: nat)
    requires |bytes| == |objects| && n <= |objects|
    requires forall i :: 0 <= i < |objects| ==> bytes[i] == E.Latin1(objects[i])
    ensures E.Latin1(Body(objects, n)) == Body(bytes, n)
  {
    if n == 0 {
      Latin1Fixed(HEADER);
    } else {
      hide Dec;
      BodyBytes(objects, bytes, n - 1);
      Latin1Append(Body(objects, n - 1), ObjectText(n, objects[n - 1]));
      Latin1Append(ObjectHead(n) + objects[n - 1], "\nendobj\n");
      Latin1Append(ObjectHead(n), objects[n - 1]);
      Latin1Append(Dec(n), " 0 obj\n");
      DigitsAreBytes(Dec(n));
      Latin1Fixed(" 0 obj\n");
      Latin1Fixed("\nendobj\n");
    }
  }

  lemma EntryBytes(offset: nat)
    ensures E.Latin1(Entry(offset)) == Entry(offset)
  {
    var p := PadStart(Dec(offset), 10);
    Latin1Append(p, ENTRY_TAIL);
    DigitsAreBytes(p);
    Latin1Fixed(ENTRY_TAIL);
  }

  lemma {:induction false} EntriesBytes(objects: seq<string>, bytes: seq<string>, n: nat)
    requires |bytes| == |objects| && n <= |objects|
    requires forall i :: 0 <= i < |objects| ==> bytes[i] == E.Latin1(objects[i])
    ensures E.Latin1(Entries(objects, n)) == Entries(bytes, n)
  {
    if n > 0 {
      EntriesBytes(objects, bytes, n - 1);
      BodyBytes(objects, bytes, n - 1);
      var at := |Body(objects, n - 1)|;
      assert at == |Body(bytes, n - 1)|;
      Latin1Append(Entries(objects, n - 1), Entry(at));
      EntryBytes(at);
    }
  }

  lemma WholeBytes(body: string, size: string, entries: string)
    requires AllDigits(size)
    ensures E.Latin1(Whole(body, size, entries)) == Whole(E.Latin1(body), size, E.Latin1(entries))
  {
    var x, t := XrefHead(size), Trailer(size, |body|);
    Latin1Append(body + x + entries, t);
    Latin1Append(body + x, entries);
    Latin1Append(body, x);
    HeadBytes(size);
    TrailerBytes(size, |body|);
  }

  /** Encoding the file as latin1 is building the file of the encoded objects. */
  lemma FileBytes(objects: seq<string>, bytes: seq<string>)
    requires |bytes| == |objects| && forall i :: 0 <= i < |objects| ==> bytes[i] == E.Latin1(objects[i])
    ensures E.Latin1(File(objects)) == File(bytes)
  {
    var n := |objects|;
    BodyBytes(objects, bytes, n);
    EntriesBytes(objects, bytes, n);
    WholeBytes(Body(objects, n), Dec(n + 1), Entries(objects, n));
  }

  lemma StreamBytes(stream: string)
    ensures E.Latin1(StreamObject(stream)) == StreamObject(E.Latin1(stream))
  {
    var h := "<< /Length " + Dec(|stream|) + " >>\nstream\n";
    Latin1Append(h + stream, "\nendstream");
    Latin1Append(h, stream);
    Latin1Fixed(h);
    Latin1Fixed("\nendstream");
  }

  /**
   In every file below 10^10 bytes, as written: each object is found at its
   cross-reference offset, with its encoded text there.
   */
  lemma PdfObjectsFound(objects: seq<string>, n: nat)
    requires 1 <= n <= |objects| && |File(objects)| < Pow10(10)
    ensures var offset := |Body(objects, n - 1)|;
            var file := E.Latin1(File(objects));
            && FindObject(file, n) == Some(offset) && offset <= |file|
            && StartsWith(file[offset..], ObjectText(n, E.Latin1(objects[n - 1])))
  {
    hide File, FindObject, Body, ObjectText, Pow10;
    var bytes := seq(|objects|, i requires 0 <= i < |objects| => E.Latin1(objects[i]));
    FileBytes(objects, bytes);
    BodyBytes(objects, bytes, n - 1);
    OffsetsBelow(bytes, File(bytes));
    ObjectsFound(bytes, n);
    ObjectAt(bytes, n);
  }

  lemma OffsetsBelow(objects: seq<string>, file: string)
    requires file == File(objects)
    ensures forall i :: 0 <= i < |objects| ==> |Body(objects, i)| <= |file|
  {
    BodyStarts(Body(objects, |objects|), Dec(|objects| + 1), Entries(objects, |objects|));
    forall i | 0 <= i < |objects|
      ensures |Body(objects, i)| <= |file|
    {
      BodyPrefix(objects, i, |objects|);
    }
  }

  lemma SixObjects(stream: string)
    ensures |Objects(stream)| == 6 && Objects(stream)[5] == StreamObject(stream)
  {
  }

  lemma LookUp(file: string, n: nat, offset: nat, stream: string)
    requires FindObject(file, n) == Some(offset) && offset <= |file|
    requires StartsWith(file[offset..], ObjectText(n, StreamObject(stream)))
    ensures LookUpStream(file, n) == Some(stream)
  {
    hide FindObject, ReadStream, ObjectText, StreamObject;
    StreamRead(file, offset, n, stream);
  }

  /**
   For every invoice or rate sheet below 10^10 bytes: going through the table to
   object 6 and reading as many bytes as its /Length says gives the content.
   */
  lemma PdfContentRead(content: seq<string>)
    requires |Sheet(content)| < Pow10(10)
    ensures LookUpStream(Sheet(content), 6) == Some(E.Latin1(JoinLines(content)))
  {
    hide JoinLines, Objects, File, FindObject, LookUpStream, StreamObject, Body, Pow10, ObjectText;
    var stream := JoinLines(content);
    var objects := Objects(stream);
    SixObjects(stream);
    PdfObjectsFound(objects, 6);
    StreamBytes(stream);
    LookUp(Sheet(content), 6, |Body(objects, 5)|, E.Latin1(stream));
  }
}
