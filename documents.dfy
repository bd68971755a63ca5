/** Documents as the directory loader hands them over, and their normalisation
    into the plain strings that are fed to the text splitter. */
module Documents {

  /** The `pageContent` of a loaded document: a string, an array of strings,
      or any other value the loader may leave there. */
  datatype PageContent = Str(text: string) | Arr(items: seq<string>) | Other

  /** A loaded document; only its `pageContent` matters to normalisation. */
  datatype Document = Document(pageContent: PageContent)

  /** The separator array contents are joined with. */
  const NewlineChar: char := '\n'
  const Newline: string := [NewlineChar]

  /** Sum of the lengths of `parts`. */
  function TotalLength(parts: seq<string>): nat
  {
    if |parts| == 0 then 0 else |parts[0]| + TotalLength(parts[1..])
  }

  /** `Array.prototype.join`: the parts in order, with `sep` between each two
      neighbours and nowhere else. */
  function Join(parts: seq<string>, sep: string): (r: string)
    ensures |parts| == 0 ==> r == ""
    ensures |parts| > 0 ==> |r| == TotalLength(parts) + (|parts| - 1) * |sep|
    ensures |parts| > 0 ==> r[..|parts[0]|] == parts[0]
  {
    if |parts| == 0 then ""
    else if |parts| == 1 then parts[0]
    else parts[0] + sep + Join(parts[1..], sep)
  }

  /** Appending a part adds exactly one separator before it: the joined text
      never ends in a separator of its own making. */
  lemma {:induction false} JoinSnoc(parts: seq<string>, last: string, sep: string)
    requires |parts| > 0
    ensures Join(parts + [last], sep) == Join(parts, sep) + sep + last
  {
    if |parts| == 1 {
      assert parts + [last] == [parts[0], last];
    } else {
      assert (parts + [last])[1..] == parts[1..] + [last];
      JoinSnoc(parts[1..], last, sep);
    }
  }

  /** Reference partner of `Join`: cut `s` at every occurrence of `c`
      (as `String.prototype.split` with a one-character separator). */
  function SplitOn(s: string, c: char): (r: seq<string>)
    ensures |r| > 0
    ensures |r| == 1 <==> c !in s
  {
    if |s| == 0 then [""]
    else if s[0] == c then [""] + SplitOn(s[1..], c)
    else
      var rest := SplitOn(s[1..], c);
      [[s[0]] + rest[0]] + rest[1..]
  }

  lemma {:induction false} SplitOnFree(s: string, c: char)
    requires c !in s
    ensures SplitOn(s, c) == [s]
  {
    if |s| > 0 {
      assert c !in s[1..];
      SplitOnFree(s[1..], c);
      assert [s[0]] + s[1..] == s;
    }
  }

  lemma {:induction false} SplitOnFirst(x: string, c: char, y: string)
    requires c !in x
    ensures SplitOn(x + [c] + y, c) == [x] + SplitOn(y, c)
  {
    var s := x + [c] + y;
    if |x| == 0 {
      assert s == [c] + y;
      assert s[1..] == y;
    } else {
      assert s[0] == x[0];
      assert s[1..] == x[1..] + [c] + y;
      assert c !in x[1..];
      SplitOnFirst(x[1..], c, y);
      assert [x[0]] + x[1..] == x;
    }
  }

  /** Joining with a one-character separator loses nothing when no part holds
      that character: cutting the result at the separator gives the parts back. */
  lemma {:induction false} SplitJoin(parts: seq<string>, c: char)
    requires |parts| > 0
    requires forall i :: 0 <= i < |parts| ==> c !in parts[i]
    ensures SplitOn(Join(parts, [c]), c) == parts
  {
    if |parts| == 1 {
      SplitOnFree(parts[0], c);
    } else {
      SplitOnFirst(parts[0], c, Join(parts[1..], [c]));
      SplitJoin(parts[1..], c);
      assert [parts[0]] + parts[1..] == parts;
    }
  }

  /** No part holds a line break. */
  predicate LineFree(parts: seq<string>)
  {
    forall i :: 0 <= i < |parts| ==> NewlineChar !in parts[i]
  }

  /** The callback of `normalizeDocuments`: one document to one string. */
  function NormalizeDocument(d: Document): (r: string)
    ensures d.pageContent.Str? ==> r == d.pageContent.text
    ensures d.pageContent.Other? ==> r == ""
    ensures d.pageContent.Arr? ==> r == Join(d.pageContent.items, Newline)
    ensures d.pageContent.Arr? && |d.pageContent.items| == 0 ==> r == ""
    ensures d.pageContent.Arr? && |d.pageContent.items| == 1 ==> r == d.pageContent.items[0]
    ensures d.pageContent.Arr? && |d.pageContent.items| > 0 ==>
              |r| == TotalLength(d.pageContent.items) + |d.pageContent.items| - 1
    ensures d.pageContent.Arr? && |d.pageContent.items| > 0 && LineFree(d.pageContent.items) ==>
              SplitOn(r, NewlineChar) == d.pageContent.items
  {
    match d.pageContent
    case Str(text) => text
    case Arr(items) =>
      if |items| > 0 && LineFree(items) then
        SplitJoin(items, NewlineChar);
        Join(items, Newline)
      else
        Join(items, Newline)
    case Other => ""
  }

  /** `normalizeDocuments`: one string per document, in order, the i-th
      string depending on the i-th document alone. */
  function NormalizeDocuments(docs: seq<Document>): (r: seq<string>)
    ensures |r| == |docs|
    ensures forall i :: 0 <= i < |docs| ==> r[i] == NormalizeDocument(docs[i])
  {
    if |docs| == 0 then []
    else [NormalizeDocument(docs[0])] + NormalizeDocuments(docs[1..])
  }

  /** Normalising a concatenation normalises each half on its own. */
  lemma NormalizeDocumentsAppend(a: seq<Document>, b: seq<Document>)
    ensures NormalizeDocuments(a + b) == NormalizeDocuments(a) + NormalizeDocuments(b)
  {
  }
}
