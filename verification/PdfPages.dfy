/** Cutting a page range out of a PDF by deleting the other pages in place. */
module PdfPages {
  import opened Basics

  datatype Page = Page(content: string)

  /** Pages start..end of a document, clipped at its end. */
  function Slice(doc: seq<Page>, start: int, end: int): seq<Page>
    requires 1 <= start <= end && start - 1 <= |doc|
  {
    doc[start - 1..Min(end, |doc|)]
  }

  /** A loaded document: deleting a page that does not exist is an error. */
  class Document {
    var pages: seq<Page>

    constructor (source: seq<Page>)
      ensures pages == source
    {
      pages := source;
    }

    method Delete(number: int) returns (ok: bool)
      modifies this
      ensures ok == (1 <= number <= |old(pages)|)
      ensures pages == if ok then old(pages)[..number - 1] + old(pages)[number..] else old(pages)
    {
      ok := 1 <= number <= |pages|;
      if ok {
        pages := pages[..number - 1] + pages[number..];
      }
    }

    /** Deletes what follows the range, from the end backwards. */
    method DeleteAfter(end: nat)
      modifies this
      ensures pages == old(pages)[..Min(end, |old(pages)|)]
    {
      ghost var source := pages;
      var i := |pages|;
      while i > end
        invariant Min(end, |source|) <= i <= |source|
        invariant pages == source[..i]
      {
        assert source[..i][..i - 1] + source[..i][i..] == source[..i - 1];
        var deleted := Delete(i);
        i := i - 1;
      }
    }

    /** Deletes what precedes the range, always at position one; fails when it runs out of pages. */
    method DeleteBefore(start: nat) returns (ok: bool)
      requires start >= 1
      modifies this
      ensures ok == (start - 1 <= |old(pages)|)
      ensures ok ==> pages == old(pages)[start - 1..]
    {
      ghost var source := pages;
      var i := 1;
      while i < start
        invariant 1 <= i <= start && i - 1 <= |source|
        invariant pages == source[i - 1..]
      {
        var deleted := Delete(1);
        if !deleted {
          return false;
        }
        assert source[i - 1..][..0] + source[i - 1..][1..] == source[i..];
        i := i + 1;
      }
      return true;
    }

    method KeepRange(start: int, end: int) returns (ok: bool)
      requires 1 <= start <= end
      modifies this
      ensures ok == (start - 1 <= |old(pages)|)
      ensures ok ==> pages == Slice(old(pages), start, end)
    {
      if start == 1 && end >= |pages| {
        return true;
      }
      DeleteAfter(end);
      ok := DeleteBefore(start);
    }
  }

  /** Reloads the source and keeps the range: what one render writes to its output file. */
  method RenderRange(source: seq<Page>, start: int, end: int) returns (output: Option<seq<Page>>)
    requires 1 <= start <= end
    ensures output.Some? <==> start - 1 <= |source|
    ensures output.Some? ==> output.value == Slice(source, start, end)
  {
    var document := new Document(source);
    var ok := document.KeepRange(start, end);
    output := if ok then Some(document.pages) else None;
  }

  /** Adjacent ranges put the document back together. */
  lemma SlicesJoin(doc: seq<Page>, start: int, mid: int, end: int)
    requires 1 <= start <= mid < end && start - 1 <= |doc| && mid <= |doc|
    ensures Slice(doc, start, mid) + Slice(doc, mid + 1, end) == Slice(doc, start, end)
  {
  }
}
