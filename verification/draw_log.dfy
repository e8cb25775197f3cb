/** The part of pdf-lib the renderers use: pages are added to a document and text is drawn on a page at
    a position, in a size and a face. The document is modelled by its page count and the log of drawText
    calls; fonts, colours and the saved bytes are not modelled. */
module DrawLog {
  import opened Base

  /** One drawText call: the page object it went to, the text and its placement; `bold` tells the bold
      face from the regular one. */
  datatype Draw = Draw(page: nat, text: string, x: int, y: int, size: int, bold: bool)

  /** A PDF document as the renderers see it: a page count and a log of text draws. */
  class Document {
    var pageCount: nat
    var log: seq<Draw>

    constructor ()
      ensures pageCount == 0 && log == []
    {
      pageCount := 0;
      log := [];
    }

    method AddPage()
      modifies this
      ensures pageCount == old(pageCount) + 1 && log == old(log)
    {
      pageCount := pageCount + 1;
    }

    method DrawText(page: nat, text: string, x: int, y: int, size: int, bold: bool)
      requires page < pageCount
      modifies this
      ensures log == old(log) + [Draw(page, text, x, y, size, bold)] && pageCount == old(pageCount)
    {
      log := log + [Draw(page, text, x, y, size, bold)];
    }
  }

  // ---- reading a log ----

  /** The lines drawn in size `size`, in order. */
  function Texts(ds: seq<Draw>, size: int): (r: seq<string>)
    ensures |r| <= |ds|
  {
    if ds == [] then [] else (if ds[0].size == size then [ds[0].text] else []) + Texts(ds[1..], size)
  }

  lemma {:induction false} TextsAppend(a: seq<Draw>, b: seq<Draw>, size: int)
    ensures Texts(a + b, size) == Texts(a, size) + Texts(b, size)
  {
    if a == [] {
      assert a + b == b;
    } else {
      var head := if a[0].size == size then [a[0].text] else [];
      assert (a + b)[0] == a[0] && (a + b)[1..] == a[1..] + b;
      TextsAppend(a[1..], b, size);
      AppendAssoc(head, Texts(a[1..], size), Texts(b, size));
    }
  }

  /** Each line is drawn strictly below the one before it. */
  predicate Descending(ds: seq<Draw>)
  {
    forall i, j :: 0 <= i < j < |ds| ==> ds[j].y < ds[i].y
  }

  /** Every draw is on the first page, at margin `x`, with its baseline between `lo` and `hi`. */
  predicate Placed(ds: seq<Draw>, x: int, lo: int, hi: int)
  {
    forall i :: 0 <= i < |ds| ==> ds[i].page == 0 && ds[i].x == x && lo <= ds[i].y <= hi
  }

  /** Two descending runs, the second entirely below `m` and the first above it, descend together. */
  lemma Stacked(a: seq<Draw>, b: seq<Draw>, m: int)
    requires Descending(a) && Descending(b)
    requires forall i :: 0 <= i < |a| ==> a[i].y > m
    requires forall j :: 0 <= j < |b| ==> b[j].y <= m
    ensures Descending(a + b)
  {
    forall i, j | 0 <= i < j < |a + b|
      ensures (a + b)[j].y < (a + b)[i].y
    {
      if j < |a| {
      } else if i < |a| {
        assert (a + b)[j] == b[j - |a|];
      } else {
        assert (a + b)[j] == b[j - |a|] && (a + b)[i] == b[i - |a|];
      }
    }
  }

  lemma PlacedAppend(a: seq<Draw>, b: seq<Draw>, x: int, lo: int, hi: int)
    requires Placed(a, x, lo, hi) && Placed(b, x, lo, hi)
    ensures Placed(a + b, x, lo, hi)
  {
    forall i | |a| <= i < |a + b|
      ensures (a + b)[i] == b[i - |a|]
    {
    }
  }
}
