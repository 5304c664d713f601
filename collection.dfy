/**
 * The collection loop of the translation script: one pass over the blocks of a
 * page dictionary that gathers the non-blank text spans and the image blocks.
 *
 * The specification functions below follow the loop's own shape (append at the
 * end); the reference definitions further down read the page as one flat list
 * of spans in document order, and lemmas connect the two.
 */
module Collection {
  import opened PageModel
  import opened Whitespace

  /** The span record the script builds from a raw span. */
  function Collected(r: RawSpan): Span {
    Span(r.origin, r.text, r.size, r.font, r.flags)
  }

  /** A raw span survives the `txt.strip()` test. */
  predicate Kept(r: RawSpan) {
    Strip(r.text) != []
  }

  /** The spans collected from the spans of one line. */
  function LineSpans(rs: seq<RawSpan>): seq<Span>
    decreases |rs|
  {
    if rs == [] then []
    else LineSpans(rs[..|rs| - 1]) + (if Kept(rs[|rs| - 1]) then [Collected(rs[|rs| - 1])] else [])
  }

  /** The spans collected from a sequence of lines. */
  function LinesSpans(ls: seq<Line>): seq<Span>
    decreases |ls|
  {
    if ls == [] then [] else LinesSpans(ls[..|ls| - 1]) + LineSpans(ls[|ls| - 1].spans)
  }

  /** The spans one block contributes. */
  function BlockSpans(b: Block): seq<Span> {
    if b.Kind() == 0 then LinesSpans(b.lines) else []
  }

  /** The `spans` list after the loop has visited `bs`. */
  function PageSpans(bs: seq<Block>): seq<Span>
    decreases |bs|
  {
    if bs == [] then [] else PageSpans(bs[..|bs| - 1]) + BlockSpans(bs[|bs| - 1])
  }

  /**
   * The image one block contributes: a byte string is taken as it is, an `xref`
   * dictionary whose `xref` is an integer is taken if extraction yields bytes,
   * and nothing else is taken.
   */
  function BlockImage(b: Block, extract: Extractor): (r: Option<ImageEntry>)
    ensures r.Some? <==>
      b.Kind() == 1 &&
      (b.image.RawImage? || (b.image.XrefDict? && b.image.xref.IntXref? && extract(b.image.xref.xref).Some?))
    ensures r.Some? ==> r.value.bbox == b.bbox
    ensures r.Some? && b.image.RawImage? ==> r.value.data == b.image.bytes
    ensures r.Some? && b.image.XrefDict? ==> r.value.data == extract(b.image.xref.xref).value
  {
    match b
    case ImageBlock(bbox, XrefDict(IntXref(x))) =>
      (match extract(x)
       case Some(data) => Some(ImageEntry(bbox, data))
       case None => None)
    case ImageBlock(bbox, RawImage(data)) => Some(ImageEntry(bbox, data))
    case _ => None
  }

  /** The `image_blocks` list after the loop has visited `bs`. */
  function PageImages(bs: seq<Block>, extract: Extractor): seq<ImageEntry>
    decreases |bs|
  {
    if bs == [] then []
    else
      var last := BlockImage(bs[|bs| - 1], extract);
      PageImages(bs[..|bs| - 1], extract) + (if last.Some? then [last.value] else [])
  }

  lemma LineSpansStep(rs: seq<RawSpan>, k: nat)
    requires k < |rs|
    ensures LineSpans(rs[..k + 1]) == LineSpans(rs[..k]) + (if Kept(rs[k]) then [Collected(rs[k])] else [])
  {
    assert rs[..k + 1][..k] == rs[..k];
  }

  lemma LinesSpansStep(ls: seq<Line>, j: nat)
    requires j < |ls|
    ensures LinesSpans(ls[..j + 1]) == LinesSpans(ls[..j]) + LineSpans(ls[j].spans)
  {
    assert ls[..j + 1][..j] == ls[..j];
  }

  lemma PageStep(bs: seq<Block>, i: nat, extract: Extractor)
    requires i < |bs|
    ensures PageSpans(bs[..i + 1]) == PageSpans(bs[..i]) + BlockSpans(bs[i])
    ensures PageImages(bs[..i + 1], extract) ==
      PageImages(bs[..i], extract) + (if BlockImage(bs[i], extract).Some? then [BlockImage(bs[i], extract).value] else [])
  {
    assert bs[..i + 1][..i] == bs[..i];
  }

  /**
   * The collection loop over the blocks of a page: image blocks append to
   * `images`, text blocks append their non-blank spans to `spans`, and blocks
   * of any other type are passed over.
   */
  method CollectPage(blocks: seq<Block>, extract: Extractor) returns (spans: seq<Span>, images: seq<ImageEntry>)
    ensures spans == PageSpans(blocks)
    ensures images == PageImages(blocks, extract)
  {
    spans, images := [], [];
    for i := 0 to |blocks|
      invariant spans == PageSpans(blocks[..i])
      invariant images == PageImages(blocks[..i], extract)
    {
      var block := blocks[i];
      var bbox := block.bbox;
      if block.Kind() == 1 {
        var img := block.image;
        if img.XrefDict? {
          var xref := img.xref;
          if xref.IntXref? {
            var imgBytes := extract(xref.xref);
            if imgBytes.Some? {
              images := images + [ImageEntry(bbox, imgBytes.value)];
            }
          }
        } else if img.RawImage? {
          images := images + [ImageEntry(bbox, img.bytes)];
        }
      } else if block.Kind() == 0 {
        spans := CollectTextBlock(block.lines, spans);
      }
      PageStep(blocks, i, extract);
    }
    assert blocks[..|blocks|] == blocks;
  }

  /** The loop over the lines of a text block. */
  method CollectTextBlock(lines: seq<Line>, spans0: seq<Span>) returns (spans: seq<Span>)
    ensures spans == spans0 + LinesSpans(lines)
  {
    spans := spans0;
    for j := 0 to |lines|
      invariant spans == spans0 + LinesSpans(lines[..j])
    {
      ghost var lineStart := spans;
      spans := CollectLine(lines[j].spans, spans);
      LinesSpansStep(lines, j);
      assert spans == spans0 + (LinesSpans(lines[..j]) + LineSpans(lines[j].spans));
    }
    assert lines[..|lines|] == lines;
  }

  /**
   * The loop over the spans of a line: a span whose text strips to nothing is
   * skipped, any other is appended as a copy.
   */
  method CollectLine(line: seq<RawSpan>, spans0: seq<Span>) returns (spans: seq<Span>)
    ensures spans == spans0 + LineSpans(line)
  {
    spans := spans0;
    for k := 0 to |line|
      invariant spans == spans0 + LineSpans(line[..k])
    {
      var span := line[k];
      LineSpansStep(line, k);
      var txt := span.text;
      if Strip(txt) == [] {
        continue;
      }
      spans := spans + [Span(span.origin, txt, span.size, span.font, span.flags)];
      assert spans == spans0 + (LineSpans(line[..k]) + [Collected(span)]);
    }
    assert line[..|line|] == line;
  }

  // ---------------------------------------------------------------------------
  // Reference reading: the page as one flat list of raw spans in document order.

  /** The raw spans of a sequence of lines, line after line. */
  function LinesText(ls: seq<Line>): seq<RawSpan> {
    if ls == [] then [] else ls[0].spans + LinesText(ls[1..])
  }

  /** Every raw span of the page, in block, line, span order. */
  function DocumentSpans(bs: seq<Block>): seq<RawSpan> {
    if bs == [] then []
    else (if bs[0].TextBlock? then LinesText(bs[0].lines) else []) + DocumentSpans(bs[1..])
  }

  /** The raw spans that carry a visible character, copied, in order. */
  ghost function KeepVisible(rs: seq<RawSpan>): seq<Span> {
    if rs == [] then []
    else (if HasVisible(rs[0].text) then [Collected(rs[0])] else []) + KeepVisible(rs[1..])
  }

  /** Every span in the list has a character that is not whitespace. */
  ghost predicate AllVisible(ss: seq<Span>) {
    forall k :: 0 <= k < |ss| ==> HasVisible(ss[k].text)
  }

  /** The blocks of `bs` whose type code is `kind`, in order. */
  function OfKind(bs: seq<Block>, kind: int): seq<Block>
    decreases |bs|
  {
    if bs == [] then []
    else OfKind(bs[..|bs| - 1], kind) + (if bs[|bs| - 1].Kind() == kind then [bs[|bs| - 1]] else [])
  }

  lemma {:induction false} KeepVisibleAppend(a: seq<RawSpan>, b: seq<RawSpan>)
    ensures KeepVisible(a + b) == KeepVisible(a) + KeepVisible(b)
    decreases |a|
  {
    if a == [] {
      assert a + b == b;
    } else {
      var head := if HasVisible(a[0].text) then [Collected(a[0])] else [];
      assert (a + b)[0] == a[0];
      assert (a + b)[1..] == a[1..] + b;
      KeepVisibleAppend(a[1..], b);
      calc {
        KeepVisible(a + b);
        head + KeepVisible(a[1..] + b);
        head + (KeepVisible(a[1..]) + KeepVisible(b));
        (head + KeepVisible(a[1..])) + KeepVisible(b);
      }
    }
  }

  lemma {:induction false} LineSpansKeepVisible(rs: seq<RawSpan>)
    ensures LineSpans(rs) == KeepVisible(rs)
    decreases |rs|
  {
    if rs != [] {
      var init, last := rs[..|rs| - 1], rs[|rs| - 1];
      LineSpansKeepVisible(init);
      KeepVisibleAppend(init, [last]);
      assert init + [last] == rs;
    }
  }

  lemma {:induction false} LinesTextSnoc(ls: seq<Line>, l: Line)
    ensures LinesText(ls + [l]) == LinesText(ls) + l.spans
    decreases |ls|
  {
    if ls == [] {
      assert ls + [l] == [l];
    } else {
      assert (ls + [l])[1..] == ls[1..] + [l];
      LinesTextSnoc(ls[1..], l);
    }
  }

  lemma {:induction false} LinesSpansKeepVisible(ls: seq<Line>)
    ensures LinesSpans(ls) == KeepVisible(LinesText(ls))
    decreases |ls|
  {
    if ls != [] {
      var init, last := ls[..|ls| - 1], ls[|ls| - 1];
      LinesSpansKeepVisible(init);
      LineSpansKeepVisible(last.spans);
      LinesTextSnoc(init, last);
      KeepVisibleAppend(LinesText(init), last.spans);
      assert init + [last] == ls;
    }
  }

  lemma {:induction false} DocumentSpansSnoc(bs: seq<Block>, b: Block)
    ensures DocumentSpans(bs + [b]) == DocumentSpans(bs) + (if b.TextBlock? then LinesText(b.lines) else [])
    decreases |bs|
  {
    if bs == [] {
      assert bs + [b] == [b];
    } else {
      assert (bs + [b])[1..] == bs[1..] + [b];
      DocumentSpansSnoc(bs[1..], b);
    }
  }

  /**
   * The collected spans are exactly the raw spans of the page that carry a
   * visible character, copied field for field, in block, line, span order:
   * nothing is reordered, duplicated or invented.
   */
  lemma {:induction false} SpansInDocumentOrder(bs: seq<Block>)
    ensures PageSpans(bs) == KeepVisible(DocumentSpans(bs))
    decreases |bs|
  {
    if bs != [] {
      var init, last := bs[..|bs| - 1], bs[|bs| - 1];
      SpansInDocumentOrder(init);
      DocumentSpansSnoc(init, last);
      assert init + [last] == bs;
      if last.TextBlock? {
        LinesSpansKeepVisible(last.lines);
        KeepVisibleAppend(DocumentSpans(init), LinesText(last.lines));
      } else {
        KeepVisibleAppend(DocumentSpans(init), []);
      }
    }
  }

  lemma {:induction false} KeepVisibleAllVisible(rs: seq<RawSpan>)
    ensures AllVisible(KeepVisible(rs))
    decreases |rs|
  {
    if rs != [] {
      KeepVisibleAllVisible(rs[1..]);
    }
  }

  /** Every collected span has at least one character that is not whitespace. */
  lemma CollectedSpansVisible(bs: seq<Block>)
    ensures AllVisible(PageSpans(bs))
  {
    SpansInDocumentOrder(bs);
    KeepVisibleAllVisible(DocumentSpans(bs));
  }

  /** Only blocks of type 0 contribute text spans. */
  lemma {:induction false} SpansOnlyFromTextBlocks(bs: seq<Block>)
    ensures PageSpans(bs) == PageSpans(OfKind(bs, 0))
    decreases |bs|
  {
    if bs != [] {
      var init, last := bs[..|bs| - 1], bs[|bs| - 1];
      SpansOnlyFromTextBlocks(init);
      var prev := OfKind(init, 0);
      if last.Kind() == 0 {
        var f := prev + [last];
        assert OfKind(bs, 0) == f;
        assert f[..|f| - 1] == prev;
        assert PageSpans(f) == PageSpans(prev) + BlockSpans(last);
      } else {
        assert OfKind(bs, 0) == prev;
        assert BlockSpans(last) == [];
        assert PageSpans(bs) == PageSpans(init);
      }
    }
  }

  /** Only blocks of type 1 contribute images. */
  lemma {:induction false} ImagesOnlyFromImageBlocks(bs: seq<Block>, extract: Extractor)
    ensures PageImages(bs, extract) == PageImages(OfKind(bs, 1), extract)
    decreases |bs|
  {
    if bs != [] {
      var init, last := bs[..|bs| - 1], bs[|bs| - 1];
      ImagesOnlyFromImageBlocks(init, extract);
      var prev := OfKind(init, 1);
      var tail := if BlockImage(last, extract).Some? then [BlockImage(last, extract).value] else [];
      if last.Kind() == 1 {
        var f := prev + [last];
        assert OfKind(bs, 1) == f;
        assert f[..|f| - 1] == prev;
        assert PageImages(f, extract) == PageImages(prev, extract) + tail;
      } else {
        assert OfKind(bs, 1) == prev;
        assert tail == [];
        assert PageImages(bs, extract) == PageImages(init, extract);
      }
    }
  }

  /**
   * For each collected image, the index of the block it came from. Entry `k`
   * comes from block `src[k]`, the indices strictly increase (collection order,
   * no duplicates), and every block that yields an image is among them.
   */
  function ImageSources(bs: seq<Block>, extract: Extractor): (src: seq<nat>)
    ensures |src| == |PageImages(bs, extract)|
    ensures forall k :: 0 <= k < |src| ==>
      src[k] < |bs| && BlockImage(bs[src[k]], extract) == Some(PageImages(bs, extract)[k])
    ensures forall k, l :: 0 <= k < l < |src| ==> src[k] < src[l]
    ensures forall i :: 0 <= i < |bs| && BlockImage(bs[i], extract).Some? ==> i in src
    decreases |bs|
  {
    if bs == [] then []
    else
      var n := |bs| - 1;
      var init := bs[..n];
      var prev := ImageSources(init, extract);
      assert forall k :: 0 <= k < |prev| ==> init[prev[k]] == bs[prev[k]];
      assert forall i :: 0 <= i < n ==> init[i] == bs[i];
      prev + (if BlockImage(bs[n], extract).Some? then [n] else [])
  }
}
