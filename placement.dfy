/**
 * The rewrite of one page and of the whole document: every collected image is
 * inserted again at its bbox, then every collected span is translated and
 * inserted at its origin with its size and a standard font.
 *
 * The output page is PyMuPDF's page object reduced to the list of insertions
 * made on it; the translator is a function from text to text.
 */
module Placement {
  import opened PageModel
  import opened Collection
  import FontMap

  /** One insertion on an output page. */
  datatype Placement =
    | PlaceImage(rect: Rect, stream: seq<byte>)
    | PlaceText(at: Point, text: string, fontsize: real, fontname: string)

  /** `translator.translate_text(text, ...).text` for the run's target language. */
  type Translator = string -> string

  /** An output page: its size and the insertions made on it so far. */
  class Page {
    const width: real
    const height: real
    var placements: seq<Placement>

    constructor (width: real, height: real)
      ensures this.width == width && this.height == height
      ensures placements == []
    {
      this.width := width;
      this.height := height;
      placements := [];
    }

    /** `page.insert_image(rect, stream=stream)`. */
    method InsertImage(rect: Rect, stream: seq<byte>)
      modifies this
      ensures placements == old(placements) + [PlaceImage(rect, stream)]
    {
      placements := placements + [PlaceImage(rect, stream)];
    }

    /** `page.insert_text(at, text, fontsize=fontsize, fontname=fontname)`. */
    method InsertText(at: Point, text: string, fontsize: real, fontname: string)
      modifies this
      ensures placements == old(placements) + [PlaceText(at, text, fontsize, fontname)]
    {
      placements := placements + [PlaceText(at, text, fontsize, fontname)];
    }
  }

  /** The output document: the pages added to it, in order. */
  class OutputDocument {
    var pages: seq<Page>

    constructor ()
      ensures pages == []
    {
      pages := [];
    }

    /** `new_doc.new_page(width=width, height=height)`. */
    method NewPage(width: real, height: real) returns (page: Page)
      modifies this
      ensures fresh(page)
      ensures page.width == width && page.height == height && page.placements == []
      ensures pages == old(pages) + [page]
    {
      page := new Page(width, height);
      pages := pages + [page];
    }
  }

  /** The insertion made for one collected span. */
  function PlaceSpan(span: Span, translate: Translator): Placement {
    PlaceText(span.origin, translate(span.text), span.size, FontMap.StandardFont(span.font))
  }

  /** The insertions made by the image loop, one per loop step. */
  function ImagePlan(images: seq<ImageEntry>): seq<Placement>
    decreases |images|
  {
    if images == [] then []
    else
      var last := images[|images| - 1];
      ImagePlan(images[..|images| - 1]) + [PlaceImage(last.bbox, last.data)]
  }

  /** The insertions made by the text loop, one per loop step. */
  function TextPlan(spans: seq<Span>, translate: Translator): seq<Placement>
    decreases |spans|
  {
    if spans == [] then [] else TextPlan(spans[..|spans| - 1], translate) + [PlaceSpan(spans[|spans| - 1], translate)]
  }

  /** Everything inserted on the output page for a source page's blocks. */
  function PagePlan(blocks: seq<Block>, extract: Extractor, translate: Translator): seq<Placement> {
    ImagePlan(PageImages(blocks, extract)) + TextPlan(PageSpans(blocks), translate)
  }

  /** Each image is placed exactly once, at its own bbox, in collection order. */
  lemma {:induction false} ImagePlanPlacesEachImage(images: seq<ImageEntry>)
    ensures |ImagePlan(images)| == |images|
    ensures forall k :: 0 <= k < |images| ==>
      ImagePlan(images)[k] == PlaceImage(images[k].bbox, images[k].data)
    decreases |images|
  {
    if images != [] {
      ImagePlanPlacesEachImage(images[..|images| - 1]);
    }
  }

  /**
   * Each span is placed exactly once, in span order, at its origin, with its
   * size, the standard font for its font name, and its translated text.
   */
  lemma {:induction false} TextPlanPlacesEachSpan(spans: seq<Span>, translate: Translator)
    ensures |TextPlan(spans, translate)| == |spans|
    ensures forall k :: 0 <= k < |spans| ==>
      TextPlan(spans, translate)[k] ==
        PlaceText(spans[k].origin, translate(spans[k].text), spans[k].size, FontMap.StandardFont(spans[k].font))
    decreases |spans|
  {
    if spans != [] {
      TextPlanPlacesEachSpan(spans[..|spans| - 1], translate);
    }
  }

  /**
   * The page receives its images first and its text after: position `k` of
   * the plan is an image exactly when `k` is below the number of images, and
   * every text insertion uses one of the three standard font names.
   */
  lemma ImagesBeforeText(blocks: seq<Block>, extract: Extractor, translate: Translator)
    ensures var plan := PagePlan(blocks, extract, translate);
      && |plan| == |PageImages(blocks, extract)| + |PageSpans(blocks)|
      && (forall k :: 0 <= k < |plan| ==> (plan[k].PlaceImage? <==> k < |PageImages(blocks, extract)|))
      && (forall k :: 0 <= k < |plan| && plan[k].PlaceText? ==>
            plan[k].fontname in {FontMap.Regular, FontMap.Bold, FontMap.Oblique})
  {
    var images, spans := PageImages(blocks, extract), PageSpans(blocks);
    ImagePlanPlacesEachImage(images);
    TextPlanPlacesEachSpan(spans, translate);
    var plan := PagePlan(blocks, extract, translate);
    forall k | |images| <= k < |plan|
      ensures plan[k] == PlaceSpan(spans[k - |images|], translate)
    {
    }
  }

  /** The loop `for bbox, img_data in image_blocks: insert_image(...)`. */
  method InsertImages(page: Page, images: seq<ImageEntry>)
    modifies page
    ensures page.placements == old(page.placements) + ImagePlan(images)
  {
    ghost var start := page.placements;
    for i := 0 to |images|
      invariant page.placements == start + ImagePlan(images[..i])
    {
      var bbox, imgData := images[i].bbox, images[i].data;
      page.InsertImage(bbox, imgData);
      assert images[..i + 1][..i] == images[..i];
    }
    assert images[..|images|] == images;
  }

  /**
   * The loop over collected spans: translate the text, map the font name,
   * insert at the span's origin with its size.
   */
  method InsertSpans(page: Page, spans: seq<Span>, translate: Translator)
    modifies page
    ensures page.placements == old(page.placements) + TextPlan(spans, translate)
  {
    ghost var start := page.placements;
    for i := 0 to |spans|
      invariant page.placements == start + TextPlan(spans[..i], translate)
    {
      var span := spans[i];
      var translated := translate(span.text);
      var origin := span.origin;
      var fontsize := span.size;
      var rawFont := span.font;
      var fontOut := FontMap.StandardFont(rawFont);
      page.InsertText(origin, translated, fontsize, fontOut);
      assert spans[..i + 1][..i] == spans[..i];
    }
    assert spans[..|spans|] == spans;
  }

  /** The body of the page loop: collect from the source page, then reinsert. */
  method TranslatePage(page: Page, blocks: seq<Block>, extract: Extractor, translate: Translator)
    modifies page
    ensures page.placements == old(page.placements) + PagePlan(blocks, extract, translate)
  {
    var spans, images := CollectPage(blocks, extract);
    InsertImages(page, images);
    InsertSpans(page, spans, translate);
  }

  /**
   * The page loop: one new output page per source page, of the same size, in
   * order, each holding exactly the plan of its source page.
   */
  method TranslateDocument(doc: seq<SourcePage>, extract: Extractor, translate: Translator)
    returns (newDoc: OutputDocument)
    ensures fresh(newDoc)
    ensures |newDoc.pages| == |doc|
    ensures forall i :: 0 <= i < |doc| ==>
      && newDoc.pages[i].width == doc[i].width
      && newDoc.pages[i].height == doc[i].height
      && newDoc.pages[i].placements == PagePlan(doc[i].blocks, extract, translate)
  {
    newDoc := new OutputDocument();
    for i := 0 to |doc|
      invariant fresh(newDoc)
      invariant |newDoc.pages| == i
      invariant forall j :: 0 <= j < i ==> fresh(newDoc.pages[j])
      invariant forall j :: 0 <= j < i ==>
        && newDoc.pages[j].width == doc[j].width
        && newDoc.pages[j].height == doc[j].height
        && newDoc.pages[j].placements == PagePlan(doc[j].blocks, extract, translate)
    {
      var source := doc[i];
      var newPage := newDoc.NewPage(source.width, source.height);
      TranslatePage(newPage, source.blocks, extract, translate);
    }
  }
}
