# PDF page translator — a Dafny model of the core of `scripts/translate_pdf.py`

The script rewrites a PDF page by page. For each source page it opens a new
output page of the same size. It reads the page's text dictionary (PyMuPDF's
`get_text('dict')`) and collects two lists:

- the non-blank text spans, each with `origin`, `text`, `size`, `font` and `flags`;
- the image blocks, as `(bbox, bytes)` pairs.

It then inserts every image again at its bbox. After that it inserts every span's
translated text at the span's origin, with the span's size, in one of three
standard fonts (`Helvetica`, `Helvetica-Bold`, `Helvetica-Oblique`). The font is
chosen by looking for "Bold", "Italic" or "Oblique" in the source font name.

The model has five modules:

- `PageModel` (`page_model.dfy`) holds the page dictionary as datatypes. A block is
  a text block (lines of spans), an image block, or a block of any other type
  code. An image block's `image` entry is one of three things: a byte string, a
  dictionary with an `xref` entry (integer or not), or anything else. The
  module also holds the two collected record types and the image extractor
  (`doc.extract_image(xref).get('image')`, kept only when it is bytes). The
  extractor is modelled as a function from an xref to optional bytes.
- `Whitespace` (`whitespace.dfy`) is Python's `str.strip()`. It uses the exact
  set of characters for which `str.isspace()` holds.
- `Collection` (`collection.dfy`) is the collection loop. `CollectPage` walks
  the blocks, and `CollectTextBlock` and `CollectLine` are its two inner
  loops. Each loop is proved against a specification function (`PageSpans`,
  `PageImages`). Lemmas relate those functions to a flat, document-order
  reading of the page.
- `FontMap` (`font_map.dfy`) is the font-name classifier and Python's
  substring test.
- `Placement` (`placement.dfy`) covers the rest. The output page is a class
  that records the insertions made on it, and the output document is a class
  that records its pages. It also holds the two insertion loops, the per-page
  body and the page loop. The translator is a function from text to text.

The system's design description also covers font-file resolution, block and
line grouping, alignment inference, style-tagged translation and reflow. The
script does none of these, and this model follows the script.

## Model

| member | source | states |
|---|---|---|
| `PageModel.Block.Kind` | scripts/translate_pdf.py:36-50 | A block's type code is 0 exactly for text blocks and 1 exactly for image blocks. Every other code names neither. |
| `Whitespace.StripLeftIsSuffix` | scripts/translate_pdf.py:54 | `lstrip` returns a suffix of its input. Every character it drops is whitespace, and what remains is empty or starts with a non-whitespace character. |
| `Whitespace.StripRightIsPrefix` | scripts/translate_pdf.py:54 | `rstrip` returns a prefix of its input. Every character it drops is whitespace, and what remains is empty or ends with a non-whitespace character. |
| `Whitespace.Strip` | scripts/translate_pdf.py:53-55 | `txt.strip()` is empty exactly when the text has no non-whitespace character, which is the condition for skipping a span. |
| `Whitespace.StripTrimsBothEnds` | scripts/translate_pdf.py:54 | A non-empty strip result starts and ends with a visible character. |
| `Collection.BlockImage` | scripts/translate_pdf.py:34-48 | A block yields an image exactly when it has type 1 and either its `image` is bytes, or its `image` is a dict whose integer `xref` extracts to bytes. The image carries the block's bbox and those bytes. Every other block yields nothing. |
| `Collection.CollectPage` | scripts/translate_pdf.py:30-50 | The loop over blocks leaves `spans` equal to `PageSpans(blocks)` and `image_blocks` equal to `PageImages(blocks, extract)`. |
| `Collection.CollectTextBlock` | scripts/translate_pdf.py:51-62 | The loop over a text block's lines appends exactly `LinesSpans(lines)` to the spans collected so far. |
| `Collection.CollectLine` | scripts/translate_pdf.py:52-62 | The loop over a line's spans skips those whose text strips to nothing. It appends a field-for-field copy of every other span, in order. |
| `Collection.SpansInDocumentOrder` | scripts/translate_pdf.py:51-62 | The collected spans are exactly the page's raw spans that have a visible character. They are in block, line and span order, with origin, text, size, font and flags copied unchanged. Nothing is reordered, duplicated or added. |
| `Collection.CollectedSpansVisible` | scripts/translate_pdf.py:53-55 | Every collected span's text has at least one non-whitespace character. |
| `Collection.SpansOnlyFromTextBlocks` | scripts/translate_pdf.py:33-62 | Deleting every block whose type is not 0 leaves the collected spans unchanged. |
| `Collection.ImagesOnlyFromImageBlocks` | scripts/translate_pdf.py:33-48 | Deleting every block whose type is not 1 leaves the collected images unchanged. |
| `Collection.ImageSources` | scripts/translate_pdf.py:33-48 | Each collected image comes from one block that yields exactly that image. The source block indices strictly increase, so images are in block order with no duplicates. Every block that yields an image is among the sources. |
| `Collection.KeepVisibleAppend` | scripts/translate_pdf.py:51-62 | Filtering the visible spans out of two sequences joined end to end gives the two filtered results joined in the same order. |
| `FontMap.ContainsIffOccurs` | scripts/translate_pdf.py:76-78 | The left-to-right scan used for Python's `sub in s` succeeds exactly when `sub` occurs in `s` at some offset. |
| `FontMap.StandardFont` | scripts/translate_pdf.py:74-79 | The mapping is total, and its result is always one of `Helvetica`, `Helvetica-Bold` or `Helvetica-Oblique`. |
| `FontMap.StandardFontCases` | scripts/translate_pdf.py:75-79 | The result is `Helvetica-Bold` exactly when the name contains "Bold", even when it also contains "Italic" or "Oblique". It is `Helvetica-Oblique` exactly when the name has no "Bold" but has "Italic" or "Oblique". It is `Helvetica` exactly when the name has none of the three words. |
| `FontMap.ContainsTransitive` | scripts/translate_pdf.py:76-78 | If `mid` occurs in `s` and `sub` occurs in `mid`, then `sub` occurs in `s`. |
| `FontMap.StyleNeverWeakensInLongerName` | scripts/translate_pdf.py:75-79 | If one font name occurs inside another, the longer name never maps to a weaker face. The order is bold, then oblique, then regular, which is the precedence of the tests. |
| `Placement.Page.InsertImage` | scripts/translate_pdf.py:65 | `insert_image` adds exactly one image insertion, with the given rect and stream, at the end of the page's insertions. |
| `Placement.Page.InsertText` | scripts/translate_pdf.py:81-85 | `insert_text` adds exactly one text insertion, with the given point, text, size and font name, at the end. |
| `Placement.OutputDocument.NewPage` | scripts/translate_pdf.py:28 | `new_page` appends one fresh, empty page of the given width and height to the document. |
| `Placement.ImagePlanPlacesEachImage` | scripts/translate_pdf.py:64-65 | The image loop makes one insertion per collected image, in collection order. Insertion `k` is at image `k`'s bbox with image `k`'s bytes. |
| `Placement.TextPlanPlacesEachSpan` | scripts/translate_pdf.py:67-85 | The text loop makes one insertion per collected span, in span order. Insertion `k` is at span `k`'s origin, with its size and the mapped font, and its text is the translator applied to span `k`'s text. |
| `Placement.ImagesBeforeText` | scripts/translate_pdf.py:63-85 | A page's insertions are all of its images first and then all of its spans: position `k` is an image exactly when `k` is below the image count. Every text insertion uses one of the three standard fonts. |
| `Placement.InsertImages` | scripts/translate_pdf.py:64-65 | After the image loop, the page's insertions are the earlier ones followed by `ImagePlan(images)`. |
| `Placement.InsertSpans` | scripts/translate_pdf.py:67-85 | After the text loop, the page's insertions are the earlier ones followed by `TextPlan(spans, translate)`. |
| `Placement.TranslatePage` | scripts/translate_pdf.py:29-85 | The per-page body appends exactly the page plan, that is, the images collected from the blocks followed by the translated spans. |
| `Placement.TranslateDocument` | scripts/translate_pdf.py:24-85 | The output document has one page per source page, in order. Each output page has its source page's width and height and holds exactly that page's plan. |

## Left out

- Argument parsing (`parse_args`, lines 8-13) and the `DEEPL_API_KEY` check (lines 18-20) are command-line and environment input. They are not modelled.
- The DeepL call (lines 68-70) is a parameter `translate: string -> string`. The fixed source language `EN` and the chosen target language are folded into that function. Network failures, exceptions and answers that differ between two calls on the same text are not modelled.
- PyMuPDF is foreign code. `fitz.open`, `get_text('dict')`, `save` and `close` are not modelled: the source document is given as a sequence of pages, and the output is the sequence of insertions. `insert_image` and `insert_text` only record what was asked. Rendering, and the exceptions these calls can raise, are not modelled.
- `extract_image` is a parameter from an xref to optional bytes. An exception it raises for a bad xref is not modelled. A result whose `image` entry is not bytes is the `None` case.
- Coordinates, bboxes and font sizes are floats in the source. Here they are `real` values that are only copied, and `fitz.Rect(*bbox)` is the bbox itself. No arithmetic is done on them.
- Python's `bool` is a subclass of `int`, so `isinstance(True, int)` holds. A boolean `xref` would be treated as the integer 1 or 0. The model's `XrefValue` has no separate boolean case.
- `bytes` and `bytearray` are both modelled as `seq<byte>`.
- Span keys other than the five that are copied (`bbox`, `color` and so on) are not part of `RawSpan`. A dictionary missing a key the script reads (which would raise `KeyError`) is not modelled. The model's datatypes always carry the keys.
- The nested `for` loops of lines 33-62 are modelled as three methods, one loop each (`CollectPage`, `CollectTextBlock`, `CollectLine`). `spans` is threaded through them. The order of appends and the final lists are the same as in the source.
