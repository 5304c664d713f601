/**
 * The page dictionary that PyMuPDF's `page.get_text('dict')` returns, reduced to
 * what the translation script reads from it, and the two kinds of record the
 * script collects from it (text spans and image blocks).
 *
 * Coordinates and font sizes are floating-point numbers in the source; here they
 * are `real` values that the model only ever copies.
 */
module PageModel {

  newtype byte = b: int | 0 <= b < 256

  datatype Option<T> = None | Some(value: T)

  /** A point `(x, y)` on the page. */
  datatype Point = Point(x: real, y: real)

  /** A rectangle `(x0, y0, x1, y1)`, as in a block's `bbox`. */
  datatype Rect = Rect(x0: real, y0: real, x1: real, y1: real)

  /** One span of a text line: the keys of a span dictionary the script reads. */
  datatype RawSpan = RawSpan(text: string, origin: Point, size: real, font: string, flags: int)

  /** One line of a text block. */
  datatype Line = Line(spans: seq<RawSpan>)

  /** The value under an image dictionary's `xref` key. */
  datatype XrefValue = IntXref(xref: int) | NonIntXref

  /**
   * The value under an image block's `image` key: a byte string, a dictionary
   * holding an `xref` key, or anything else (a missing key, a dictionary
   * without `xref`, any other object).
   */
  datatype ImageField = RawImage(bytes: seq<byte>) | XrefDict(xref: XrefValue) | OtherImage

  /** Block type codes other than 0 (text) and 1 (image). */
  type OtherKind = k: int | k != 0 && k != 1 witness 2

  /** One entry of the dictionary's `blocks` list. */
  datatype Block =
    | TextBlock(bbox: Rect, lines: seq<Line>)
    | ImageBlock(bbox: Rect, image: ImageField)
    | OtherBlock(bbox: Rect, kind: OtherKind)
  {
    /** The block's `type` entry. */
    function Kind(): (k: int)
      ensures k == 0 <==> TextBlock?
      ensures k == 1 <==> ImageBlock?
    {
      match this
      case TextBlock(_, _) => 0
      case ImageBlock(_, _) => 1
      case OtherBlock(_, kind) => kind
    }
  }

  /** A source page: its size (`page.rect`) and its text dictionary's blocks. */
  datatype SourcePage = SourcePage(width: real, height: real, blocks: seq<Block>)

  /** A collected text span: the five keys the script copies. */
  datatype Span = Span(origin: Point, text: string, size: real, font: string, flags: int)

  /** A collected image: the block's bbox and the image bytes. */
  datatype ImageEntry = ImageEntry(bbox: Rect, data: seq<byte>)

  /**
   * `doc.extract_image(xref).get('image')`, kept only when it is a byte string.
   */
  type Extractor = int -> Option<seq<byte>>
}
