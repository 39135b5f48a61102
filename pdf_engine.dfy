/** Text acquisition from a PDF: the digital text layer first, OCR when that
    text looks broken. The PDF libraries are inputs: what each page of the
    digital layer yields, and what the OCR of each page image yields. */
module PdfEngine {
  import opened Wrappers
  import opened Text

  /** `page.extract_text(layout=True)` for one page: a text, `None`, or it raises. */
  datatype PageResult = PageText(text: Option<string>) | PageRaises

  /** `pdfplumber.open`: it raises, or it gives the pages in order. */
  datatype DigitalLayer = OpenFails | Pages(pages: seq<PageResult>)

  /** `pytesseract.image_to_string` for one page image: a text, or it raises. */
  datatype ImageResult = ImageText(text: string) | ImageRaises

  /** `convert_from_path`: it raises, or it gives the page images in order. */
  datatype OcrLayer = ConvertFails | Images(images: seq<ImageResult>)

  datatype PdfSource = PdfSource(digital: DigitalLayer, ocr: OcrLayer)

  /** A page's contribution: its text and a newline, when the text is not empty. */
  function PageContribution(p: PageResult): string {
    match p
    case PageText(Some(t)) => if t != [] then t + "\n" else []
    case _ => []
  }

  /** The digital text gathered from `pages`: each page's contribution in order,
      stopping at the first page that raises. */
  function PagesText(pages: seq<PageResult>): string
    decreases |pages|
  {
    if pages == [] || pages[0] == PageRaises then []
    else PageContribution(pages[0]) + PagesText(pages[1..])
  }

  function DigitalText(d: DigitalLayer): string {
    match d
    case OpenFails => []
    case Pages(ps) => PagesText(ps)
  }

  /** `Some(v)` with `prefix` put in front of `v`. */
  function Prepend(prefix: string, o: Option<string>): Option<string> {
    match o
    case None => None
    case Some(v) => Some(prefix + v)
  }

  /** The OCR text of `images`: each image's text and a newline, in order; `None`
      when any image raises. */
  function ImagesText(images: seq<ImageResult>): Option<string>
    decreases |images|
  {
    if images == [] then Some([])
    else match images[0]
      case ImageRaises => None
      case ImageText(t) => Prepend(t + "\n", ImagesText(images[1..]))
  }

  function OcrText(o: OcrLayer): Option<string> {
    match o
    case ConvertFails => None
    case Images(ims) => ImagesText(ims)
  }

  const CidMarker: string := "(cid:"
  const MinimumText: nat := 50

  /** The digital text is broken when it holds a `(cid:` glyph code or has fewer
      than 50 characters once trimmed. */
  predicate NeedsOcr(text: string)
    ensures |text| < MinimumText ==> NeedsOcr(text)
  {
    Contains(text, CidMarker) || |Strip(text)| < MinimumText
  }

  /** `extract_text_sync`: the digital text, replaced by the OCR text when the
      digital text is broken and OCR completes; always trimmed. */
  function ExtractText(src: PdfSource): (r: string)
    ensures Trimmed(r)
  {
    var digital := DigitalText(src.digital);
    var ocr := OcrText(src.ocr);
    Strip(if NeedsOcr(digital) && ocr.Some? then ocr.value else digital)
  }

  lemma PrependPrepend(a: string, b: string, o: Option<string>)
    ensures Prepend(a, Prepend(b, o)) == Prepend(a + b, o)
  {
    if o.Some? {
      assert a + (b + o.value) == (a + b) + o.value;
    }
  }

  /** The first `try` block of `extract_text_sync`: the page loop. */
  method ReadDigitalText(d: DigitalLayer) returns (text: string)
    ensures text == DigitalText(d)
  {
    text := "";
    if d.Pages? {
      var pages := d.pages;
      var i := 0;
      var failed := false;
      while i < |pages| && !failed
        invariant 0 <= i <= |pages|
        invariant failed ==> text == PagesText(pages)
        invariant !failed ==> text + PagesText(pages[i..]) == PagesText(pages)
        decreases |pages| - i + (if failed then 0 else 1)
      {
        assert pages[i..][1..] == pages[i + 1..];
        match pages[i]
        case PageRaises =>
          assert PagesText(pages[i..]) == [];
          assert text + [] == text;
          failed := true;
        case PageText(t) =>
          var rest := PagesText(pages[i + 1..]);
          assert PagesText(pages[i..]) == PageContribution(pages[i]) + rest;
          if t.Some? && t.value != [] {
            assert text + (t.value + "\n" + rest) == (text + t.value + "\n") + rest;
            text := text + t.value + "\n";
          } else {
            assert PageContribution(pages[i]) == [];
            assert [] + rest == rest;
          }
          i := i + 1;
      }
      if !failed {
        assert pages[i..] == [];
        assert text + [] == text;
      }
    }
  }

  /** The second `try` block: the image loop; `None` when an image raises. */
  method ReadOcrText(images: seq<ImageResult>) returns (r: Option<string>)
    ensures r == ImagesText(images)
  {
    var ocrText := "";
    var j := 0;
    var ok := true;
    assert images[0..] == images;
    if ImagesText(images).Some? {
      assert [] + ImagesText(images).value == ImagesText(images).value;
    }
    while j < |images| && ok
      invariant 0 <= j <= |images|
      invariant ok ==> ImagesText(images) == Prepend(ocrText, ImagesText(images[j..]))
      invariant !ok ==> ImagesText(images) == None
      decreases |images| - j + (if ok then 1 else 0)
    {
      assert images[j..][1..] == images[j + 1..];
      match images[j]
      case ImageRaises =>
        ok := false;
      case ImageText(t) =>
        assert ImagesText(images[j..]) == Prepend(t + "\n", ImagesText(images[j + 1..]));
        PrependPrepend(ocrText, t + "\n", ImagesText(images[j + 1..]));
        assert ocrText + (t + "\n") == ocrText + t + "\n";
        ocrText := ocrText + t + "\n";
        j := j + 1;
    }
    if ok {
      assert images[j..] == [];
      assert ocrText + [] == ocrText;
      r := Some(ocrText);
    } else {
      r := None;
    }
  }

  /** `extract_text_sync`: read the digital text, test it, run OCR when it is
      broken and take the OCR text only when OCR completes, then strip. */
  method ExtractTextSync(src: PdfSource) returns (r: string)
    ensures r == ExtractText(src)
  {
    var text := ReadDigitalText(src.digital);
    if NeedsOcr(text) && src.ocr.Images? {
      var ocr := ReadOcrText(src.ocr.images);
      if ocr.Some? {
        text := ocr.value;
      }
    }
    r := Strip(text);
  }

  /** Pages before a page that raises are kept; the pages after it are never read. */
  lemma {:induction false} FailureCutsPages(before: seq<PageResult>, after: seq<PageResult>)
    ensures PagesText(before + [PageRaises] + after) == PagesText(before)
    decreases |before|
  {
    if before == [] {
      assert (before + [PageRaises] + after)[0] == PageRaises;
    } else {
      assert (before + [PageRaises] + after)[1..] == before[1..] + [PageRaises] + after;
      FailureCutsPages(before[1..], after);
    }
  }

  /** Without a failing page, the text of two runs of pages is the text of the
      first followed by the text of the second. */
  lemma {:induction false} PagesTextAppend(a: seq<PageResult>, b: seq<PageResult>)
    requires forall k :: 0 <= k < |a| ==> a[k] != PageRaises
    ensures PagesText(a + b) == PagesText(a) + PagesText(b)
    decreases |a|
  {
    if a == [] {
      assert a + b == b;
    } else {
      assert (a + b)[1..] == a[1..] + b;
      PagesTextAppend(a[1..], b);
    }
  }

  /** A page with no text, `None` or empty, contributes nothing. */
  lemma BlankPageAddsNothing(a: seq<PageResult>, p: PageResult, b: seq<PageResult>)
    requires p == PageText(None) || p == PageText(Some([]))
    requires forall k :: 0 <= k < |a| ==> a[k] != PageRaises
    ensures PagesText(a + [p] + b) == PagesText(a + b)
  {
    PagesTextAppend(a, [p] + b);
    PagesTextAppend(a, b);
    assert a + [p] + b == a + ([p] + b);
    assert ([p] + b)[1..] == b;
  }

  /** An image that raises discards the whole OCR text, the part read before it too. */
  lemma {:induction false} FailingImageDiscardsOcr(before: seq<ImageResult>, after: seq<ImageResult>)
    ensures ImagesText(before + [ImageRaises] + after) == None
    decreases |before|
  {
    if before == [] {
      assert (before + [ImageRaises] + after)[0] == ImageRaises;
    } else {
      assert (before + [ImageRaises] + after)[1..] == before[1..] + [ImageRaises] + after;
      FailingImageDiscardsOcr(before[1..], after);
    }
  }

  /** When every image is read, the OCR text of `n` images holds at least `n`
      line breaks: each image adds its own. */
  lemma {:induction false} OcrTextKeepsEveryImage(images: seq<ImageResult>)
    requires forall k :: 0 <= k < |images| ==> images[k].ImageText?
    ensures ImagesText(images).Some? && Count(ImagesText(images).value, '\n') >= |images|
    decreases |images|
  {
    if images != [] {
      var t := images[0].text;
      assert forall k :: 0 <= k < |images[1..]| ==> images[1..][k] == images[k + 1];
      OcrTextKeepsEveryImage(images[1..]);
      var rest := ImagesText(images[1..]).value;
      CountAppend(t, "\n" + rest, '\n');
      assert ("\n" + rest)[1..] == rest;
      assert t + "\n" + rest == t + ("\n" + rest);
    }
  }

  /** Good digital text is returned, trimmed, whatever the OCR layer would give. */
  lemma GoodDigitalTextIgnoresOcr(d: DigitalLayer, o: OcrLayer)
    requires !NeedsOcr(DigitalText(d))
    ensures ExtractText(PdfSource(d, o)) == Strip(DigitalText(d))
  {
  }

  /** Broken digital text and completed OCR: the OCR text replaces the digital
      text entirely. */
  lemma OcrReplacesBrokenText(d: DigitalLayer, o: OcrLayer)
    requires NeedsOcr(DigitalText(d)) && OcrText(o).Some?
    ensures ExtractText(PdfSource(d, o)) == Strip(OcrText(o).value)
    ensures forall d2 :: NeedsOcr(DigitalText(d2)) ==>
      ExtractText(PdfSource(d2, o)) == ExtractText(PdfSource(d, o))
  {
  }

  /** When OCR raises, the (broken) digital text is kept. */
  lemma FailedOcrKeepsDigitalText(d: DigitalLayer, o: OcrLayer)
    requires OcrText(o) == None
    ensures ExtractText(PdfSource(d, o)) == Strip(DigitalText(d))
  {
  }

  /** A PDF that cannot be opened gives an empty digital text, which always asks for OCR. */
  lemma UnreadablePdfAsksForOcr()
    ensures NeedsOcr(DigitalText(OpenFails))
  {
  }
}
