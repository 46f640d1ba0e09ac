/**
 * File-content extraction of the chat server (server/groq.ts): the
 * MIME-type dispatcher `processFileContent` and the post-processing of
 * OCR output in `extractTextFromImageWithOCR`. The document libraries
 * (pdf-parse, mammoth, Tesseract.js and Buffer's base64 and UTF-8
 * codecs) are foreign code; they enter the model as the functions of an
 * `Extractors` value.
 */
module FileReader {
  import opened Wrappers
  import opened JsText

  const PDF_MIME: string := "application/pdf"
  const DOCX_MIME: string := "application/" + "vnd.openxmlformats-officedocument.wordprocessingml.document"
  const DOC_MIME: string := "application/msword"
  const PLAIN_MIME: string := "text/plain"
  const MARKDOWN_MIME: string := "text/markdown"
  const IMAGE_PREFIX: string := "image/"

  /** Errors thrown by the PDF and Word extractors when their library fails. */
  const PDF_ERROR: string := "فشل في قراءة ملف PDF"
  const WORD_ERROR: string := "فشل في قراءة ملف Word"

  /**
   * Markers returned by the OCR extractor. Both failure markers open with
   * the image tag "[صورة - "; the header opens with "[نص" ("text") instead.
   */
  const IMAGE_TAG: string := "[صورة - "
  const OCR_NO_TEXT: string := IMAGE_TAG + "لم يتم العثور على نص قابل للقراءة في الصورة]"
  const OCR_FAILED: string := IMAGE_TAG + "فشل في استخراج النص من الصورة]"
  const OCR_HEADER: string := "[نص" + " مستخرج من الصورة باستخدام OCR]:\n"

  /** The placeholder for an unsupported file is the file name between these two parts. */
  const UNSUPPORTED_OPEN: string := "[ملف: "
  const UNSUPPORTED_CLOSE: string := "] - نوع الملف غير مدعوم للقراءة التلقائية"

  /**
   * The foreign extraction libraries, each applied to the base64 text of
   * a file. `None` stands for a call that threw.
   */
  datatype Extractors = Extractors(
    pdfText: string -> Option<string>,   // pdf-parse on the decoded bytes, its `text`
    docxText: string -> Option<string>,  // mammoth.extractRawText on the decoded bytes, its `value`
    utf8Text: string -> string,          // Buffer.from(data, "base64").toString("utf-8")
    ocrText: string -> Option<string>)   // Tesseract.recognize(bytes, "ara+eng"), its `data.text`

  /** The extractor a file is routed to. */
  datatype FileKind = Pdf | Word | PlainText | Image | Unsupported

  /**
   * The dispatch chain of `processFileContent`: exact comparisons for PDF,
   * the two Word types and the two text types, a prefix test for images,
   * first match wins.
   */
  function Classify(mimeType: string): (k: FileKind)
    ensures k == Pdf <==> mimeType == PDF_MIME
    ensures k == Word <==> mimeType == DOCX_MIME || mimeType == DOC_MIME
    ensures k == PlainText <==> mimeType == PLAIN_MIME || mimeType == MARKDOWN_MIME
    ensures k == Image <==> StartsWith(mimeType, IMAGE_PREFIX)
    ensures k == Unsupported <==>
              && mimeType !in {PDF_MIME, DOCX_MIME, DOC_MIME, PLAIN_MIME, MARKDOWN_MIME}
              && !StartsWith(mimeType, IMAGE_PREFIX)
  {
    NamedTypesAreNotImages();
    if mimeType == PDF_MIME then Pdf
    else if mimeType == DOCX_MIME || mimeType == DOC_MIME then Word
    else if mimeType == PLAIN_MIME || mimeType == MARKDOWN_MIME then PlainText
    else if StartsWith(mimeType, IMAGE_PREFIX) then Image
    else Unsupported
  }

  /** None of the exactly-matched MIME types starts with "image/", so no type matches two branches. */
  lemma NamedTypesAreNotImages()
    ensures forall m :: m in {PDF_MIME, DOCX_MIME, DOC_MIME, PLAIN_MIME, MARKDOWN_MIME} ==> !StartsWith(m, IMAGE_PREFIX)
  {
    assert PDF_MIME[0] != IMAGE_PREFIX[0];
    assert DOCX_MIME[0] == 'a';
    assert DOC_MIME[0] != IMAGE_PREFIX[0];
    assert PLAIN_MIME[0] != IMAGE_PREFIX[0];
    assert MARKDOWN_MIME[0] != IMAGE_PREFIX[0];
  }

  /** `extractTextFromPDF`: the library's text, or the localized PDF error when it throws. */
  function ExtractPdf(lib: Extractors, base64Data: string): (r: Result<string, string>)
    ensures r.Err? <==> lib.pdfText(base64Data).None?
    ensures r.Err? ==> r.error == PDF_ERROR
    ensures r.Ok? ==> r.value == lib.pdfText(base64Data).value
  {
    match lib.pdfText(base64Data)
    case None => Err(PDF_ERROR)
    case Some(text) => Ok(text)
  }

  /** `extractTextFromDOCX`: the library's raw text, or the localized Word error when it throws. */
  function ExtractDocx(lib: Extractors, base64Data: string): (r: Result<string, string>)
    ensures r.Err? <==> lib.docxText(base64Data).None?
    ensures r.Err? ==> r.error == WORD_ERROR
    ensures r.Ok? ==> r.value == lib.docxText(base64Data).value
  {
    match lib.docxText(base64Data)
    case None => Err(WORD_ERROR)
    case Some(text) => Ok(text)
  }

  /**
   * The marker logic of `extractTextFromImageWithOCR` applied to what
   * recognition produced (`None` when it threw).
   */
  function OcrResult(recognized: Option<string>): string {
    match recognized
    case None => OCR_FAILED
    case Some(text) =>
      var extracted := Trim(text);
      if extracted == "" then OCR_NO_TEXT else OCR_HEADER + extracted
  }

  /** `extractTextFromImageWithOCR`: never fails; the mime type is not consulted. */
  function ExtractImage(lib: Extractors, base64Data: string, mimeType: string): string {
    OcrResult(lib.ocrText(base64Data))
  }

  /** The placeholder for a file of an unsupported type. */
  function Placeholder(fileName: string): string {
    UNSUPPORTED_OPEN + fileName + UNSUPPORTED_CLOSE
  }

  /** `processFileContent`: route the file to the one extractor its MIME type selects. */
  function ProcessFileContent(lib: Extractors, base64Data: string, mimeType: string, fileName: string): (r: Result<string, string>)
    ensures r.Err? <==>
              || (Classify(mimeType) == Pdf && lib.pdfText(base64Data).None?)
              || (Classify(mimeType) == Word && lib.docxText(base64Data).None?)
    ensures r.Err? ==> IsExtractionError(r.error)
  {
    match Classify(mimeType)
    case Pdf => ExtractPdf(lib, base64Data)
    case Word => ExtractDocx(lib, base64Data)
    case PlainText => Ok(lib.utf8Text(base64Data))
    case Image => Ok(ExtractImage(lib, base64Data, mimeType))
    case Unsupported => Ok(Placeholder(fileName))
  }

  /** The only errors file extraction can produce. */
  predicate IsExtractionError(message: string) {
    message == PDF_ERROR || message == WORD_ERROR
  }

  /**
   * Each MIME type reaches exactly the extractor of its kind, whose
   * result is returned unchanged: PDF and Word through their extractors,
   * text decoded as UTF-8, images through OCR, anything else as the
   * placeholder.
   */
  lemma DispatchRoutes(lib: Extractors, base64Data: string, mimeType: string, fileName: string)
    ensures var r := ProcessFileContent(lib, base64Data, mimeType, fileName);
            && (mimeType == PDF_MIME ==> r == ExtractPdf(lib, base64Data))
            && (mimeType == DOCX_MIME || mimeType == DOC_MIME ==> r == ExtractDocx(lib, base64Data))
            && (mimeType == PLAIN_MIME || mimeType == MARKDOWN_MIME ==> r == Ok(lib.utf8Text(base64Data)))
            && (StartsWith(mimeType, IMAGE_PREFIX) ==> r == Ok(ExtractImage(lib, base64Data, mimeType)))
            && (Classify(mimeType) == Unsupported ==> r == Ok(Placeholder(fileName)))
  {
  }

  /**
   * OCR post-processing: the result is never empty; a failed recognition
   * gives the "failed" marker, white space only gives the "no text"
   * marker, and anything else is the header followed by the trimmed text.
   */
  lemma OcrResultCases(recognized: Option<string>)
    ensures OcrResult(recognized) != ""
    ensures recognized.None? ==> OcrResult(recognized) == OCR_FAILED
    ensures recognized.Some? && AllWhiteSpace(recognized.value) ==> OcrResult(recognized) == OCR_NO_TEXT
    ensures recognized.Some? && !AllWhiteSpace(recognized.value) ==>
              OcrResult(recognized) == OCR_HEADER + Trim(recognized.value)
  {
    if recognized.Some? {
      TrimSpec(recognized.value);
    }
  }

  /** Neither marker begins with the OCR header. */
  lemma MarkersLackHeader()
    ensures !StartsWith(OCR_FAILED, OCR_HEADER)
    ensures !StartsWith(OCR_NO_TEXT, OCR_HEADER)
  {
    assert OCR_FAILED[1] == IMAGE_TAG[1] == OCR_NO_TEXT[1];
    assert OCR_HEADER[1] == "[نص"[1] != IMAGE_TAG[1];
  }

  /**
   * The markers cannot be mistaken for recognized text: a result carries
   * the OCR header exactly when recognition produced some non-blank text,
   * and the text after the header is that text, trimmed.
   */
  lemma OcrResultRecoversText(recognized: Option<string>)
    ensures StartsWith(OcrResult(recognized), OCR_HEADER) <==>
              recognized.Some? && !AllWhiteSpace(recognized.value)
    ensures StartsWith(OcrResult(recognized), OCR_HEADER) ==>
              var text := OcrResult(recognized)[|OCR_HEADER|..];
              && text == Trim(recognized.value) && text != ""
              && !IsWhiteSpace(text[0]) && !IsWhiteSpace(text[|text| - 1])
  {
    MarkersLackHeader();
    if recognized.Some? {
      var t := Trim(recognized.value);
      assert && (t == [] <==> AllWhiteSpace(recognized.value))
             && (t != [] ==> !IsWhiteSpace(t[0]) && !IsWhiteSpace(t[|t| - 1])) by {
        TrimSpec(recognized.value);
      }
      ConcatSplits(OCR_HEADER, t);
    }
  }

  /** The placeholder names the file, and the name can be read back from it. */
  lemma PlaceholderNamesFile(fileName: string)
    ensures Includes(Placeholder(fileName), fileName)
    ensures Placeholder(fileName)[|UNSUPPORTED_OPEN|..|UNSUPPORTED_OPEN| + |fileName|] == fileName
  {
    MiddleIncluded(UNSUPPORTED_OPEN, fileName, UNSUPPORTED_CLOSE);
  }

  /**
   * An unsupported type never fails: the dispatcher returns the
   * placeholder, which contains the file name.
   */
  lemma UnsupportedTypeGivesPlaceholder(lib: Extractors, base64Data: string, mimeType: string, fileName: string)
    requires Classify(mimeType) == Unsupported
    ensures ProcessFileContent(lib, base64Data, mimeType, fileName).Ok?
    ensures Includes(ProcessFileContent(lib, base64Data, mimeType, fileName).value, fileName)
  {
    PlaceholderNamesFile(fileName);
  }

  /** Images always yield some text: recognized text or one of the two markers, never "". */
  lemma ImageNeverFails(lib: Extractors, base64Data: string, mimeType: string, fileName: string)
    requires StartsWith(mimeType, IMAGE_PREFIX)
    ensures ProcessFileContent(lib, base64Data, mimeType, fileName).Ok?
    ensures ProcessFileContent(lib, base64Data, mimeType, fileName).value != ""
  {
    OcrResultCases(lib.ocrText(base64Data));
  }
}
