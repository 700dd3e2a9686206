/**
 * The pure string logic of the upload helper: which extractor a file goes
 * to, how the extracted text is tidied, and which file types are accepted.
 * Decoding PDF and DOCX streams is not modelled; the decoded text is an input.
 */
module FileProcessor {
  import opened Strings
  import opened TextPreProcessor

  datatype Extractor = PdfExtractor | DocxExtractor | PlainTextExtractor

  datatype Failure = NullFileName | EmptyFile

  datatype Choice = Use(extractor: Extractor) | Reject(failure: Failure)

  /** The checks and the branch of `extractText`, in source order. */
  function ChooseExtractor(fileName: Option<string>, contentType: Option<string>, isEmpty: bool): (r: Choice)
  {
    if fileName.None? then Reject(NullFileName)
    else if isEmpty then Reject(EmptyFile)
    else if contentType.Some? && Contains(contentType.value, "pdf") then Use(PdfExtractor)
    else if EndsWith(fileName.value, ".docx") then Use(DocxExtractor)
    else if contentType.Some? && Contains(contentType.value, "text") then Use(PlainTextExtractor)
    else Use(PlainTextExtractor)
  }

  /** A character `cleanPdfText` keeps: none of its five deleted ranges. */
  predicate IsPdfKept(c: char)
  {
    !IsPrivateUse(c) && !IsMiscSymbol(c) && !IsDingbat(c) && !IsC1Control(c) && !IsSpecials(c)
  }

  function StripPdfSymbols(s: string): string
  {
    RemoveChars(RemoveChars(RemoveChars(RemoveChars(RemoveChars(
      s, IsPrivateUse), IsMiscSymbol), IsDingbat), IsC1Control), IsSpecials)
  }

  /** `cleanPdfText`: `None` stands for a null text. */
  function CleanPdfText(text: Option<string>): (r: string)
  {
    if text.None? then []
    else Trim(CollapseRuns(ReplaceLiteral(ReplaceLiteral(StripPdfSymbols(text.value), [], []), Mojibake, []), IsSpace, ' '))
  }

  /** The text handed back for a decoded document: cleaned for PDF, trimmed otherwise; a null text gives "". */
  function ExtractedText(extractor: Extractor, decoded: Option<string>): (r: string)
  {
    match extractor
    case PdfExtractor => CleanPdfText(decoded)
    case _ => if decoded.None? then [] else Trim(decoded.value)
  }

  /** `isSupportedFileType`. */
  predicate IsSupportedFileType(fileName: Option<string>, contentType: Option<string>)
  {
    fileName.Some? &&
    (EndsWith(fileName.value, ".pdf") || EndsWith(fileName.value, ".docx") || EndsWith(fileName.value, ".txt")
     || (contentType.Some? &&
         (Contains(contentType.value, "pdf") || Contains(contentType.value, "word") || Contains(contentType.value, "text"))))
  }

  // ---------------------------------------------------------------------
  // Properties
  // ---------------------------------------------------------------------

  /** A missing name is reported before an empty file, and only those two cases fail. */
  lemma ChooseExtractorFailures(fileName: Option<string>, contentType: Option<string>, isEmpty: bool)
    ensures ChooseExtractor(fileName, contentType, isEmpty) == Reject(NullFileName) <==> fileName.None?
    ensures ChooseExtractor(fileName, contentType, isEmpty) == Reject(EmptyFile) <==> fileName.Some? && isEmpty
    ensures ChooseExtractor(fileName, contentType, isEmpty).Use? <==> fileName.Some? && !isEmpty
  {
  }

  /** The content type wins over the name: a PDF content type selects the PDF extractor even for a `.docx` name. */
  lemma ContentTypeBeforeSuffix(fileName: string, contentType: string)
    requires Contains(contentType, "pdf")
    ensures ChooseExtractor(Some(fileName), Some(contentType), false) == Use(PdfExtractor)
  {
  }

  /**
   * Every file the PDF or DOCX extractor receives is a supported type, and
   * every unsupported file that gets past the checks is read as plain text.
   */
  lemma ExtractorAgreesWithSupport(fileName: Option<string>, contentType: Option<string>, isEmpty: bool)
    ensures ChooseExtractor(fileName, contentType, isEmpty) in {Use(PdfExtractor), Use(DocxExtractor)}
      ==> IsSupportedFileType(fileName, contentType)
    ensures ChooseExtractor(fileName, contentType, isEmpty).Use? && !IsSupportedFileType(fileName, contentType)
      ==> ChooseExtractor(fileName, contentType, isEmpty) == Use(PlainTextExtractor)
  {
  }

  /** A name ending in `.pdf` counts as supported, but without a content type its bytes are read as plain text. */
  lemma PdfNameWithoutContentType(fileName: string)
    requires EndsWith(fileName, ".pdf")
    ensures IsSupportedFileType(Some(fileName), None)
    ensures ChooseExtractor(Some(fileName), None, false) == Use(PlainTextExtractor)
  {
    assert !EndsWith(fileName, ".docx") by {
      assert fileName[|fileName| - 4..][3] == 'f';
      if |fileName| >= 5 {
        assert fileName[|fileName| - 5..][4] == fileName[|fileName| - 1];
      }
    }
  }

  /** A null file name is never supported. */
  lemma NullNameUnsupported(contentType: Option<string>)
    ensures !IsSupportedFileType(None, contentType)
  {
  }

  lemma StripPdfSymbolsShape(s: string)
    ensures All(StripPdfSymbols(s), IsPdfKept) && |StripPdfSymbols(s)| <= |s|
  {
    var s1 := RemoveChars(s, IsPrivateUse);
    var s2 := RemoveChars(s1, IsMiscSymbol);
    var s3 := RemoveChars(s2, IsDingbat);
    var s4 := RemoveChars(s3, IsC1Control);
    RemoveCharsKeeps(s1, IsMiscSymbol, c => !IsPrivateUse(c));
    RemoveCharsKeeps(s2, IsDingbat, c => !IsPrivateUse(c) && !IsMiscSymbol(c));
    RemoveCharsKeeps(s3, IsC1Control, c => !IsPrivateUse(c) && !IsMiscSymbol(c) && !IsDingbat(c));
    RemoveCharsKeeps(s4, IsSpecials, c => !IsPrivateUse(c) && !IsMiscSymbol(c) && !IsDingbat(c) && !IsC1Control(c));
  }

  /** A kept character that is whitespace only if it is a plain space. */
  predicate IsPdfOutputChar(c: char) { IsPdfKept(c) && (IsSpace(c) ==> c == ' ') }

  lemma CollapsePdfShape(t: string)
    requires All(t, IsPdfKept)
    ensures All(CollapseRuns(t, IsSpace, ' '), IsPdfOutputChar)
    ensures |CollapseRuns(t, IsSpace, ' ')| <= |t|
  {
    assert All(t, c => IsSpace(c) || IsPdfOutputChar(c));
    CollapseRunsKeeps(t, IsSpace, ' ', IsPdfOutputChar);
  }

  lemma TrimPdfShape(c: string)
    requires All(c, IsPdfOutputChar) && NoAdjacentSpaces(c)
    ensures var r := Trim(c);
      All(r, IsPdfOutputChar) && NoAdjacentSpaces(r) && Trimmed(r)
  {
    TrimKeeps(c, IsPdfOutputChar);
    SliceKeepsNoAdjacentSpaces(c, |c| - |TrimStart(c)|, |Trim(c)|);
  }

  lemma PdfOutputShape(r: string)
    requires All(r, IsPdfOutputChar)
    ensures All(r, IsPdfKept) && SpacesAreBlanks(r) && '\n' !in r
  {
  }

  /** The stages before the trim keep the deleted ranges out and never lengthen the text. */
  lemma CleanPdfCollapsed(text: string)
    ensures var c := CollapseRuns(ReplaceLiteral(ReplaceLiteral(StripPdfSymbols(text), [], []), Mojibake, []), IsSpace, ' ');
      All(c, IsPdfOutputChar) && NoAdjacentSpaces(c) && |c| <= |text|
  {
    var s := StripPdfSymbols(text);
    StripPdfSymbolsShape(text);
    ReplaceEmptyByEmpty(s);
    var t := ReplaceLiteral(s, Mojibake, []);
    DeleteLiteralKeeps(s, Mojibake, IsPdfKept);
    DeleteLiteralShrinks(s, Mojibake);
    CollapsePdfShape(t);
  }

  /**
   * `cleanPdfText` output: none of the five deleted ranges, whitespace only as
   * single plain spaces (so no line feed), no leading or trailing blank, and
   * never longer than its input; a null text gives "".
   */
  lemma CleanPdfTextShape(text: Option<string>)
    ensures var r := CleanPdfText(text);
      && All(r, IsPdfKept) && NoAdjacentSpaces(r) && SpacesAreBlanks(r) && '\n' !in r && Trimmed(r)
      && (text.None? ==> r == [])
      && (text.Some? ==> |r| <= |text.value|)
  {
    if text.Some? {
      CleanPdfCollapsed(text.value);
      var c := CollapseRuns(ReplaceLiteral(ReplaceLiteral(StripPdfSymbols(text.value), [], []), Mojibake, []), IsSpace, ' ');
      TrimPdfShape(c);
      PdfOutputShape(Trim(c));
    }
  }

  /** What the extractors return carries no leading or trailing blank. */
  lemma ExtractedTextTrimmed(extractor: Extractor, decoded: Option<string>)
    ensures Trimmed(ExtractedText(extractor, decoded))
  {
    if extractor == PdfExtractor { CleanPdfTextShape(decoded); }
  }
}
