/** The document analysis plugin: file-type detection from the name, the
    order of the checks an upload goes through, the document store, the
    excerpt and the inputs handed to the summariser and the question
    answerer. Base64 decoding, the per-format parsers, MD5, the event-loop
    clock and the two language models are parameters of `DocEnv`. */
module DocumentAnalysis {
  import opened Wrappers
  import opened Strings
  import opened OrderedMap
  import opened PluginContract

  const PluginName := "document_analysis"

  newtype byte = b: int | 0 <= b < 256

  /* ----- Contract: declarations, widget, routing ----- */

  const Functions: seq<FunctionDecl> := [
    FunctionDecl("analyze_document",
      "Analyze and extract content from uploaded documents (PDF, DOCX, TXT, MD, RTF, CSV, XLSX, PPTX, PNG, JPG)",
      [StringParam("file_data", "Base64 encoded file data"),
       StringParam("filename", "Original filename with extension"),
       StringParam("analysis_type", "Type of analysis: 'extract', 'summarize', or 'qa'"),
       StringParam("question", "Question for Q&A analysis (required if analysis_type is 'qa')")],
      ["file_data", "filename", "analysis_type"]),
    FunctionDecl("list_documents", "List all uploaded and processed documents", [], []),
    FunctionDecl("delete_document", "Delete a document from storage",
      [StringParam("document_id", "ID of document to delete")],
      ["document_id"])
  ]

  const Instance: Plugin := Plugin(
    PluginName,
    "Document analysis and processing with multi-format support",
    Functions,
    Some(Widget("DocumentAnalysisWidget", ["document_analysis_update", "document_list_update"])))

  datatype Op = AnalyzeDocumentOp | ListDocumentsOp | DeleteDocumentOp

  function OpName(op: Op): string {
    match op
    case AnalyzeDocumentOp => "analyze_document"
    case ListDocumentsOp => "list_documents"
    case DeleteDocumentOp => "delete_document"
  }

  /** `execute_function`: the handler a name selects, or the
      unknown-function error. */
  function Route(name: string): (r: Result<Op, string>)
    ensures r.Success? <==> name in FunctionNames(Functions)
    ensures r.Success? ==> OpName(r.value) == name
    ensures r.Failure? ==> r.error == UnknownFunction(name)
  {
    assert FunctionNames(Functions) == ["analyze_document", "list_documents", "delete_document"];
    if name == "analyze_document" then Success(AnalyzeDocumentOp)
    else if name == "list_documents" then Success(ListDocumentsOp)
    else if name == "delete_document" then Success(DeleteDocumentOp)
    else Failure(UnknownFunction(name))
  }

  lemma RouteOpName(op: Op)
    ensures Route(OpName(op)) == Success(op)
  {
  }

  /* ----- File type ----- */

  /** The parser `supported_formats` assigns to an extension. */
  datatype Parser = Pdf | Docx | PlainText | Csv | Excel | Pptx | Image

  const SupportedFormats: seq<(string, Parser)> := [
    (".pdf", Pdf), (".docx", Docx), (".txt", PlainText), (".md", PlainText), (".rtf", PlainText),
    (".csv", Csv), (".xlsx", Excel), (".pptx", Pptx), (".png", Image), (".jpg", Image), (".jpeg", Image)
  ]

  /** `PurePosixPath(path).name`: the last component, where empty and `.`
      components do not count. */
  function BaseName(path: string): (r: string)
    ensures !Contains(r, '/')
    ensures r != "."
    decreases |path|
  {
    var i := RFind(path, '/');
    var last := path[i + 1..];
    if last == "" || last == "." then
      if i < 0 then "" else BaseName(path[..i])
    else
      assert !Contains(last, '/') by {
        forall j | 0 <= j < |last| ensures last[j] != '/' { assert last[j] == path[i + 1 + j]; }
      }
      last
  }

  /** `PurePath.suffix` of a name: from the last dot on, provided that dot
      is neither the first nor the last character. */
  function Suffix(name: string): (r: string)
    ensures r != "" ==> 2 <= |r| < |name| && r[0] == '.' && r == name[|name| - |r|..]
    ensures forall j :: 0 < j < |r| ==> r[j] != '.'
  {
    var i := RFind(name, '.');
    if 0 < i < |name| - 1 then name[i..] else ""
  }

  /** `Path(filename).suffix.lower()` */
  function FileExtension(filename: string): (r: string)
    ensures r == "" || (|r| >= 2 && r[0] == '.')
  {
    Lower(Suffix(BaseName(filename)))
  }

  /** An extension is empty, or a dot followed by at least one character,
      with no further dot and no slash. */
  lemma ExtensionShape(filename: string)
    ensures var e := FileExtension(filename);
      e == "" || (|e| >= 2 && e[0] == '.' && !Contains(e[1..], '.') && !Contains(e, '/'))
  {
    var name := BaseName(filename);
    var i := RFind(name, '.');
    var e := FileExtension(filename);
    if 0 < i < |name| - 1 {
      var sfx := name[i..];
      assert e == Lower(sfx);
      forall j | 1 <= j < |e| ensures e[j] != '.' && e[j] != '/' {
        assert sfx[j] == name[i + j];
        assert name[i + j] != '.';
        assert name[i + j] != '/' by { assert !Contains(name, '/'); }
      }
      assert e[0] == '.' by { assert sfx[0] == '.'; }
      assert !Contains(e[1..], '.') by {
        forall j | 0 <= j < |e[1..]| ensures e[1..][j] != '.' { assert e[1..][j] == e[j + 1]; }
      }
    }
  }

  /** The extension comes from the last path component alone. */
  lemma ExtensionOfLastComponent(dir: string, name: string)
    requires name != "" && name != "." && !Contains(name, '/')
    ensures FileExtension(dir + "/" + name) == FileExtension(name)
  {
    var p := dir + "/" + name;
    assert p[|dir|] == '/';
    assert forall j :: |dir| < j < |p| ==> p[j] == name[j - |dir| - 1];
    assert RFind(p, '/') == |dir|;
    assert p[|dir| + 1..] == name;
    assert RFind(name, '/') == -1;
    assert name[0..] == name;
  }

  /** `stem.ext` has extension `.ext` in lower case. */
  lemma ExtensionOfStem(stem: string, ext: string)
    requires stem != "" && ext != ""
    requires !Contains(stem, '/') && !Contains(ext, '/') && !Contains(ext, '.')
    ensures FileExtension(stem + "." + ext) == Lower("." + ext)
  {
    var name := stem + "." + ext;
    NoSlashBaseName(name, stem, ext);
    SuffixOfStem(name, stem, ext);
    assert FileExtension(name) == Lower(Suffix(name));
  }

  lemma SuffixOfStem(name: string, stem: string, ext: string)
    requires name == stem + "." + ext && stem != "" && ext != "" && !Contains(ext, '.')
    ensures Suffix(name) == "." + ext
  {
    forall j | |stem| < j < |name| ensures name[j] != '.' { assert name[j] == ext[j - |stem| - 1]; }
    RFindAt(name, '.', |stem|);
    assert name[|stem|..] == "." + ext;
  }

  lemma NoSlashBaseName(name: string, stem: string, ext: string)
    requires name == stem + "." + ext && stem != "" && ext != ""
    requires !Contains(stem, '/') && !Contains(ext, '/')
    ensures BaseName(name) == name
  {
    forall j | 0 <= j < |name| ensures name[j] != '/' {
      if j < |stem| { assert name[j] == stem[j]; }
      else if j > |stem| { assert name[j] == ext[j - |stem| - 1]; }
    }
    RFindAt(name, '/', -1);
    assert name[0..] == name;
  }

  lemma ExtensionEdgeCases()
    ensures FileExtension(".bashrc") == ""
    ensures FileExtension("notes.") == ""
    ensures FileExtension("") == ""
  {
    DotFileHasNoExtension();
    TrailingDotIsNoExtension();
  }

  lemma DotFileHasNoExtension()
    ensures FileExtension(".bashrc") == ""
  {
    assert RFind(".bashrc", '/') == -1;
    assert ".bashrc"[0..] == ".bashrc";
    RFindAt(".bashrc", '.', 0);
  }

  lemma TrailingDotIsNoExtension()
    ensures FileExtension("notes.") == ""
  {
    assert RFind("notes.", '/') == -1;
    assert "notes."[0..] == "notes.";
    assert RFind("notes.", '.') == 5;
  }

  /** `supported_formats.get(ext)` */
  function ParserFor(ext: string): (r: Option<Parser>)
    ensures r.Some? <==> ext in Keys(SupportedFormats)
    ensures r.Some? ==> (ext, r.value) in SupportedFormats
  {
    assert UniqueKeys(SupportedFormats);
    Get(SupportedFormats, ext)
  }

  /** The extension test ignores case. */
  lemma UpperCaseExtensionAccepted()
    ensures FileExtension("Report.PDF") == ".pdf"
    ensures ParserFor(".pdf") == Some(Pdf)
  {
    UpperCaseExtension();
    assert SupportedFormats[0] == (".pdf", Pdf);
    IndexOfFirst(SupportedFormats, ".pdf", 0);
  }

  lemma UpperCaseExtension()
    ensures FileExtension("Report.PDF") == ".pdf"
  {
    StemAndExtensionPlain();
    ExtensionOfStem("Report", "PDF");
    LowerPdf();
  }

  lemma StemAndExtensionPlain()
    ensures "Report.PDF" == "Report" + "." + "PDF"
    ensures !Contains("PDF", '.') && !Contains("PDF", '/') && !Contains("Report", '/')
  {
    forall j | 0 <= j < 3 ensures "PDF"[j] != '.' && "PDF"[j] != '/' {}
    forall j | 0 <= j < 6 ensures "Report"[j] != '/' {}
  }

  lemma LowerPdf()
    ensures Lower(".PDF") == ".pdf"
  {
    assert ".PDF"[1..] == "PDF" && "PDF"[1..] == "DF" && "DF"[1..] == "F" && "F"[1..] == "";
  }

  /* ----- Store and analysis ----- */

  /** One entry of `self.documents`. */
  datatype StoredDoc = StoredDoc(filename: string, content: string, fileSize: nat, uploadTime: real)

  type DocStore = OMap<string, StoredDoc>

  /** The effects `_analyze_document` sees: base64 decoding (bytes or the
      exception text), the parser a format selects (the empty text when it
      raises), MD5 as hex, the event-loop clock, and the two models, each
      absent when loading failed and yielding None when a call raises. */
  datatype DocEnv = DocEnv(
    decode: string -> Result<seq<byte>, string>,
    parse: (Parser, seq<byte>) -> string,
    md5Hex: seq<byte> -> string,
    now: real,
    summarizer: Option<string -> Option<string>>,
    answerer: Option<(string, string) -> Option<string>>)

  datatype Analysis = Analysis(
    documentId: string,
    filename: string,
    contentLength: nat,
    analysisType: string,
    extractedContent: Option<string>,
    summary: Option<string>,
    question: Option<string>,
    answer: Option<string>)

  const ExcerptLength := 2000
  const SummaryInputLength := 1024
  const AnswerContextLength := 512

  /** The `extracted_content` of an `extract` analysis. */
  function Excerpt(content: string): (r: string)
    ensures |r| <= ExcerptLength + 3
    ensures |content| <= ExcerptLength ==> r == content
    ensures |content| > ExcerptLength ==> r == content[..ExcerptLength] + "..."
  {
    if |content| > ExcerptLength then content[..ExcerptLength] + "..." else content
  }

  /** An excerpt starts with the content, cut at the limit, and it runs
      past the limit exactly when the content does. */
  lemma ExcerptPrefix(content: string)
    ensures StartsWith(Excerpt(content), Truncate(content, ExcerptLength))
    ensures |Excerpt(content)| > ExcerptLength <==> |content| > ExcerptLength
  {
    if |content| > ExcerptLength {
      StartsWithConcat(content[..ExcerptLength], "...");
    } else {
      assert Excerpt(content)[..|content|] == content;
    }
  }

  /** `_summarize_text`, and the placeholder when no summariser is loaded. */
  function Summary(env: DocEnv, content: string): (r: string)
    ensures env.summarizer.None? ==> r == "Summarization not available (AI models not loaded)"
    ensures env.summarizer.Some? && env.summarizer.value(Truncate(content, SummaryInputLength)).None? ==>
      r == "Summarization failed"
    ensures env.summarizer.Some? && env.summarizer.value(Truncate(content, SummaryInputLength)).Some? ==>
      r == env.summarizer.value(Truncate(content, SummaryInputLength)).value
  {
    match env.summarizer
    case None => "Summarization not available (AI models not loaded)"
    case Some(summarize) =>
      match summarize(Truncate(content, SummaryInputLength))
      case Some(text) => text
      case None => "Summarization failed"
  }

  /** `_answer_question`; its caller supplies the placeholder when no model
      is loaded. */
  function Answer(answerer: (string, string) -> Option<string>, content: string, question: string): (r: string)
    ensures r != ""
    ensures answerer(question, Truncate(content, AnswerContextLength)).None? ==> r == "Q&A failed"
    ensures answerer(question, Truncate(content, AnswerContextLength)) == Some("") ==> r == "No answer found"
    ensures var a := answerer(question, Truncate(content, AnswerContextLength)); a.Some? && a.value != "" ==> r == a.value
  {
    match answerer(question, Truncate(content, AnswerContextLength))
    case None => "Q&A failed"
    case Some(a) => if a == "" then "No answer found" else a
  }

  /** The summary depends on the first 1024 characters only, and the answer
      on the question and the first 512. */
  lemma ModelInputsBounded(env: DocEnv, c1: string, c2: string, question: string)
    ensures Truncate(c1, SummaryInputLength) == Truncate(c2, SummaryInputLength) ==> Summary(env, c1) == Summary(env, c2)
    ensures env.answerer.Some? && Truncate(c1, AnswerContextLength) == Truncate(c2, AnswerContextLength) ==>
      Answer(env.answerer.value, c1, question) == Answer(env.answerer.value, c2, question)
  {
  }

  /** The answer given to a question when no model is loaded. */
  const QaUnavailable := "Q&A not available (AI models not loaded)"

  /** The analysis part of the response for a stored document. */
  function Analyse(env: DocEnv, id: string, filename: string, content: string, analysisType: string,
                   question: Option<string>): (a: Analysis)
    ensures a.documentId == id && a.filename == filename
    ensures a.contentLength == |content| && a.analysisType == analysisType
  {
    var base := Analysis(id, filename, |content|, analysisType, None, None, None, None);
    if analysisType == "extract" then base.(extractedContent := Some(Excerpt(content)))
    else if analysisType == "summarize" then base.(summary := Some(Summary(env, content)))
    else if analysisType == "qa" && question.Some? && question.value != "" then
      match env.answerer
      case Some(answerer) => base.(question := question, answer := Some(Answer(answerer, content, question.value)))
      case None => base.(answer := Some(QaUnavailable))
    else base
  }

  /** The checks `_analyze_document` makes before it stores anything, in
      order: the data must decode, the extension must be supported, and
      the parser must yield some text. Success gives the bytes and the text. */
  function ExtractContent(env: DocEnv, fileData: string, filename: string): (r: Result<(seq<byte>, string), string>)
    ensures env.decode(fileData).Failure? ==> r == Failure("Document analysis failed: " + env.decode(fileData).error)
    ensures env.decode(fileData).Success? && ParserFor(FileExtension(filename)).None? ==>
      r == Failure("Unsupported file format: " + FileExtension(filename))
    ensures env.decode(fileData).Success? && ParserFor(FileExtension(filename)).Some? ==>
      var content := env.parse(ParserFor(FileExtension(filename)).value, env.decode(fileData).value);
      && (content == "" ==> r == Failure("Failed to extract content from document"))
      && (content != "" ==> r == Success((env.decode(fileData).value, content)))
  {
    match env.decode(fileData)
    case Failure(e) => Failure("Document analysis failed: " + e)
    case Success(bytes) =>
      var ext := FileExtension(filename);
      match ParserFor(ext)
      case None => Failure("Unsupported file format: " + ext)
      case Some(parser) =>
        var content := env.parse(parser, bytes);
        if content == "" then Failure("Failed to extract content from document")
        else Success((bytes, content))
  }

  /** `_analyze_document`: the new store and the response. A failed check
      stores nothing; otherwise the document is stored under the MD5 of its
      bytes and analysed. */
  function AnalyzeDocument(env: DocEnv, docs: DocStore, fileData: string, filename: string, analysisType: string,
                           question: Option<string>): (r: (DocStore, Result<Analysis, string>))
    ensures r.1.Failure? <==> ExtractContent(env, fileData, filename).Failure?
    ensures r.1.Failure? ==> r.0 == docs && r.1.error == ExtractContent(env, fileData, filename).error
    ensures r.1.Success? ==>
      var (bytes, content) := ExtractContent(env, fileData, filename).value;
      && r.1.value.documentId == env.md5Hex(bytes)
      && r.1.value.filename == filename
      && r.1.value.contentLength == |content|
      && r.1.value.analysisType == analysisType
      && Get(r.0, r.1.value.documentId) == Some(StoredDoc(filename, content, |bytes|, env.now))
  {
    match ExtractContent(env, fileData, filename)
    case Failure(e) => (docs, Failure(e))
    case Success((bytes, content)) =>
      var id := env.md5Hex(bytes);
      (Put(docs, id, StoredDoc(filename, content, |bytes|, env.now)),
       Success(Analyse(env, id, filename, content, analysisType, question)))
  }

  /** An upload stores exactly one entry: every other document keeps its
      entry, and the store grows only when the content is new. */
  lemma UploadTouchesOneEntry(env: DocEnv, docs: DocStore, fileData: string, filename: string, analysisType: string,
                              question: Option<string>, other: string)
    requires ExtractContent(env, fileData, filename).Success?
    ensures var (docs', r) := AnalyzeDocument(env, docs, fileData, filename, analysisType, question);
      && (other != r.value.documentId ==> Get(docs', other) == Get(docs, other))
      && Keys(docs') == if r.value.documentId in Keys(docs) then Keys(docs) else Keys(docs) + [r.value.documentId]
  {
    var (docs', r) := AnalyzeDocument(env, docs, fileData, filename, analysisType, question);
    var (bytes, content) := ExtractContent(env, fileData, filename).value;
    if other != r.value.documentId {
      PutGetOther(docs, r.value.documentId, StoredDoc(filename, content, |bytes|, env.now), other);
    }
  }

  /** The response answers the analysis that was asked for: an excerpt
      for `extract`, a summary for `summarize`, an answer for `qa` with a
      question, and nothing more otherwise. */
  lemma AnalysisMatchesRequest(env: DocEnv, docs: DocStore, fileData: string, filename: string, analysisType: string,
                               question: Option<string>)
    requires ExtractContent(env, fileData, filename).Success?
    ensures var a := AnalyzeDocument(env, docs, fileData, filename, analysisType, question).1.value;
      var content := ExtractContent(env, fileData, filename).value.1;
      && (a.extractedContent.Some? <==> analysisType == "extract")
      && (a.extractedContent.Some? ==> a.extractedContent.value == Excerpt(content))
      && (a.summary.Some? <==> analysisType == "summarize")
      && (a.answer.Some? <==> analysisType == "qa" && question.Some? && question.value != "")
      && (a.question.Some? <==> a.answer.Some? && env.answerer.Some?)
      && (a.question.Some? ==> a.question == question)
      && (a.summary.Some? ==> a.summary.value == Summary(env, content))
      && (a.answer.Some? && env.answerer.Some? ==> a.answer.value == Answer(env.answerer.value, content, question.value))
      && (a.answer.Some? && env.answerer.None? ==> a.answer.value == QaUnavailable)
  {
    var (bytes, content) := ExtractContent(env, fileData, filename).value;
    assert AnalyzeDocument(env, docs, fileData, filename, analysisType, question).1.value
        == Analyse(env, env.md5Hex(bytes), filename, content, analysisType, question);
    AnalyseMatchesRequest(env, env.md5Hex(bytes), filename, content, analysisType, question);
  }

  lemma AnalyseMatchesRequest(env: DocEnv, id: string, filename: string, content: string, analysisType: string,
                              question: Option<string>)
    ensures var a := Analyse(env, id, filename, content, analysisType, question);
      && (a.extractedContent.Some? <==> analysisType == "extract")
      && (a.extractedContent.Some? ==> a.extractedContent.value == Excerpt(content))
      && (a.summary.Some? <==> analysisType == "summarize")
      && (a.answer.Some? <==> analysisType == "qa" && question.Some? && question.value != "")
      && (a.question.Some? <==> a.answer.Some? && env.answerer.Some?)
      && (a.question.Some? ==> a.question == question)
      && (a.summary.Some? ==> a.summary.value == Summary(env, content))
      && (a.answer.Some? && env.answerer.Some? ==> a.answer.value == Answer(env.answerer.value, content, question.value))
      && (a.answer.Some? && env.answerer.None? ==> a.answer.value == QaUnavailable)
  {
  }

  /* ----- Listing and deletion ----- */

  datatype Listing = Listing(id: string, filename: string, fileSize: nat, uploadTime: real)

  /** `_list_documents`: one entry per stored document, in insertion order,
      without the content. */
  function ListDocuments(docs: DocStore): (r: seq<Listing>)
    ensures |r| == |docs|
    ensures forall i :: 0 <= i < |docs| ==>
      r[i] == Listing(docs[i].0, docs[i].1.filename, docs[i].1.fileSize, docs[i].1.uploadTime)
  {
    seq(|docs|, i requires 0 <= i < |docs| =>
      Listing(docs[i].0, docs[i].1.filename, docs[i].1.fileSize, docs[i].1.uploadTime))
  }

  /** A new document is listed last, after the ones already there. */
  lemma ListAfterNewUpload(docs: DocStore, id: string, d: StoredDoc)
    requires id !in Keys(docs)
    ensures ListDocuments(Put(docs, id, d)) == ListDocuments(docs) + [Listing(id, d.filename, d.fileSize, d.uploadTime)]
  {
    assert Put(docs, id, d) == docs + [(id, d)];
  }

  /** `_delete_document`: the new store and the message. */
  function DeleteDocument(docs: DocStore, id: string): (r: (DocStore, Result<string, string>))
    ensures r.1.Success? <==> id in Keys(docs)
    ensures r.1.Failure? ==> r.0 == docs && r.1.error == "Document not found"
    ensures r.1.Success? ==> r.1.value == "Document deleted" && |r.0| == |docs| - 1
  {
    if id in Keys(docs) then (Remove(docs, id), Success("Document deleted"))
    else (docs, Failure("Document not found"))
  }

  /** Deleting forgets the document and no other. */
  lemma DeleteForgets(docs: DocStore, id: string, other: string)
    requires UniqueKeys(docs)
    ensures id !in Keys(DeleteDocument(docs, id).0)
    ensures other != id ==> Get(DeleteDocument(docs, id).0, other) == Get(docs, other)
    ensures UniqueKeys(DeleteDocument(docs, id).0)
  {
    RemoveUnique(docs, id);
    if other != id {
      RemoveGetOther(docs, id, other);
    }
  }

  /** Deleting a document that an upload has just added restores the store. */
  lemma UploadThenDelete(env: DocEnv, docs: DocStore, fileData: string, filename: string, analysisType: string,
                         question: Option<string>)
    requires ExtractContent(env, fileData, filename).Success?
    requires env.md5Hex(ExtractContent(env, fileData, filename).value.0) !in Keys(docs)
    ensures var (docs', r) := AnalyzeDocument(env, docs, fileData, filename, analysisType, question);
      DeleteDocument(docs', r.value.documentId) == (docs, Success("Document deleted"))
  {
    var (bytes, content) := ExtractContent(env, fileData, filename).value;
    PutThenRemove(docs, env.md5Hex(bytes), StoredDoc(filename, content, |bytes|, env.now));
  }
}
