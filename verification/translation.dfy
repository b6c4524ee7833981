/** The translation plugin: the table of supported languages, the order of
    the checks before a translation, name lookup with its fallback, and the
    shape of a batch. The translator, the language detector and the
    availability of the translation libraries are parameters of `TransEnv`. */
module Translation {
  import opened Wrappers
  import opened OrderedMap
  import opened PluginContract

  const PluginName := "translation"

  /** `self.supported_languages`, code to display name, in its literal order. */
  const Languages: OMap<string, string> := [
    ("af", "Afrikaans"), ("sq", "Albanian"), ("am", "Amharic"), ("ar", "Arabic"), ("hy", "Armenian"),
    ("az", "Azerbaijani"), ("eu", "Basque"), ("be", "Belarusian"), ("bn", "Bengali"), ("bs", "Bosnian"),
    ("bg", "Bulgarian"), ("ca", "Catalan"), ("ceb", "Cebuano"), ("zh", "Chinese"),
    ("zh-cn", "Chinese (Simplified)"), ("zh-tw", "Chinese (Traditional)"), ("co", "Corsican"),
    ("hr", "Croatian"), ("cs", "Czech"), ("da", "Danish"), ("nl", "Dutch"), ("en", "English"),
    ("eo", "Esperanto"), ("et", "Estonian"), ("fi", "Finnish"), ("fr", "French"), ("fy", "Frisian"),
    ("gl", "Galician"), ("ka", "Georgian"), ("de", "German"), ("el", "Greek"), ("gu", "Gujarati"),
    ("ht", "Haitian Creole"), ("ha", "Hausa"), ("haw", "Hawaiian"), ("he", "Hebrew"), ("hi", "Hindi"),
    ("hmn", "Hmong"), ("hu", "Hungarian"), ("is", "Icelandic"), ("ig", "Igbo"), ("id", "Indonesian"),
    ("ga", "Irish"), ("it", "Italian"), ("ja", "Japanese"), ("jv", "Javanese"), ("kn", "Kannada"),
    ("kk", "Kazakh"), ("km", "Khmer"), ("ko", "Korean"), ("ku", "Kurdish"), ("ky", "Kyrgyz"), ("lo", "Lao"),
    ("la", "Latin"), ("lv", "Latvian"), ("lt", "Lithuanian"), ("lb", "Luxembourgish"), ("mk", "Macedonian"),
    ("mg", "Malagasy"), ("ms", "Malay"), ("ml", "Malayalam"), ("mt", "Maltese"), ("mi", "Maori"),
    ("mr", "Marathi"), ("mn", "Mongolian"), ("my", "Myanmar (Burmese)"), ("ne", "Nepali"),
    ("no", "Norwegian"), ("ny", "Nyanja (Chichewa)"), ("or", "Odia (Oriya)"), ("ps", "Pashto"),
    ("fa", "Persian"), ("pl", "Polish"), ("pt", "Portuguese"), ("pa", "Punjabi"), ("ro", "Romanian"),
    ("ru", "Russian"), ("sm", "Samoan"), ("gd", "Scots Gaelic"), ("sr", "Serbian"), ("st", "Sesotho"),
    ("sn", "Shona"), ("sd", "Sindhi"), ("si", "Sinhala (Sinhalese)"), ("sk", "Slovak"), ("sl", "Slovenian"),
    ("so", "Somali"), ("es", "Spanish"), ("su", "Sundanese"), ("sw", "Swahili"), ("sv", "Swedish"),
    ("tg", "Tajik"), ("ta", "Tamil"), ("tt", "Tatar"), ("te", "Telugu"), ("th", "Thai"), ("tr", "Turkish"),
    ("tk", "Turkmen"), ("uk", "Ukrainian"), ("ur", "Urdu"), ("ug", "Uyghur"), ("uz", "Uzbek"),
    ("vi", "Vietnamese"), ("cy", "Welsh"), ("xh", "Xhosa"), ("yi", "Yiddish"), ("yo", "Yoruba"),
    ("zu", "Zulu")
  ]

  /** `supported_languages.get(code, code)`: the display name, or the code
      itself for a code the table does not know. */
  function LanguageName(code: string): (r: string)
    ensures code in Keys(Languages) <==> Get(Languages, code) == Some(r)
    ensures code !in Keys(Languages) ==> r == code
  {
    Get(Languages, code).GetOr(code)
  }

  /** A known code gets the name the table lists for it, an unknown code
      stands for itself. */
  lemma LanguageNameLookup(code: string)
    ensures code !in Keys(Languages) ==> LanguageName(code) == code
    ensures code in Keys(Languages) ==> Get(Languages, code) == Some(LanguageName(code))
  {
  }

  predicate Supported(code: string) {
    code in Keys(Languages)
  }

  /** An optional source language counts only when it is a non-empty code. */
  predicate Given(source: Option<string>) {
    source.Some? && source.value != ""
  }

  /* ----- Contract: declarations, widget, routing ----- */

  const Functions: seq<FunctionDecl> := [
    FunctionDecl("translate_text", "Translate text between supported languages",
      [StringParam("text", "Text to translate"),
       StringParam("target_language", "Target language code (e.g., 'es', 'fr', 'de')"),
       StringParam("source_language", "Source language code (auto-detect if not specified)")],
      ["text", "target_language"]),
    FunctionDecl("detect_language", "Detect the language of given text",
      [StringParam("text", "Text to detect language for")],
      ["text"]),
    FunctionDecl("get_supported_languages", "Get list of all supported languages", [], []),
    FunctionDecl("translate_batch", "Translate multiple texts to multiple languages",
      [Param("texts", ArrayOf(StringType), "Array of texts to translate"),
       Param("target_languages", ArrayOf(StringType), "Array of target language codes"),
       StringParam("source_language", "Source language code (auto-detect if not specified)")],
      ["texts", "target_languages"])
  ]

  const Instance: Plugin := Plugin(
    PluginName,
    "Multi-language translation with 100+ supported languages",
    Functions,
    Some(Widget("TranslationWidget", ["translation_update", "language_detection_update"])))

  datatype Op = TranslateTextOp | DetectLanguageOp | GetSupportedLanguagesOp | TranslateBatchOp

  function OpName(op: Op): string {
    match op
    case TranslateTextOp => "translate_text"
    case DetectLanguageOp => "detect_language"
    case GetSupportedLanguagesOp => "get_supported_languages"
    case TranslateBatchOp => "translate_batch"
  }

  /** `execute_function`: the handler a name selects, or the
      unknown-function error. */
  function Route(name: string): (r: Result<Op, string>)
    ensures r.Success? <==> name in FunctionNames(Functions)
    ensures r.Success? ==> OpName(r.value) == name
    ensures r.Failure? ==> r.error == UnknownFunction(name)
  {
    assert FunctionNames(Functions) == ["translate_text", "detect_language", "get_supported_languages", "translate_batch"];
    if name == "translate_text" then Success(TranslateTextOp)
    else if name == "detect_language" then Success(DetectLanguageOp)
    else if name == "get_supported_languages" then Success(GetSupportedLanguagesOp)
    else if name == "translate_batch" then Success(TranslateBatchOp)
    else Failure(UnknownFunction(name))
  }

  lemma RouteOpName(op: Op)
    ensures Route(OpName(op)) == Success(op)
  {
  }

  /* ----- Single translation and detection ----- */

  /** What the translator reports: the text and the languages it settled on. */
  datatype Translated = Translated(text: string, src: string, dest: string, confidence: Option<real>)

  /** A call to the translator: text, destination, optional source; the
      translation or the text of the exception. */
  type TranslateFn = (string, string, Option<string>) -> Result<Translated, string>

  /** The effects the handlers see: the translator (absent when the
      libraries are missing or it failed to start), whether the libraries
      imported, and the detector. */
  datatype TransEnv = TransEnv(
    translator: Option<TranslateFn>,
    librariesAvailable: bool,
    detect: string -> Result<string, string>)

  datatype Translation = Translation(
    originalText: string,
    translatedText: string,
    sourceLanguage: string,
    targetLanguage: string,
    sourceLanguageName: string,
    targetLanguageName: string,
    confidence: Option<real>)

  const NotAvailable := "Translation service not available"

  /** The check `_translate_text` and `_translate_batch` both make on an
      optional source language. */
  function CheckSource(source: Option<string>): (r: Option<string>)
    ensures r.Some? <==> Given(source) && !Supported(source.value)
    ensures r.Some? ==> r.value == "Unsupported source language: " + source.value
  {
    if Given(source) && !Supported(source.value) then Some("Unsupported source language: " + source.value) else None
  }

  /** `_translate_text` */
  function TranslateText(env: TransEnv, text: string, target: string, source: Option<string>): (r: Result<Translation, string>)
    ensures r.Success? ==> env.translator.Some? && Supported(target) && (Given(source) ==> Supported(source.value))
    ensures env.translator.None? ==> r == Failure(NotAvailable)
    ensures env.translator.Some? && !Supported(target) ==> r == Failure("Unsupported target language: " + target)
    ensures env.translator.Some? && Supported(target) && Given(source) && !Supported(source.value) ==>
      r == Failure("Unsupported source language: " + source.value)
    ensures env.translator.Some? && Supported(target) && CheckSource(source).None? ==>
      var t := env.translator.value(text, target, source);
      t.Failure? ==> r == Failure("Translation failed: " + t.error)
    ensures (env.translator.Some? && Supported(target) && CheckSource(source).None? &&
             env.translator.value(text, target, source).Success?) ==> r.Success?
    ensures r.Success? ==>
      var t := env.translator.value(text, target, source);
      && t.Success?
      && r.value.originalText == text
      && r.value.translatedText == t.value.text
      && r.value.sourceLanguage == t.value.src
      && r.value.targetLanguage == t.value.dest
      && r.value.sourceLanguageName == LanguageName(t.value.src)
      && r.value.targetLanguageName == LanguageName(t.value.dest)
      && r.value.confidence == t.value.confidence
  {
    match env.translator
    case None => Failure(NotAvailable)
    case Some(translate) =>
      if !Supported(target) then Failure("Unsupported target language: " + target)
      else if CheckSource(source).Some? then Failure(CheckSource(source).value)
      else
        match translate(text, target, source)
        case Failure(e) => Failure("Translation failed: " + e)
        case Success(t) =>
          Success(Translation(text, t.text, t.src, t.dest, LanguageName(t.src), LanguageName(t.dest), t.confidence))
  }

  /** The checks come before the translator is called: a failed check gives
      the same answer whatever the translator would do. */
  lemma ValidationBeforeTranslating(env1: TransEnv, env2: TransEnv, text: string, target: string, source: Option<string>)
    requires env1.translator.Some? && env2.translator.Some?
    requires !Supported(target) || (Given(source) && !Supported(source.value))
    ensures TranslateText(env1, text, target, source) == TranslateText(env2, text, target, source)
    ensures TranslateText(env1, text, target, source).Failure?
  {
  }

  datatype Detection = Detection(text: string, detectedLanguage: string, languageName: string, confidence: real)

  /** `_detect_language`: guarded by the libraries, not by the translator. */
  function DetectLanguage(env: TransEnv, text: string): (r: Result<Detection, string>)
    ensures r.Success? <==> env.librariesAvailable && env.detect(text).Success?
    ensures !env.librariesAvailable ==> r == Failure("Language detection not available")
    ensures env.librariesAvailable && env.detect(text).Failure? ==>
      r == Failure("Language detection failed: " + env.detect(text).error)
    ensures r.Success? ==>
      && r.value.text == text
      && r.value.detectedLanguage == env.detect(text).value
      && r.value.languageName == LanguageName(r.value.detectedLanguage)
      && r.value.confidence == 1.0
  {
    if !env.librariesAvailable then Failure("Language detection not available")
    else
      match env.detect(text)
      case Failure(e) => Failure("Language detection failed: " + e)
      case Success(code) => Success(Detection(text, code, LanguageName(code), 1.0))
  }

  datatype LanguageList = LanguageList(languages: OMap<string, string>, totalCount: nat)

  /** `_get_supported_languages`: the whole table and its size. */
  function GetSupportedLanguages(): (r: LanguageList)
    ensures r.languages == Languages
    ensures r.totalCount == |Keys(r.languages)| == 108
  {
    LanguageList(Languages, |Languages|)
  }

  /* ----- Batch ----- */

  /** One text-language pair of a batch: the translation, or the error the
      translator raised for that pair alone. */
  datatype PairResult =
    | PairTranslated(targetLanguage: string, targetLanguageName: string, translatedText: string,
                     sourceLanguage: string, sourceLanguageName: string)
    | PairFailed(targetLanguage: string, error: string)

  datatype TextResult = TextResult(originalText: string, translations: seq<PairResult>)

  datatype BatchReport = BatchReport(batchResults: seq<TextResult>, totalTexts: nat, totalLanguages: nat)

  /** The inner body of `_translate_batch` for one pair. */
  function TranslatePair(translate: TranslateFn, text: string, target: string, source: Option<string>): (r: PairResult)
    ensures r.targetLanguage == target
    ensures r.PairTranslated? <==> translate(text, target, source).Success?
    ensures r.PairFailed? ==> r.error == translate(text, target, source).error
    ensures r.PairTranslated? ==>
      var t := translate(text, target, source).value;
      && r.targetLanguageName == LanguageName(target)
      && r.translatedText == t.text && r.sourceLanguage == t.src
      && r.sourceLanguageName == LanguageName(t.src)
  {
    match translate(text, target, source)
    case Success(t) => PairTranslated(target, LanguageName(target), t.text, t.src, LanguageName(t.src))
    case Failure(e) => PairFailed(target, e)
  }

  /** The first target code the table does not know. */
  function FirstUnsupported(targets: seq<string>): (r: Option<nat>)
    ensures r.None? <==> forall j :: 0 <= j < |targets| ==> Supported(targets[j])
    ensures r.Some? ==> r.value < |targets| && !Supported(targets[r.value])
    ensures r.Some? ==> forall j :: 0 <= j < r.value ==> Supported(targets[j])
    decreases |targets|
  {
    if |targets| == 0 then None
    else if !Supported(targets[0]) then Some(0)
    else
      match FirstUnsupported(targets[1..])
      case None => None
      case Some(i) => Some(i + 1)
  }

  /** The checks of `_translate_batch`, in order: the translator, every
      target, then the source. */
  function BatchCheck(env: TransEnv, targets: seq<string>, source: Option<string>): (r: Option<string>)
    ensures r.None? <==>
      env.translator.Some? && (forall j :: 0 <= j < |targets| ==> Supported(targets[j])) && CheckSource(source).None?
    ensures env.translator.None? ==> r == Some(NotAvailable)
    ensures env.translator.Some? && FirstUnsupported(targets).Some? ==>
      r == Some("Unsupported target language: " + targets[FirstUnsupported(targets).value])
    ensures env.translator.Some? && FirstUnsupported(targets).None? ==> r == CheckSource(source)
  {
    if env.translator.None? then Some(NotAvailable)
    else if FirstUnsupported(targets).Some? then Some("Unsupported target language: " + targets[FirstUnsupported(targets).value])
    else CheckSource(source)
  }

  /** `_translate_batch`: every text against every target, in order; a
      pair that fails is reported in its slot and the batch goes on. */
  method TranslateBatch(env: TransEnv, texts: seq<string>, targets: seq<string>, source: Option<string>)
    returns (r: Result<BatchReport, string>)
    ensures r.Failure? <==> BatchCheck(env, targets, source).Some?
    ensures r.Failure? ==> r.error == BatchCheck(env, targets, source).value
    ensures r.Success? ==>
      && r.value.totalTexts == |texts| && r.value.totalLanguages == |targets|
      && |r.value.batchResults| == |texts|
      && forall i :: 0 <= i < |texts| ==>
        && r.value.batchResults[i].originalText == texts[i]
        && |r.value.batchResults[i].translations| == |targets|
        && forall j :: 0 <= j < |targets| ==>
          r.value.batchResults[i].translations[j] == TranslatePair(env.translator.value, texts[i], targets[j], source)
  {
    var check := BatchCheck(env, targets, source);
    if check.Some? {
      return Failure(check.value);
    }
    var results := TranslateAll(env.translator.value, texts, targets, source);
    r := Success(BatchReport(results, |texts|, |targets|));
  }

  /** The outer loop of `_translate_batch`: every text, in order. */
  method TranslateAll(translate: TranslateFn, texts: seq<string>, targets: seq<string>, source: Option<string>)
    returns (results: seq<TextResult>)
    ensures |results| == |texts|
    ensures forall i :: 0 <= i < |texts| ==>
      && results[i].originalText == texts[i]
      && |results[i].translations| == |targets|
      && forall j :: 0 <= j < |targets| ==> results[i].translations[j] == TranslatePair(translate, texts[i], targets[j], source)
  {
    results := [];
    var i := 0;
    while i < |texts|
      invariant 0 <= i <= |texts|
      invariant |results| == i
      invariant forall k :: 0 <= k < i ==>
        && results[k].originalText == texts[k]
        && |results[k].translations| == |targets|
        && forall j :: 0 <= j < |targets| ==> results[k].translations[j] == TranslatePair(translate, texts[k], targets[j], source)
    {
      var row := TranslateRow(translate, texts[i], targets, source);
      var before := results;
      results := results + [TextResult(texts[i], row)];
      assert forall k :: 0 <= k < i ==> results[k] == before[k];
      assert results[i] == TextResult(texts[i], row);
      i := i + 1;
    }
  }

  /** The inner loop of `_translate_batch`: one text against every target. */
  method TranslateRow(translate: TranslateFn, text: string, targets: seq<string>, source: Option<string>)
    returns (row: seq<PairResult>)
    ensures |row| == |targets|
    ensures forall j :: 0 <= j < |targets| ==> row[j] == TranslatePair(translate, text, targets[j], source)
  {
    row := [];
    var j := 0;
    while j < |targets|
      invariant 0 <= j <= |targets|
      invariant |row| == j
      invariant forall l :: 0 <= l < j ==> row[l] == TranslatePair(translate, text, targets[l], source)
    {
      row := row + [TranslatePair(translate, text, targets[j], source)];
      j := j + 1;
    }
  }

  /** Batch and single translation agree: once the checks pass, a pair
      succeeds in the batch exactly when the single call succeeds, with the
      same text and source, and its failure carries the same message. */
  lemma BatchPairAgreesWithSingle(env: TransEnv, text: string, target: string, source: Option<string>)
    requires env.translator.Some? && Supported(target) && CheckSource(source).None?
    ensures var pair := TranslatePair(env.translator.value, text, target, source);
      var single := TranslateText(env, text, target, source);
      && (pair.PairTranslated? <==> single.Success?)
      && (single.Success? ==>
            pair.translatedText == single.value.translatedText &&
            pair.sourceLanguage == single.value.sourceLanguage &&
            pair.sourceLanguageName == single.value.sourceLanguageName)
      && (single.Failure? ==> single.error == "Translation failed: " + pair.error)
  {
  }
}
