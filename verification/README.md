# ADA plugin core in Dafny

A model of the plugin layer of the ADA assistant server: the `PluginManager`
that discovers plugin modules, loads one plugin per module, and merges
their function declarations, call mapping and widget information; and the
deterministic logic of four plugins:

- the QR code generator (type and colour validation, logo placement,
  bulk bookkeeping, Wi-Fi and vCard payloads);
- document analysis (extension detection, the upload pipeline, the
  document store, excerpt and model-input truncation);
- translation (the 108-entry language table, the order of the checks,
  batch translation with per-pair failures);
- image generation (model guard, default negative prompt, parameter
  clamping, the saved file name and the delete-by-id lookup), both as
  written, where a misplaced `await` makes every generation fail, and as
  evidently intended.

Every effect the Python code performs through a library becomes a value
the caller supplies:

- the directory listing and the import and constructor outcomes of each
  module (`Candidate`);
- the QR renderer (`QrEnv.render`);
- base64 decoding, the format parsers, MD5 and the two language models
  (`DocEnv`);
- the translator and detector (`TransEnv`);
- the diffusion pipeline (`ImageEnv.pipeline`);
- every clock reading.

A Python `dict` is `OrderedMap.OMap`, a sequence of key/value pairs that
keeps insertion order, replaces in place on re-assignment and closes the
gap on deletion. A response dictionary is a `Result`: `Failure(text)`
stands for `{"error": text}`.

Files: `wrappers.dfy` (Option, Result), `strings.dfy` (Python string
helpers), `ordered_map.dfy`, `plugin_contract.dfy` (declaration and
widget records), `plugin_manager.dfy`, `qr_code_generator.dfy`,
`document_analysis.dfy`, `translation.dfy`, `image_generation.dfy`, and
`shipped_plugins.dfy`, which loads the plugin directory as it ships.

## Model

| member | source | states |
|---|---|---|
| OrderedMap.Get | ada_app-main/server/plugins/__init__.py:72 | a lookup is absent exactly when the key was never assigned; with unique keys it yields the value stored with that key |
| OrderedMap.Put | ada_app-main/server/plugins/__init__.py:72 | assigning a key keeps the key order (a new key goes last), makes the key map to the new value and keeps keys unique |
| OrderedMap.PutGetOther | ada_app-main/server/plugins/document_analysis.py:160-165 | assigning one key leaves the lookup of every other key unchanged |
| OrderedMap.Remove | ada_app-main/server/plugins/document_analysis.py:376-377 | deleting a present key shortens the dict by one and keeps the other pairs in order; a missing key leaves it alone |
| OrderedMap.PutThenRemove | ada_app-main/server/plugins/document_analysis.py:160-165 | deleting a key that was just added restores the dict |
| OrderedMap.RemoveGetOther | ada_app-main/server/plugins/document_analysis.py:377 | deleting one key leaves every other lookup as it was |
| OrderedMap.PutAllGet | ada_app-main/server/plugins/__init__.py:90-95 | after a run of assignments the last assignment to a key wins and unassigned keys keep their values |
| OrderedMap.PutAllHasKey | ada_app-main/server/plugins/__init__.py:90-95 | the keys after the run are the old keys plus the assigned ones, nothing else |
| OrderedMap.PutAllAppend | ada_app-main/server/plugins/__init__.py:91-95 | a run of assignments split anywhere composes, pair by pair |
| OrderedMap.PutAllSize | ada_app-main/server/plugins/__init__.py:90-96 | a dict built from scratch has one entry per distinct key |
| PluginManager.ModuleName | ada_app-main/server/plugins/__init__.py:52 | the module name followed by `.py` is the file name again |
| PluginManager.PluginFileExamples | ada_app-main/server/plugins/__init__.py:51-52 | `translation.py` is a plugin file of module `translation`; `__init__.py`, `__pycache__`, `notes.txt` and `translation.pyc` are not plugin files |
| PluginManager.DiscoverPlugins | ada_app-main/server/plugins/__init__.py:47-54 | discovery yields at most one module per directory entry |
| PluginManager.DiscoverMembers | ada_app-main/server/plugins/__init__.py:50-53 | a name is discovered exactly when some listed file ends in `.py`, does not start with `__`, and is that name plus `.py` |
| PluginManager.DiscoverAppend | ada_app-main/server/plugins/__init__.py:50-53 | discovery keeps listing order |
| PluginManager.FirstConforming | ada_app-main/server/plugins/__init__.py:66-69 | the member taken is the first that is a class, a subclass of PluginBase and not PluginBase itself |
| PluginManager.LoadOne | ada_app-main/server/plugins/__init__.py:61-77 | a failing import, or a raising constructor of the first conforming class, fails the candidate; without a conforming class nothing loads; otherwise the first conforming class's instance loads |
| PluginManager.Register | ada_app-main/server/plugins/__init__.py:72 | a candidate that does not load leaves the registry as it is; one that loads makes its reported name map to its instance, adding the name last only when it is new |
| PluginManager.OnlyFirstConformingMatters | ada_app-main/server/plugins/__init__.py:70-74 | members after the first conforming one are never examined (the `break`) |
| PluginManager.LoadPlugins | ada_app-main/server/plugins/__init__.py:56-79 | loading only adds names, keeps keys unique and keys every plugin by the name it reports |
| PluginManager.LoadAppend | ada_app-main/server/plugins/__init__.py:60-77 | loading composes candidate by candidate |
| PluginManager.SkipFailed | ada_app-main/server/plugins/__init__.py:76-77 | a candidate that fails or has no plugin class leaves the registry exactly as if it were absent |
| PluginManager.LoadLastWins | ada_app-main/server/plugins/__init__.py:72 | the entry for a name is the instance of the last candidate that loads that name |
| PluginManager.LoadUntouched | ada_app-main/server/plugins/__init__.py:72 | a name no candidate loads keeps its previous entry |
| PluginManager.LoadFromEmpty | ada_app-main/server/plugins/__init__.py:56-79 | from an empty registry a name is registered exactly when some candidate loads it, once |
| PluginManager.LoadDistinctNames | ada_app-main/server/plugins/__init__.py:60-74 | when every candidate loads and no two report the same name, the registry holds every plugin once, under its name, in candidate order |
| PluginManager.CandidatesFor | ada_app-main/server/plugins/__init__.py:58-63 | one import per discovered module, in discovery order, each the import of `plugins.<module>` |
| PluginManager.LoadDiscovered | ada_app-main/server/plugins/__init__.py:56-79 | discovery then loading adds at most one entry per plugin file, never drops a name and keeps keys unique and every key equal to its plugin's name |
| PluginManager.LoadDiscoveredNames | ada_app-main/server/plugins/__init__.py:56-79 | after `load_plugins` a name is registered exactly when it was before or some plugin file in the listing imports to a plugin reporting that name |
| PluginManager.LoadDiscoveredSkipsNonPluginFiles | ada_app-main/server/plugins/__init__.py:50-51 | an entry that is not a plugin file changes nothing, wherever it stands in the listing |
| PluginManager.LoadDiscoveredAppend | ada_app-main/server/plugins/__init__.py:58-60 | loading a listing split in two is loading the first part, then the second into the result |
| PluginManager.GetAllFunctions | ada_app-main/server/plugins/__init__.py:81-86 | the catalog holds a declaration exactly when some registered plugin declares it |
| PluginManager.CatalogCounts | ada_app-main/server/plugins/__init__.py:81-86 | the catalog's length, and its count of any name, are the sums over the plugins: duplicates are kept |
| PluginManager.CatalogAppend | ada_app-main/server/plugins/__init__.py:84-85 | the catalog of concatenated registries is the concatenation of their catalogs, in registry order |
| PluginManager.PluginBindings | ada_app-main/server/plugins/__init__.py:92-95 | one binding per declared function of a plugin, in declaration order, each calling that plugin with that name |
| PluginManager.Bindings | ada_app-main/server/plugins/__init__.py:91-95 | the loop makes one assignment per catalog entry, with the catalog's names in the catalog's order |
| PluginManager.GetFunctionMapping | ada_app-main/server/plugins/__init__.py:88-96 | the mapping has unique keys and every entry calls its plugin with its own name |
| PluginManager.MappingKeys | ada_app-main/server/plugins/__init__.py:88-96 | a name has an entry exactly when some plugin declares it |
| PluginManager.MappingLastDeclarer | ada_app-main/server/plugins/__init__.py:91-95 | a name declared by several plugins maps to the last of them in registry order |
| PluginManager.GetWidgetInfo | ada_app-main/server/plugins/__init__.py:98-105 | the widget map has unique keys |
| PluginManager.WidgetOfPlugin | ada_app-main/server/plugins/__init__.py:101-104 | the entry for a name is the unchanged widget information of the last plugin with that name and a widget |
| PluginManager.NoWidgetNoEntry | ada_app-main/server/plugins/__init__.py:103 | a plugin without widget information gets no entry |
| PluginManager.WidgetCount | ada_app-main/server/plugins/__init__.py:98-105 | with distinct plugin names the map has one entry per plugin with a widget |
| PluginManager.LoadedRegistryUniqueNames | ada_app-main/server/plugins/__init__.py:56-75 | loading candidates into a registry whose keys are unique and equal to their plugins' names (the empty one included) yields distinct plugin names, as `WidgetCount` requires |
| ShippedPlugins.ShippedDiscovery | ada_app-main/server/plugins/__init__.py:47-54 | of the directory's entries in alphabetical order, the five plugin modules are discovered and `__init__.py` and `__pycache__` are not |
| ShippedPlugins.LoadDirectory | ada_app-main/server/plugins/__init__.py:56-79 | plugin files whose modules each hold one plugin class, building plugins of distinct names, load as exactly those plugins in discovery order |
| ShippedPlugins.ShippedRegistry | ada_app-main/server/plugins/__init__.py:56-79 | the shipped directory loads as five entries in order: document analysis, engineering calculators, image generation, QR codes and translation, each under the name its module has |
| QrCodeGenerator.Route | ada_app-main/server/plugins/qr_code_generator.py:122-134 | a name routes exactly when it is declared, to the handler of that name; otherwise "Unknown function: <name>" |
| QrCodeGenerator.RouteOpName | ada_app-main/server/plugins/qr_code_generator.py:122-132 | every handler is reached by its declared name |
| QrCodeGenerator.HexColorShape | ada_app-main/server/plugins/qr_code_generator.py:317-327 | an accepted colour is `#` and six more characters; every `#` with six hex digits is accepted |
| QrCodeGenerator.HexColorAcceptsPrefixes | ada_app-main/server/plugins/qr_code_generator.py:324 | the `int(..., 16)` check accepts a sign and a `0x` prefix, so "#+fffff" and "#-0x_ff" pass |
| QrCodeGenerator.HexColorAcceptsSpacing | ada_app-main/server/plugins/qr_code_generator.py:324 | surrounding whitespace and an underscore between digits pass ("# fff\t ", "#ff_fff") |
| QrCodeGenerator.HexColorRejectsUnderscores | ada_app-main/server/plugins/qr_code_generator.py:324 | doubled, leading and trailing underscores are rejected |
| QrCodeGenerator.HexColorRejectsPrefixes | ada_app-main/server/plugins/qr_code_generator.py:324 | two signs, or a prefix with no digits, are rejected |
| QrCodeGenerator.DefaultColoursValid | ada_app-main/server/plugins/qr_code_generator.py:144 | the default colours pass validation |
| QrCodeGenerator.PlaceLogo | ada_app-main/server/plugins/qr_code_generator.py:336-347 | the logo side is the floor of a quarter of the image, lies inside it, and is centred up to one pixel |
| QrCodeGenerator.RequestFor | ada_app-main/server/plugins/qr_code_generator.py:155-174 | the renderer gets the data, colours, size and border as given, box size 10, the low error-correction level exactly for `url`, and the logo exactly when a non-empty path is given, placed by the logo rule |
| QrCodeGenerator.GenerateQrCode | ada_app-main/server/plugins/qr_code_generator.py:143-202 | an unsupported type, then a bad colour, are reported before rendering; a render failure gives "QR code generation failed: "; success echoes the inputs with the file name `qr_<type>_<timestamp>.png`, the path `generated_qr_codes/<file name>` and the image the renderer made from exactly that request |
| QrCodeGenerator.ValidationBeforeRendering | ada_app-main/server/plugins/qr_code_generator.py:147-153 | a failed check gives the same failure whatever the renderer and clock do |
| QrCodeGenerator.GenerateBulkQrCodes | ada_app-main/server/plugins/qr_code_generator.py:204-235 | fails only for an unsupported type; kept items are exactly the successful calls, in order, each with its original index; the totals count kept and requested items; bad colours keep nothing |
| QrCodeGenerator.KeepSuccesses | ada_app-main/server/plugins/qr_code_generator.py:213-224 | the loop keeps each success once, with its position, in increasing order, and nothing else |
| QrCodeGenerator.WifiPayload | ada_app-main/server/plugins/qr_code_generator.py:242 | the payload starts with `WIFI:T:<encryption>;S:`, ends with `;;` and is 18 characters longer than its four fields |
| QrCodeGenerator.WifiRoundTrip | ada_app-main/server/plugins/qr_code_generator.py:242 | when no field contains `;`, the Wi-Fi payload parses back to its four fields |
| QrCodeGenerator.WifiPayloadAmbiguous | ada_app-main/server/plugins/qr_code_generator.py:242 | nothing is escaped: two different networks can share one payload |
| QrCodeGenerator.DefaultStyleCode | ada_app-main/server/plugins/qr_code_generator.py:143-202 | for any payload and any supported type, the defaults the Wi-Fi and vCard handlers pass (black on white, no logo, border 4) pass validation, so the outcome is the renderer's: success exactly when it succeeds, with the echo, file name and path, and otherwise its message |
| QrCodeGenerator.GenerateWifiQr | ada_app-main/server/plugins/qr_code_generator.py:237-248 | the Wi-Fi payload is encoded as type `wifi` at the given size with the default colours, no logo and border 4: it succeeds exactly when the renderer does, a render failure gives "QR code generation failed: " and its text, and success reports the type, payload, size, colours, the rendered image, `qr_wifi_<timestamp>.png` and its path |
| QrCodeGenerator.RankOfTag | ada_app-main/server/plugins/qr_code_generator.py:259-283 | a line built from a vCard tag is recognised as that tag and no earlier one |
| QrCodeGenerator.VCardShape | ada_app-main/server/plugins/qr_code_generator.py:259-284 | the card opens with BEGIN and VERSION 3.0 and closes with END; property lines appear in fixed order, each exactly when its field is non-empty, each carrying its field |
| QrCodeGenerator.VCardLineCount | ada_app-main/server/plugins/qr_code_generator.py:259-283 | the card has three fixed lines, two for a name and one for each other non-empty field |
| QrCodeGenerator.VCardTextHeader | ada_app-main/server/plugins/qr_code_generator.py:259-284 | the joined card begins with `BEGIN:VCARD`, a line feed, `VERSION:3.0` and a line feed |
| QrCodeGenerator.SegmentConcat | ada_app-main/server/plugins/qr_code_generator.py:259-283 | well-formed runs of vCard lines for adjacent tag ranges concatenate to a well-formed run |
| QrCodeGenerator.MiddleSegment | ada_app-main/server/plugins/qr_code_generator.py:265-278 | the phone, email, company, title and website lines form a well-formed run |
| QrCodeGenerator.GenerateVcardQr | ada_app-main/server/plugins/qr_code_generator.py:254-290 | the joined card is encoded as type `vcard` at the given size with the default colours, no logo and border 4: it succeeds exactly when the renderer does, a render failure gives "QR code generation failed: " and its text, and success reports the type, card text, size, colours, the rendered image, `qr_vcard_<timestamp>.png` and its path |
| QrCodeGenerator.VCardTextLines | ada_app-main/server/plugins/qr_code_generator.py:284 | when no field contains a line feed, splitting the payload at line feeds gives the card's lines back |
| DocumentAnalysis.Route | ada_app-main/server/plugins/document_analysis.py:120-128 | a name routes exactly when it is declared, to the handler of that name; otherwise "Unknown function: <name>" |
| DocumentAnalysis.RouteOpName | ada_app-main/server/plugins/document_analysis.py:120-126 | every handler is reached by its declared name |
| DocumentAnalysis.BaseName | ada_app-main/server/plugins/document_analysis.py:144 | the last path component holds no `/` and is never `.` |
| DocumentAnalysis.Suffix | ada_app-main/server/plugins/document_analysis.py:144 | a suffix is empty, or the final part of the name from its last dot, with a character before the dot and at least one after it |
| DocumentAnalysis.FileExtension | ada_app-main/server/plugins/document_analysis.py:144 | an extension is empty or a dot followed by at least one character |
| DocumentAnalysis.ExtensionShape | ada_app-main/server/plugins/document_analysis.py:144 | an extension is empty or a dot and at least one character with no further dot or slash |
| DocumentAnalysis.ExtensionOfLastComponent | ada_app-main/server/plugins/document_analysis.py:144 | the extension depends on the last path component alone |
| DocumentAnalysis.ExtensionOfStem | ada_app-main/server/plugins/document_analysis.py:144 | `stem.ext` has extension `.ext`, lower-cased |
| DocumentAnalysis.ExtensionEdgeCases | ada_app-main/server/plugins/document_analysis.py:144 | a leading or trailing dot starts no extension |
| DocumentAnalysis.ParserFor | ada_app-main/server/plugins/document_analysis.py:32-44 | a parser exists exactly for the eleven listed extensions, the one the table lists |
| DocumentAnalysis.UpperCaseExtensionAccepted | ada_app-main/server/plugins/document_analysis.py:144-146 | "Report.PDF" is accepted as a PDF |
| DocumentAnalysis.Excerpt | ada_app-main/server/plugins/document_analysis.py:175-176 | content of at most 2000 characters is returned whole; longer content is cut to 2000 and marked with "..." |
| DocumentAnalysis.ExcerptPrefix | ada_app-main/server/plugins/document_analysis.py:176 | the excerpt begins with the content cut at 2000, and runs past 2000 exactly when the content does |
| DocumentAnalysis.ModelInputsBounded | ada_app-main/server/plugins/document_analysis.py:302-359 | the summary sees only the first 1024 characters and the answer only the first 512 |
| DocumentAnalysis.Summary | ada_app-main/server/plugins/document_analysis.py:302-321 | without a summarizer "Summarization not available (AI models not loaded)" (line 183); a failing one gives "Summarization failed"; otherwise its summary of the first 1024 characters |
| DocumentAnalysis.Answer | ada_app-main/server/plugins/document_analysis.py:323-359 | the answer is never empty: a failure gives "Q&A failed", an empty answer "No answer found", otherwise the model's answer over the first 512 characters |
| DocumentAnalysis.Analyse | ada_app-main/server/plugins/document_analysis.py:167-173 | the analysis echoes the document id, file name, content length and analysis type |
| DocumentAnalysis.ExtractContent | ada_app-main/server/plugins/document_analysis.py:141-153 | the checks run in order: undecodable data gives "Document analysis failed: " and the decoder's message (caught at line 196), an unsupported extension "Unsupported file format: <ext>", empty parser output "Failed to extract content from document"; otherwise the bytes and the text |
| DocumentAnalysis.AnalyzeDocument | ada_app-main/server/plugins/document_analysis.py:137-196 | the upload fails exactly when a check fails, with that check's message, and then stores nothing; success stores the document under the MD5 of its bytes with its name, text, size and time, and reports that id, the name, the text length and the analysis type |
| DocumentAnalysis.UploadTouchesOneEntry | ada_app-main/server/plugins/document_analysis.py:159-165 | an upload changes one entry only; the store grows only for new content |
| DocumentAnalysis.AnalysisMatchesRequest | ada_app-main/server/plugins/document_analysis.py:175-191 | an excerpt comes exactly for `extract`, a summary for `summarize`, an answer for `qa` with a question; the question is echoed only when the model answered; the summary is `Summary` of the content, the answer is `Answer` of the content and question when a model is loaded and "Q&A not available (AI models not loaded)" otherwise |
| DocumentAnalysis.ListDocuments | ada_app-main/server/plugins/document_analysis.py:361-372 | one listing per stored document, in insertion order, with its id, name, size and time |
| DocumentAnalysis.ListAfterNewUpload | ada_app-main/server/plugins/document_analysis.py:361-372 | a document new to the store is listed after the existing ones |
| DocumentAnalysis.DeleteDocument | ada_app-main/server/plugins/document_analysis.py:374-380 | deletion succeeds exactly for a stored id and removes one entry; otherwise "Document not found" and no change |
| DocumentAnalysis.DeleteForgets | ada_app-main/server/plugins/document_analysis.py:376-377 | after deletion the id is gone and every other document is as it was |
| DocumentAnalysis.UploadThenDelete | ada_app-main/server/plugins/document_analysis.py:374-380 | deleting the document a new upload just stored (lines 157-165) restores the store |
| Translation.LanguageNameLookup | ada_app-main/server/plugins/translation.py:176-177 | a known code shows its table name; an unknown code stands for itself |
| Translation.LanguageName | ada_app-main/server/plugins/translation.py:176-177 | a known code gives the name the table holds for it; an unknown code stands for itself |
| Translation.Route | ada_app-main/server/plugins/translation.py:130-140 | a name routes exactly when it is declared, to the handler of that name; otherwise "Unknown function: <name>" |
| Translation.RouteOpName | ada_app-main/server/plugins/translation.py:130-138 | every handler is reached by its declared name |
| Translation.CheckSource | ada_app-main/server/plugins/translation.py:160-161 | a source language is rejected exactly when it is given, non-empty and not in the table |
| Translation.TranslateText | ada_app-main/server/plugins/translation.py:149-183 | the checks run in order (translator, target, source) before the translator is called; its failure gives "Translation failed: "; once the checks pass it succeeds exactly when the translator does, reporting the translator's text, languages and confidence (line 178) with the languages' table names |
| Translation.ValidationBeforeTranslating | ada_app-main/server/plugins/translation.py:155-161 | a failed language check gives the same failure whatever the translator does |
| Translation.DetectLanguage | ada_app-main/server/plugins/translation.py:185-203 | detection is guarded by the libraries only; success reports the detected code, its name and confidence 1.0; a detector exception gives "Language detection failed: " and its text |
| Translation.GetSupportedLanguages | ada_app-main/server/plugins/translation.py:205-210 | the whole table is returned, with its count of 108 |
| Translation.FirstUnsupported | ada_app-main/server/plugins/translation.py:219-221 | the first target missing from the table, or none when all are present |
| Translation.BatchCheck | ada_app-main/server/plugins/translation.py:214-225 | the batch passes its checks exactly when the translator is present, every target is in the table and the source is absent, empty or in the table; otherwise the first failing check's message |
| Translation.TranslateBatch | ada_app-main/server/plugins/translation.py:212-267 | the batch fails exactly when a check fails, with that check's message; otherwise one result per text, each with one pair result per target, in order |
| Translation.TranslateAll | ada_app-main/server/plugins/translation.py:230-257 | the outer loop yields one row per text, in order |
| Translation.TranslateRow | ada_app-main/server/plugins/translation.py:232-252 | the inner loop yields one pair result per target, in order |
| Translation.TranslatePair | ada_app-main/server/plugins/translation.py:233-252 | a pair succeeds exactly when the translator does, with its text and languages and the table names; a failure carries the translator's message; the target is echoed either way |
| Translation.BatchPairAgreesWithSingle | ada_app-main/server/plugins/translation.py:233-252 | once the checks pass, a batch pair succeeds exactly when a single translation would, with the same text; its failure carries the translator's message |
| ImageGeneration.Route | ada_app-main/server/plugins/image_generation.py:112-120 | a name routes exactly when it is declared, to the handler of that name; otherwise "Unknown function: <name>" |
| ImageGeneration.RouteOpName | ada_app-main/server/plugins/image_generation.py:112-118 | every handler is reached by its declared name |
| ImageGeneration.ClampIntProperties | ada_app-main/server/plugins/image_generation.py:142-144 | the clamp lands in range, leaves in-range values unchanged, sends low values to the lower bound and high ones to the upper, and is idempotent |
| ImageGeneration.ClampRealProperties | ada_app-main/server/plugins/image_generation.py:145 | the same for the guidance scale |
| ImageGeneration.ClampIntMonotone | ada_app-main/server/plugins/image_generation.py:142-144 | clamping keeps order |
| ImageGeneration.ClampIntIsMaxMin | ada_app-main/server/plugins/image_generation.py:142 | the three-way clamp is `max(lo, min(x, hi))` |
| ImageGeneration.ClampInt | ada_app-main/server/plugins/image_generation.py:142-144 | with `lo <= hi` the result lies in range, and an in-range value is kept |
| ImageGeneration.ClampReal | ada_app-main/server/plugins/image_generation.py:145 | the same for the guidance scale |
| ImageGeneration.EffectiveRequest | ada_app-main/server/plugins/image_generation.py:138-145 | the prompt is kept; an empty negative prompt becomes the fixed default and a given one is kept; width and height lie in 512-1024, steps in 10-50 and guidance in 1.0-20.0; in-range values are kept and out-of-range ones go to the nearer bound |
| ImageGeneration.ImageFileName | ada_app-main/server/plugins/image_generation.py:164 | the file name is `generated_`, the timestamp and `.png` |
| ImageGeneration.GenerateImage | ada_app-main/server/plugins/image_generation.py:129-196 | as written: without a model "Image generation model not loaded"; with one, always "Image generation failed: 'coroutine' object has no attribute 'images'" (lines 152-160 take `.images` of the un-awaited coroutine); no file is ever written |
| ImageGeneration.GenerateImageNeverSucceeds | ada_app-main/server/plugins/image_generation.py:152-160 | as written, every call fails, writes nothing, and its answer depends only on whether a model is loaded |
| ImageGeneration.AsWrittenMissesIntended | ada_app-main/server/plugins/image_generation.py:152-160 | with a loaded model whose pipeline succeeds, the intended generator saves and reports an image while the code as written reports the `AttributeError` |
| ImageGeneration.AsWrittenMissesIntendedExample | ada_app-main/server/plugins/image_generation.py:152-160 | a concrete prompt ("cat", defaults elsewhere) on which the two differ |
| ImageGeneration.GenerateImageIntended | ada_app-main/server/plugins/image_generation.py:129-196 | with the pipeline result awaited: without a model "Image generation model not loaded"; success exactly when the pipeline succeeds on `EffectiveRequest` of the arguments, and a pipeline failure gives "Image generation failed: " and its text; on success the echoed prompt, negative prompt, width, height, steps and guidance are exactly `EffectiveRequest` of the arguments, the pipeline was given them, the id is the MD5 of `<prompt>_<timestamp>`, and the file `generated_<timestamp>.png` is added; failures add no file |
| ImageGeneration.InRangeRequestUnchanged | ada_app-main/server/plugins/image_generation.py:138-145 | in-range parameters with a negative prompt reach the pipeline as given |
| ImageGeneration.EffectiveRequestIdempotent | ada_app-main/server/plugins/image_generation.py:138-145 | adjusting an already adjusted request changes nothing |
| ImageGeneration.DeleteGeneratedImage | ada_app-main/server/plugins/image_generation.py:219-231 | deletion succeeds exactly when `generated_<id>.png` exists and removes only it; otherwise "Image not found" and no change |
| ImageGeneration.ReturnedIdMissesFile | ada_app-main/server/plugins/image_generation.py:163-176 | the id returned by the intended generation (32 hex characters) never names the saved file (15-character timestamp), so deleting by it (line 224) leaves the image; deleting by the timestamp removes it |

## Left out

- Reflection, `importlib` and the plugin base class: a module is given as its import outcome and its members in `inspect.getmembers` order.
- The global `plugin_manager` instance and every `print` call.
- `async`/`await`: every handler is a function of its inputs and its environment.
- The keyword-argument binding of `execute_function`: a handler called with missing or unexpected arguments raises `TypeError` in Python; the model takes typed arguments.
- PluginManager.LoadPlugins: its own contract bounds and keys the registry for candidates given as module names with their import outcomes; the link to the directory listing, and to `plugins.<module>` as the import of each discovered module, is stated by PluginManager.LoadDiscovered and PluginManager.LoadDiscoveredNames.
- PluginManager.DiscoverPlugins: the function's own contract is only the size bound; which modules it finds, and in what order, is stated by PluginManager.DiscoverMembers and PluginManager.DiscoverAppend.
- ShippedPlugins.ShippedRegistry: `os.listdir` returns entries in an arbitrary order; the lemma takes the alphabetical order, and PluginManager.LoadDiscovered covers every other. The engineering calculators plugin (engineering_calculators.py) is not part of this model and enters only through the name it reports. Each module's members are abridged to the plugin class, `PluginBase` and two typing names, none of which conform.
- Default arguments: the model has no optional parameters, so every argument is supplied by the caller. The Python defaults are:
  - `_generate_qr_code`: size 400, colours "#000000" and "#FFFFFF", no logo, border 4 (qr_code_generator.py:143-145);
  - `_generate_bulk_qr_codes`: size 400 and the same colours (qr_code_generator.py:204-205);
  - `_generate_wifi_qr`: password "", encryption "WPA", hidden False, size 400 (qr_code_generator.py:237-238);
  - `_generate_vcard_qr`: every field but the name "", size 400 (qr_code_generator.py:254-255);
  - `_generate_image`: negative prompt "", 1024 by 1024, 20 steps, guidance 7.5 (image_generation.py:129-131);
  - `_analyze_document`: no question (document_analysis.py:137);
  - `_translate_text` and `_translate_batch`: no source language (translation.py:149, 212).
- PluginManager.GetAllFunctions: the catalog keeps duplicate names, as the code does; it does not deduplicate.
- list_generated_qr_codes and list_generated_images: they glob the output directory and sort by file time, newest first; only their routing is modelled.
- The outer `except Exception` blocks of the bulk, Wi-Fi, vCard, batch and delete handlers: the oracles already report their failures, and no modelled step raises.
- QrCodeGenerator.HexColorShape: `int(..., 16)` also accepts non-ASCII decimal digits; the model does not, so it is slightly stricter than Python there.
- Case mapping (`str.lower`) covers ASCII letters only.
- Image resizing, logo loading and pasting, PNG and base64 encoding: all inside the renderer or pipeline oracle. A logo that fails to load keeps the plain image; that choice belongs to the renderer too.
- Floating point: the guidance scale and the upload time are reals, and NaN is not modelled.
- The text parsers for each format (PDF, DOCX, CSV, Excel, PowerPoint, OCR): one oracle maps a parser and the bytes to text, with the empty text for a failure.
- Translation.TranslateText: what the translator does with an absent source language (automatic detection) is up to the translator oracle.
- Translation.GetSupportedLanguages: the table's keys are not proved distinct; the count is taken as the source writes it.
- Path syntax: `Path(filename)` is read as a POSIX path, where only `/` separates components. On Windows `Path` is a `WindowsPath`, where `\` separates components too and drive letters count, so `a.b\c` has the suffix `.b\c` here but none there.
- Path suffix: the model follows the rule that a suffix needs a character after its dot and a character before it, so `notes.` and `.bashrc` have none; Python releases that changed the rule for a trailing dot are not modelled.
- Model loading, the CUDA device and the diffusion model: the pipeline is present or absent.

## Findings

| source | as written | input that shows it | evidently intended | confidence | as-written member | corrected member |
|---|---|---|---|---|---|---|
| ada_app-main/server/plugins/image_generation.py:152-160 | `await asyncio.to_thread(self.pipeline, ...).images[0]` groups as `await (asyncio.to_thread(...).images[0])`, so `.images` is read from the coroutine before it is awaited; the `AttributeError` is caught at lines 194-196 | any `generate_image` call with the model loaded, e.g. prompt "cat" and the defaults | `(await asyncio.to_thread(self.pipeline, ...)).images[0]`: run the pipeline, save `generated_<timestamp>.png` and report the image | not executed | ImageGeneration.GenerateImage | ImageGeneration.GenerateImageIntended |
