/** The QR code generator plugin: routing, colour validation, the Wi-Fi and
    vCard payload builders, bulk bookkeeping and logo placement. Rendering,
    resizing, pasting, PNG and base64 encoding are one oracle, `render`, which
    yields the base64 text of the image or the text of the exception it
    raised; the clock is the `timestamp` of the environment. */
module QrCodeGenerator {
  import opened Wrappers
  import opened Strings
  import opened PluginContract

  const PluginName := "qr_code_generator"

  datatype ErrorCorrection = Low | Medium

  /** The keys of `self.qr_types`. */
  const QrTypes: seq<string> := ["url", "text", "email", "phone", "wifi", "vcard"]

  /** The error-correction level `self.qr_types` assigns to a type. */
  function ErrorCorrectionOf(qrType: string): ErrorCorrection {
    if qrType == "url" then Low else Medium
  }

  /* ----- Contract: declarations, widget, routing ----- */

  const Functions: seq<FunctionDecl> := [
    FunctionDecl("generate_qr_code", "Generate a QR code with custom styling",
      [StringParam("data", "Data to encode in QR code"),
       StringParam("qr_type", "Type of QR code: 'url', 'text', 'email', 'phone', 'wifi', 'vcard'"),
       IntParam("size", "QR code size in pixels (default: 400)"),
       StringParam("foreground_color", "Foreground color (hex code, default: '#000000')"),
       StringParam("background_color", "Background color (hex code, default: '#FFFFFF')"),
       StringParam("logo_path", "Path to logo image to embed (optional)"),
       IntParam("border", "Border width in pixels (default: 4)")],
      ["data", "qr_type"]),
    FunctionDecl("generate_bulk_qr_codes", "Generate multiple QR codes in batch",
      [Param("data_list", ArrayOf(StringType), "List of data strings to encode"),
       StringParam("qr_type", "Type of QR code for all items"),
       IntParam("size", "QR code size in pixels (default: 400)"),
       StringParam("foreground_color", "Foreground color (hex code)"),
       StringParam("background_color", "Background color (hex code)")],
      ["data_list", "qr_type"]),
    FunctionDecl("generate_wifi_qr", "Generate QR code for WiFi network connection",
      [StringParam("ssid", "WiFi network name"),
       StringParam("password", "WiFi password"),
       StringParam("encryption", "Encryption type: 'WPA', 'WEP', 'nopass' (default: 'WPA')"),
       Param("hidden", BooleanType, "Whether network is hidden (default: false)"),
       IntParam("size", "QR code size in pixels (default: 400)")],
      ["ssid"]),
    FunctionDecl("generate_vcard_qr", "Generate QR code for contact information (vCard)",
      [StringParam("name", "Full name"),
       StringParam("phone", "Phone number"),
       StringParam("email", "Email address"),
       StringParam("company", "Company name"),
       StringParam("title", "Job title"),
       StringParam("website", "Website URL"),
       StringParam("address", "Address"),
       IntParam("size", "QR code size in pixels (default: 400)")],
      ["name"]),
    FunctionDecl("list_generated_qr_codes", "List all generated QR codes", [], [])
  ]

  /** The plugin as the registry sees it. */
  const Instance: Plugin := Plugin(
    PluginName,
    "QR code generation with custom styling and multiple types",
    Functions,
    Some(Widget("QRCodeGeneratorWidget", ["qr_code_generated", "bulk_qr_codes_generated"])))

  datatype Op = GenerateQrCodeOp | GenerateBulkQrCodesOp | GenerateWifiQrOp | GenerateVcardQrOp | ListGeneratedQrCodesOp

  function OpName(op: Op): string {
    match op
    case GenerateQrCodeOp => "generate_qr_code"
    case GenerateBulkQrCodesOp => "generate_bulk_qr_codes"
    case GenerateWifiQrOp => "generate_wifi_qr"
    case GenerateVcardQrOp => "generate_vcard_qr"
    case ListGeneratedQrCodesOp => "list_generated_qr_codes"
  }

  /** `execute_function`: the handler a name selects, or the
      unknown-function error. */
  function Route(name: string): (r: Result<Op, string>)
    ensures r.Success? <==> name in FunctionNames(Functions)
    ensures r.Success? ==> OpName(r.value) == name
    ensures r.Failure? ==> r.error == UnknownFunction(name)
  {
    assert FunctionNames(Functions) == ["generate_qr_code", "generate_bulk_qr_codes", "generate_wifi_qr",
                                        "generate_vcard_qr", "list_generated_qr_codes"];
    if name == "generate_qr_code" then Success(GenerateQrCodeOp)
    else if name == "generate_bulk_qr_codes" then Success(GenerateBulkQrCodesOp)
    else if name == "generate_wifi_qr" then Success(GenerateWifiQrOp)
    else if name == "generate_vcard_qr" then Success(GenerateVcardQrOp)
    else if name == "list_generated_qr_codes" then Success(ListGeneratedQrCodesOp)
    else Failure(UnknownFunction(name))
  }

  /** Every handler is reachable by the name it is declared under. */
  lemma RouteOpName(op: Op)
    ensures Route(OpName(op)) == Success(op)
  {
  }

  /* ----- Colour validation: `int(color[1:], 16)` ----- */

  /** The characters `int()` strips around its argument. */
  predicate IsIntWhitespace(c: char) {
    var n := c as int;
    (9 <= n <= 13) || n == 32 || n == 0x85 || n == 0xA0 || n == 0x1680 ||
    (0x2000 <= n <= 0x200A) || n == 0x2028 || n == 0x2029 || n == 0x202F ||
    n == 0x205F || n == 0x3000
  }

  function TrimStart(s: string): (r: string)
    ensures |r| <= |s|
    decreases |s|
  {
    if |s| > 0 && IsIntWhitespace(s[0]) then TrimStart(s[1..]) else s
  }

  function TrimEnd(s: string): (r: string)
    ensures |r| <= |s|
    decreases |s|
  {
    if |s| > 0 && IsIntWhitespace(s[|s| - 1]) then TrimEnd(s[..|s| - 1]) else s
  }

  function StripSign(s: string): string {
    if |s| > 0 && (s[0] == '+' || s[0] == '-') then s[1..] else s
  }

  /** A `0x`/`0X` prefix, optionally followed by one underscore. */
  function StripHexPrefix(s: string): string {
    if |s| >= 2 && s[0] == '0' && (s[1] == 'x' || s[1] == 'X') then
      if |s| >= 3 && s[2] == '_' then s[3..] else s[2..]
    else s
  }

  /** Position `i` holds a hex digit, or an underscore between two. */
  predicate RunCharOk(s: string, i: int)
    requires 0 <= i < |s|
  {
    IsHexDigit(s[i]) || (s[i] == '_' && 0 < i < |s| - 1 && IsHexDigit(s[i - 1]) && IsHexDigit(s[i + 1]))
  }

  /** Hex digits, with single underscores allowed between two digits. */
  predicate IsDigitRun(s: string) {
    |s| > 0 && forall i :: 0 <= i < |s| ==> RunCharOk(s, i)
  }

  /** `int(s, 16)` succeeds: optional surrounding whitespace, an optional
      sign, an optional `0x` prefix, then a digit run. */
  predicate ParsesAsHexInt(s: string) {
    IsDigitRun(TrimEnd(StripHexPrefix(StripSign(TrimStart(s)))))
  }

  /** `_is_valid_hex_color` */
  predicate IsValidHexColor(color: string) {
    StartsWith(color, "#") && |color| == 7 && ParsesAsHexInt(color[1..])
  }

  /** A `#` followed by exactly six hexadecimal digits. */
  predicate IsStrictHexColor(color: string) {
    |color| == 7 && color[0] == '#' && forall i :: 1 <= i < 7 ==> IsHexDigit(color[i])
  }

  /** The validator never accepts anything but `#` and six more characters,
      and it accepts every `#` followed by six hex digits. */
  lemma HexColorShape(color: string)
    ensures IsValidHexColor(color) ==> |color| == 7 && color[0] == '#'
    ensures IsStrictHexColor(color) ==> IsValidHexColor(color)
  {
    if IsStrictHexColor(color) {
      var s := color[1..];
      assert forall i :: 0 <= i < |s| ==> IsHexDigit(s[i]);
      assert TrimStart(s) == s;
      assert StripSign(s) == s;
      assert StripHexPrefix(s) == s;
      assert TrimEnd(s) == s;
    }
  }

  /** What `int(s, 16)` lets through besides six hex digits: a sign and a
      `0x` prefix ... */
  lemma HexColorAcceptsPrefixes()
    ensures IsValidHexColor("#+fffff") && !IsStrictHexColor("#+fffff")
    ensures IsValidHexColor("#-0x_ff") && !IsStrictHexColor("#-0x_ff")
  {
    AcceptsSign();
    AcceptsSignedPrefix();
  }

  lemma AcceptsSign()
    ensures IsValidHexColor("#+fffff") && !IsStrictHexColor("#+fffff")
  {
    assert TrimStart("+fffff") == "+fffff";
    assert TrimEnd("fffff") == "fffff";
  }

  lemma AcceptsSignedPrefix()
    ensures IsValidHexColor("#-0x_ff") && !IsStrictHexColor("#-0x_ff")
  {
    assert TrimStart("-0x_ff") == "-0x_ff";
    assert TrimEnd("ff") == "ff";
  }

  /** ... surrounding whitespace and underscores between digits. */
  lemma HexColorAcceptsSpacing()
    ensures IsValidHexColor("# fff\t ") && !IsStrictHexColor("# fff\t ")
    ensures IsValidHexColor("#ff_fff") && !IsStrictHexColor("#ff_fff")
  {
    AcceptsWhitespace();
    AcceptsUnderscore();
  }

  lemma AcceptsWhitespace()
    ensures IsValidHexColor("# fff\t ") && !IsStrictHexColor("# fff\t ")
  {
    assert TrimStart(" fff\t ") == TrimStart("fff\t ") == "fff\t ";
    assert "fff\t "[..4] == "fff\t" && "fff\t"[..3] == "fff";
    assert TrimEnd("fff\t ") == TrimEnd("fff\t") == TrimEnd("fff") == "fff";
  }

  lemma AcceptsUnderscore()
    ensures IsValidHexColor("#ff_fff") && !IsStrictHexColor("#ff_fff")
  {
    assert TrimStart("ff_fff") == "ff_fff";
    assert TrimEnd("ff_fff") == "ff_fff";
    assert RunCharOk("ff_fff", 2);
  }

  /** Underscores must sit between two digits ... */
  lemma HexColorRejectsUnderscores()
    ensures !IsValidHexColor("#ff__ff") && !IsValidHexColor("#_fffff") && !IsValidHexColor("#fffff_")
  {
    RejectsUnderscoreRun("ff__ff", 2);
    RejectsUnderscoreRun("_fffff", 0);
    RejectsUnderscoreRun("fffff_", 5);
  }

  /** A six-character body without whitespace around it fails where its run
      of digits breaks. */
  lemma RejectsUnderscoreRun(body: string, i: nat)
    requires |body| == 6 && i < 6 && !RunCharOk(body, i)
    requires !IsIntWhitespace(body[0]) && !IsIntWhitespace(body[5])
    requires body[0] != '+' && body[0] != '-' && body[0] != '0'
    ensures !IsValidHexColor("#" + body)
  {
    assert ("#" + body)[1..] == body;
    assert TrimStart(body) == body;
    assert TrimEnd(body) == body;
    NotDigitRunAt(body, i);
  }

  /** ... only one sign is taken, and a bare prefix is not a number. */
  lemma HexColorRejectsPrefixes()
    ensures !IsValidHexColor("#+-ffff") && !IsValidHexColor("#0x    ")
  {
    RejectsTwoSigns();
    RejectsBarePrefix();
  }

  lemma RejectsTwoSigns()
    ensures !IsValidHexColor("#+-ffff")
  {
    assert TrimStart("+-ffff") == "+-ffff";
    assert TrimEnd("-ffff") == "-ffff";
    NotDigitRunAt("-ffff", 0);
  }

  lemma RejectsBarePrefix()
    ensures !IsValidHexColor("#0x    ")
  {
    assert TrimStart("0x    ") == "0x    ";
    assert "    "[..3] == "   " && "   "[..2] == "  " && "  "[..1] == " " && " "[..0] == "";
    assert TrimEnd("    ") == TrimEnd("   ") == TrimEnd("  ") == TrimEnd(" ") == TrimEnd("") == "";
  }

  /** A character that is neither a digit nor an underscore between two
      digits breaks the run. */
  lemma NotDigitRunAt(s: string, i: nat)
    requires i < |s| && !RunCharOk(s, i)
    ensures !IsDigitRun(s)
  {
  }

  /** The colours the Wi-Fi and vCard generators pass validation. */
  lemma DefaultColoursValid()
    ensures IsValidHexColor("#000000") && IsValidHexColor("#FFFFFF")
  {
    BlackValid();
    WhiteValid();
  }

  lemma BlackValid()
    ensures IsValidHexColor("#000000")
  {
    HexColorShape("#000000");
  }

  lemma WhiteValid()
    ensures IsValidHexColor("#FFFFFF")
  {
    HexColorShape("#FFFFFF");
  }

  /* ----- Single QR code ----- */

  /** Where `_add_logo_to_qr` pastes the logo: a square a quarter of the
      image wide, at the same offset on both axes. */
  datatype LogoPlacement = LogoPlacement(logoSize: int, x: int, y: int)

  /** Dafny's `/` by a positive constant rounds towards minus infinity, as
      Python's `//` does, for every integer. */
  function PlaceLogo(qrSize: int): (p: LogoPlacement)
    ensures qrSize >= 0 ==> 4 * p.logoSize <= qrSize < 4 * (p.logoSize + 1)
    ensures qrSize >= 0 ==> 0 <= p.x && 0 <= p.y && p.x + p.logoSize <= qrSize && p.y + p.logoSize <= qrSize
    ensures qrSize >= 0 ==> 0 <= (qrSize - p.x - p.logoSize) - p.x <= 1
  {
    var logoSize := qrSize / 4;
    var offset := (qrSize - logoSize) / 2;
    LogoPlacement(logoSize, offset, offset)
  }

  datatype LogoRequest = LogoRequest(path: string, placement: LogoPlacement)

  /** Everything the rendering pipeline is given. */
  datatype RenderRequest = RenderRequest(
    data: string,
    errorCorrection: ErrorCorrection,
    boxSize: int,
    border: int,
    foreground: string,
    background: string,
    size: int,
    logo: Option<LogoRequest>)

  /** The effects one call sees: the renderer (image as base64 text, or the
      text of the exception) and the clock reading `%Y%m%d_%H%M%S`. */
  datatype QrEnv = QrEnv(render: RenderRequest -> Result<string, string>, timestamp: string)

  datatype QrCode = QrCode(
    filename: string,
    filepath: string,
    qrType: string,
    data: string,
    size: int,
    foreground: string,
    background: string,
    qrBase64: string,
    generatedAt: string)

  const InvalidColorError := "Invalid color format. Use hex codes (e.g., '#FF0000')"

  function UnsupportedType(qrType: string): string {
    "Unsupported QR type: " + qrType
  }

  /** The name a code of type `qrType` is saved under: `qr_<type>_<timestamp>.png`. */
  function QrFileName(qrType: string, timestamp: string): string {
    "qr_" + qrType + "_" + timestamp + ".png"
  }

  /** The request `_generate_qr_code` hands to the renderer; a logo is
      added only for a non-empty path. */
  function RequestFor(data: string, qrType: string, size: int, fg: string, bg: string,
                      logoPath: Option<string>, border: int): (r: RenderRequest)
    ensures r.data == data && r.foreground == fg && r.background == bg
    ensures r.size == size && r.border == border && r.boxSize == 10
    ensures r.errorCorrection == Low <==> qrType == "url"
    ensures r.logo.Some? <==> logoPath.Some? && logoPath.value != ""
    ensures r.logo.Some? ==> r.logo.value.path == logoPath.value && r.logo.value.placement == PlaceLogo(size)
  {
    var logo := if logoPath.Some? && logoPath.value != "" then Some(LogoRequest(logoPath.value, PlaceLogo(size))) else None;
    RenderRequest(data, ErrorCorrectionOf(qrType), 10, border, fg, bg, size, logo)
  }

  /** `_generate_qr_code` */
  function GenerateQrCode(env: QrEnv, data: string, qrType: string, size: int, fg: string, bg: string,
                          logoPath: Option<string>, border: int): (r: Result<QrCode, string>)
    ensures r.Success? ==> qrType in QrTypes && IsValidHexColor(fg) && IsValidHexColor(bg)
    ensures r.Success? ==>
      && r.value.data == data && r.value.qrType == qrType && r.value.size == size
      && r.value.foreground == fg && r.value.background == bg
      && r.value.generatedAt == env.timestamp
      && r.value.filename == QrFileName(qrType, env.timestamp)
      && r.value.filepath == "generated_qr_codes/" + r.value.filename
      && env.render(RequestFor(data, qrType, size, fg, bg, logoPath, border)) == Success(r.value.qrBase64)
    ensures qrType !in QrTypes ==> r == Failure(UnsupportedType(qrType))
    ensures qrType in QrTypes && !(IsValidHexColor(fg) && IsValidHexColor(bg)) ==> r == Failure(InvalidColorError)
    ensures r.Failure? && qrType in QrTypes && IsValidHexColor(fg) && IsValidHexColor(bg) ==>
      var rendered := env.render(RequestFor(data, qrType, size, fg, bg, logoPath, border));
      rendered.Failure? && r.error == "QR code generation failed: " + rendered.error
  {
    if qrType !in QrTypes then Failure(UnsupportedType(qrType))
    else if !IsValidHexColor(fg) || !IsValidHexColor(bg) then Failure(InvalidColorError)
    else
      match env.render(RequestFor(data, qrType, size, fg, bg, logoPath, border))
      case Failure(e) => Failure("QR code generation failed: " + e)
      case Success(png) =>
        var filename := QrFileName(qrType, env.timestamp);
        Success(QrCode(filename, "generated_qr_codes/" + filename, qrType, data, size, fg, bg, png, env.timestamp))
  }

  /** Validation happens before any rendering: an unsupported type or a bad
      colour gives the same answer whatever the renderer and the clock do. */
  lemma ValidationBeforeRendering(env1: QrEnv, env2: QrEnv, data: string, qrType: string, size: int,
                                  fg: string, bg: string, logoPath: Option<string>, border: int)
    requires qrType !in QrTypes || !IsValidHexColor(fg) || !IsValidHexColor(bg)
    ensures GenerateQrCode(env1, data, qrType, size, fg, bg, logoPath, border)
         == GenerateQrCode(env2, data, qrType, size, fg, bg, logoPath, border)
    ensures GenerateQrCode(env1, data, qrType, size, fg, bg, logoPath, border).Failure?
  {
  }

  /* ----- Bulk ----- */

  datatype BulkItem = BulkItem(index: nat, code: QrCode)

  datatype BulkReport = BulkReport(results: seq<BulkItem>, totalGenerated: nat, totalRequested: nat, qrType: string)

  /** The call the bulk loop makes for item `i`, with the defaults of
      `_generate_qr_code` for the logo and the border. */
  function BulkItemResult(envAt: nat -> QrEnv, dataList: seq<string>, i: nat, qrType: string, size: int,
                          fg: string, bg: string): Result<QrCode, string>
    requires i < |dataList|
  {
    GenerateQrCode(envAt(i), dataList[i], qrType, size, fg, bg, None, 4)
  }

  /** `_generate_bulk_qr_codes`: failed items are dropped, kept items carry
      their original position. `envAt(i)` is what the i-th call sees. */
  method GenerateBulkQrCodes(envAt: nat -> QrEnv, dataList: seq<string>, qrType: string, size: int,
                             fg: string, bg: string) returns (r: Result<BulkReport, string>)
    ensures r.Failure? <==> qrType !in QrTypes
    ensures r.Failure? ==> r.error == UnsupportedType(qrType)
    ensures r.Success? ==>
      && r.value.qrType == qrType
      && r.value.totalRequested == |dataList|
      && r.value.totalGenerated == |r.value.results| <= |dataList|
    ensures r.Success? ==> forall k :: 0 <= k < |r.value.results| ==>
      r.value.results[k].index < |dataList| &&
      BulkItemResult(envAt, dataList, r.value.results[k].index, qrType, size, fg, bg) == Success(r.value.results[k].code)
    ensures r.Success? ==> forall k, l :: 0 <= k < l < |r.value.results| ==>
      r.value.results[k].index < r.value.results[l].index
    ensures r.Success? ==> forall i :: 0 <= i < |dataList| && BulkItemResult(envAt, dataList, i, qrType, size, fg, bg).Success? ==>
      exists k :: 0 <= k < |r.value.results| && r.value.results[k].index == i
    ensures r.Success? && !(IsValidHexColor(fg) && IsValidHexColor(bg)) ==> r.value.results == []
  {
    if qrType !in QrTypes {
      return Failure(UnsupportedType(qrType));
    }
    var attempts := seq(|dataList|, i requires 0 <= i < |dataList| => BulkItemResult(envAt, dataList, i, qrType, size, fg, bg));
    assert forall i :: 0 <= i < |dataList| ==> attempts[i] == BulkItemResult(envAt, dataList, i, qrType, size, fg, bg);
    if !(IsValidHexColor(fg) && IsValidHexColor(bg)) {
      assert forall i :: 0 <= i < |attempts| ==> attempts[i].Failure?;
    }
    var results := KeepSuccesses(attempts);
    assert |results| == 0 || attempts[results[0].index].Success?;
    r := Success(BulkReport(results, |results|, |dataList|, qrType));
  }

  /** The loop of `_generate_bulk_qr_codes` over the outcomes of the
      per-item calls: an item that raised is skipped, an item that
      succeeded is kept with its position. */
  method KeepSuccesses(attempts: seq<Result<QrCode, string>>) returns (kept: seq<BulkItem>)
    ensures |kept| <= |attempts|
    ensures forall k :: 0 <= k < |kept| ==>
      kept[k].index < |attempts| && attempts[kept[k].index] == Success(kept[k].code)
    ensures forall k, l :: 0 <= k < l < |kept| ==> kept[k].index < kept[l].index
    ensures forall i :: 0 <= i < |attempts| && attempts[i].Success? ==>
      exists k :: 0 <= k < |kept| && kept[k].index == i
  {
    kept := [];
    var i := 0;
    while i < |attempts|
      invariant 0 <= i <= |attempts|
      invariant |kept| <= i
      invariant forall k :: 0 <= k < |kept| ==> kept[k].index < i && attempts[kept[k].index] == Success(kept[k].code)
      invariant forall k, l :: 0 <= k < l < |kept| ==> kept[k].index < kept[l].index
      invariant forall j :: 0 <= j < i && attempts[j].Success? ==> exists k :: 0 <= k < |kept| && kept[k].index == j
    {
      if attempts[i].Success? {
        var before := kept;
        kept := kept + [BulkItem(i, attempts[i].value)];
        assert forall k :: 0 <= k < |before| ==> kept[k] == before[k];
        assert kept[|before|].index == i;
      }
      i := i + 1;
    }
  }

  /* ----- Wi-Fi ----- */

  function BoolText(b: bool): string {
    if b then "true" else "false"
  }

  /** The Wi-Fi network payload `WIFI:T:<enc>;S:<ssid>;P:<password>;H:<hidden>;;`,
      with nothing escaped. */
  function WifiPayload(encryption: string, ssid: string, password: string, hidden: bool): (r: string)
    ensures StartsWith(r, "WIFI:T:" + encryption + ";S:") && EndsWith(r, ";;")
    ensures |r| == 18 + |encryption| + |ssid| + |password| + |BoolText(hidden)|
  {
    "WIFI:T:" + encryption + ";S:" + ssid + ";P:" + password + ";H:" + BoolText(hidden) + ";;"
  }

  datatype WifiFields = WifiFields(encryption: string, ssid: string, password: string, hidden: bool)

  /** Reads a payload back into its four fields. */
  function ParseWifiPayload(s: string): Option<WifiFields> {
    if !StartsWith(s, "WIFI:T:") then None
    else
      var f := Split(s[7..], ';');
      if |f| == 6 && StartsWith(f[1], "S:") && StartsWith(f[2], "P:")
         && (f[3] == "H:true" || f[3] == "H:false") && f[4] == "" && f[5] == ""
      then Some(WifiFields(f[0], f[1][2..], f[2][2..], f[3] == "H:true"))
      else None
  }

  lemma NoSepAfterTag(tag: string, v: string)
    requires !Contains(tag, ';') && !Contains(v, ';')
    ensures !Contains(tag + v, ';')
  {
    forall i | 0 <= i < |tag + v| ensures (tag + v)[i] != ';' {
      if i < |tag| { assert (tag + v)[i] == tag[i]; } else { assert (tag + v)[i] == v[i - |tag|]; }
    }
  }

  /** The six `;`-separated fields after `WIFI:T:`. */
  function WifiParts(encryption: string, ssid: string, password: string, hidden: bool): seq<string> {
    [encryption, "S:" + ssid, "P:" + password, "H:" + BoolText(hidden), "", ""]
  }

  lemma WifiPayloadIsJoin(encryption: string, ssid: string, password: string, hidden: bool)
    ensures WifiPayload(encryption, ssid, password, hidden) == "WIFI:T:" + Join(WifiParts(encryption, ssid, password, hidden), ";")
  {
    var h := BoolText(hidden);
    JoinFourFields(encryption, "S:" + ssid, "P:" + password, "H:" + h);
    PayloadRegroup(encryption, ssid, password, h);
  }

  /** Four fields and two empty ones, joined by `;`. */
  lemma JoinFourFields(a: string, b: string, c: string, d: string)
    ensures Join([a, b, c, d, "", ""], ";") == a + ";" + (b + ";" + (c + ";" + (d + ";;")))
  {
    JoinCons("", [""], ";");
    JoinCons(d, ["", ""], ";");
    JoinCons(c, [d, "", ""], ";");
    JoinCons(b, [c, d, "", ""], ";");
    JoinCons(a, [b, c, d, "", ""], ";");
    assert [a] + [b, c, d, "", ""] == [a, b, c, d, "", ""];
  }

  lemma PayloadRegroup(e: string, s: string, p: string, h: string)
    ensures "WIFI:T:" + e + ";S:" + s + ";P:" + p + ";H:" + h + ";;"
         == "WIFI:T:" + (e + ";" + (("S:" + s) + ";" + (("P:" + p) + ";" + (("H:" + h) + ";;"))))
  {
    assert ";S:" == ";" + "S:" && ";P:" == ";" + "P:" && ";H:" == ";" + "H:";
  }

  /** When no field contains `;`, the payload determines its fields. */
  lemma WifiRoundTrip(encryption: string, ssid: string, password: string, hidden: bool)
    requires !Contains(encryption, ';') && !Contains(ssid, ';') && !Contains(password, ';')
    ensures ParseWifiPayload(WifiPayload(encryption, ssid, password, hidden))
         == Some(WifiFields(encryption, ssid, password, hidden))
  {
    var s := WifiPayload(encryption, ssid, password, hidden);
    var parts := WifiParts(encryption, ssid, password, hidden);
    NoSepAfterTag("S:", ssid);
    NoSepAfterTag("P:", password);
    assert !Contains(parts[3], ';') by {
      if hidden { assert parts[3] == "H:true"; } else { assert parts[3] == "H:false"; }
    }
    assert !Contains("", ';');
    WifiPayloadIsJoin(encryption, ssid, password, hidden);
    StartsWithConcat("WIFI:T:", Join(parts, ";"));
    assert s[7..] == Join(parts, ";");
    SplitJoin(parts, ';');
    assert ("S:" + ssid)[2..] == ssid;
    assert ("P:" + password)[2..] == password;
  }

  /** Without escaping, different networks can share a payload: a `;P:` in
      the network name reads as the start of the password. */
  lemma WifiPayloadAmbiguous()
    ensures WifiPayload("WPA", "a;P:b", "c", false) == WifiPayload("WPA", "a", "b;P:c", false)
  {
  }

  /** `_generate_wifi_qr`: the payload, encoded as type `wifi` with the
      default colours and the default border; only the renderer can make it
      fail, and then with the generator's message. */
  function GenerateWifiQr(env: QrEnv, ssid: string, password: string, encryption: string, hidden: bool,
                          size: int): (r: Result<QrCode, string>)
    ensures r.Success? ==> r.value.qrType == "wifi" && r.value.data == WifiPayload(encryption, ssid, password, hidden)
    ensures var rendered := env.render(RequestFor(WifiPayload(encryption, ssid, password, hidden), "wifi", size, "#000000", "#FFFFFF", None, 4));
      && (r.Success? <==> rendered.Success?)
      && (r.Failure? ==> r.error == "QR code generation failed: " + rendered.error)
      && (r.Success? ==>
            && r.value.size == size && r.value.foreground == "#000000" && r.value.background == "#FFFFFF"
            && rendered == Success(r.value.qrBase64)
            && r.value.filename == QrFileName("wifi", env.timestamp)
            && r.value.filepath == "generated_qr_codes/" + r.value.filename
            && r.value.generatedAt == env.timestamp)
  {
    var payload := WifiPayload(encryption, ssid, password, hidden);
    DefaultStyleCode(env, payload, "wifi", size);
    GenerateQrCode(env, payload, "wifi", size, "#000000", "#FFFFFF", None, 4)
  }

  /** What a QR code of a fixed type with the default colours, no logo and
      the default border reports, for any payload. */
  lemma DefaultStyleCode(env: QrEnv, data: string, qrType: string, size: int)
    requires qrType in QrTypes
    ensures var r := GenerateQrCode(env, data, qrType, size, "#000000", "#FFFFFF", None, 4);
      var rendered := env.render(RequestFor(data, qrType, size, "#000000", "#FFFFFF", None, 4));
      && (r.Success? <==> rendered.Success?)
      && (r.Failure? ==> r.error == "QR code generation failed: " + rendered.error)
      && (r.Success? ==>
            && r.value.qrType == qrType && r.value.data == data
            && r.value.size == size && r.value.foreground == "#000000" && r.value.background == "#FFFFFF"
            && rendered == Success(r.value.qrBase64)
            && r.value.filename == QrFileName(qrType, env.timestamp)
            && r.value.filepath == "generated_qr_codes/" + r.value.filename
            && r.value.generatedAt == env.timestamp)
  {
    DefaultColoursValid();
  }

  /* ----- vCard ----- */

  datatype Contact = Contact(
    name: string, phone: string, email: string, company: string,
    title: string, website: string, address: string)

  /** The property names a line can start with, in the order the builder
      emits them. */
  const Tags: seq<string> := ["BEGIN:", "VERSION:", "FN:", "N:", "TEL:", "EMAIL:", "ORG:", "TITLE:", "URL:", "ADR:", "END:"]

  /** Position in `Tags` of the first tag the line starts with. */
  function Rank(line: string): nat {
    RankFrom(line, 0)
  }

  function RankFrom(line: string, t: nat): nat
    requires t <= |Tags|
    decreases |Tags| - t
  {
    if t == |Tags| then |Tags|
    else if StartsWith(line, Tags[t]) then t
    else RankFrom(line, t + 1)
  }

  /** A line built from tag `t` has rank `t`: no earlier tag is a prefix of it. */
  lemma RankOfTag(t: nat, v: string)
    requires t < |Tags|
    ensures Rank(Tags[t] + v) == t
  {
    var line := Tags[t] + v;
    assert StartsWith(line, Tags[t]) by { assert line[..|Tags[t]|] == Tags[t]; }
    var u := 0;
    while u < t
      invariant 0 <= u <= t
      invariant RankFrom(line, 0) == RankFrom(line, u)
    {
      var d := Differs(u, t);
      MismatchNotPrefix(line, Tags[u], d);
      u := u + 1;
    }
  }

  /** Two different tags disagree at a position inside both. */
  lemma Differs(u: nat, t: nat) returns (d: nat)
    requires u < t < |Tags|
    ensures d < |Tags[u]| && d < |Tags[t]| && Tags[u][d] != Tags[t][d]
  {
    if Tags[u][0] != Tags[t][0] {
      d := 0;
    } else if Tags[u][1] != Tags[t][1] {
      d := 1;
    } else {
      assert false;
    }
  }

  function Opt<T>(present: bool, items: seq<T>): seq<T> {
    if present then items else []
  }

  /** The lines `_generate_vcard_qr` builds (vCard 3.0, RFC 2426). */
  function VCardLines(c: Contact): seq<string> {
    ["BEGIN:VCARD", "VERSION:3.0"]
    + Opt(c.name != "", ["FN:" + c.name, "N:" + c.name + ";;;;"])
    + Opt(c.phone != "", ["TEL:" + c.phone])
    + Opt(c.email != "", ["EMAIL:" + c.email])
    + Opt(c.company != "", ["ORG:" + c.company])
    + Opt(c.title != "", ["TITLE:" + c.title])
    + Opt(c.website != "", ["URL:" + c.website])
    + Opt(c.address != "", ["ADR:;;" + c.address + ";;;;"])
    + ["END:VCARD"]
  }

  /** One for a field that is filled in, none for an empty one. */
  function Filled(field: string): nat {
    if field != "" then 1 else 0
  }

  /** The card has three fixed lines, two for a name and one for each other
      field that is filled in. */
  lemma VCardLineCount(c: Contact)
    ensures |VCardLines(c)| == 3 + 2 * Filled(c.name) + Filled(c.phone) + Filled(c.email) + Filled(c.company)
                                + Filled(c.title) + Filled(c.website) + Filled(c.address)
  {
    var l1 := ["BEGIN:VCARD", "VERSION:3.0"] + Opt(c.name != "", ["FN:" + c.name, "N:" + c.name + ";;;;"]);
    var l2 := l1 + Opt(c.phone != "", ["TEL:" + c.phone]) + Opt(c.email != "", ["EMAIL:" + c.email]);
    var l3 := l2 + Opt(c.company != "", ["ORG:" + c.company]) + Opt(c.title != "", ["TITLE:" + c.title]);
    var l4 := l3 + Opt(c.website != "", ["URL:" + c.website]) + Opt(c.address != "", ["ADR:;;" + c.address + ";;;;"]);
    assert |l1| == 2 + 2 * Filled(c.name);
    assert |l2| == |l1| + Filled(c.phone) + Filled(c.email);
    assert |l3| == |l2| + Filled(c.company) + Filled(c.title);
    assert |l4| == |l3| + Filled(c.website) + Filled(c.address);
    assert VCardLines(c) == l4 + ["END:VCARD"];
  }

  /** The payload: the lines joined by a line feed. */
  function VCardText(c: Contact): string {
    Join(VCardLines(c), "\n")
  }

  /** The payload opens with the BEGIN and VERSION lines. */
  lemma VCardTextHeader(c: Contact)
    ensures StartsWith(VCardText(c), "BEGIN:VCARD\nVERSION:3.0\n")
  {
    var lines := VCardLines(c);
    VCardLinesHead(c);
    var rest := lines[2..];
    assert lines == [lines[0]] + ([lines[1]] + rest);
    JoinCons("BEGIN:VCARD", ["VERSION:3.0"] + rest, "\n");
    JoinCons("VERSION:3.0", rest, "\n");
    var j := Join(rest, "\n");
    HeaderRegroup(j);
    StartsWithConcat("BEGIN:VCARD\nVERSION:3.0\n", j);
  }

  lemma VCardLinesHead(c: Contact)
    ensures |VCardLines(c)| >= 3 && VCardLines(c)[0] == "BEGIN:VCARD" && VCardLines(c)[1] == "VERSION:3.0"
  {
  }

  lemma HeaderRegroup(j: string)
    ensures "BEGIN:VCARD" + "\n" + ("VERSION:3.0" + "\n" + j) == "BEGIN:VCARD\nVERSION:3.0\n" + j
  {
    assert "BEGIN:VCARD" + "\n" + "VERSION:3.0" + "\n" == "BEGIN:VCARD\nVERSION:3.0\n";
  }

  predicate HasTag(lines: seq<string>, t: nat) {
    exists i :: 0 <= i < |lines| && Rank(lines[i]) == t
  }

  /** Which field a tag carries, and the exact line it yields. */
  function FieldOf(c: Contact, t: nat): string {
    if t == 2 || t == 3 then c.name
    else if t == 4 then c.phone
    else if t == 5 then c.email
    else if t == 6 then c.company
    else if t == 7 then c.title
    else if t == 8 then c.website
    else c.address
  }

  function LineFor(c: Contact, t: nat): string
    requires t < |Tags|
  {
    if t == 0 then "BEGIN:VCARD"
    else if t == 1 then "VERSION:3.0"
    else if t == 10 then "END:VCARD"
    else if t == 3 then "N:" + c.name + ";;;;"
    else if t == 9 then "ADR:;;" + c.address + ";;;;"
    else Tags[t] + FieldOf(c, t)
  }

  /** Ranks strictly increase along the lines. */
  predicate RanksIncrease(lines: seq<string>) {
    forall i, j :: 0 <= i < j < |lines| ==> Rank(lines[i]) < Rank(lines[j])
  }

  predicate RanksWithin(lines: seq<string>, lo: nat, hi: nat) {
    forall i :: 0 <= i < |lines| ==> lo <= Rank(lines[i]) < hi
  }

  /** Every line is the line its tag builds from the contact. */
  predicate CarriesFields(c: Contact, lines: seq<string>) {
    forall i :: 0 <= i < |lines| && Rank(lines[i]) < |Tags| ==> lines[i] == LineFor(c, Rank(lines[i]))
  }

  /** A property tag of [lo, hi) occurs exactly when its field is non-empty. */
  predicate PresentWhenFilled(c: Contact, lines: seq<string>, lo: nat, hi: nat) {
    forall t :: lo <= t < hi && 2 <= t <= 9 ==> (HasTag(lines, t) <==> FieldOf(c, t) != "")
  }

  /** A run of vCard lines for the tags [lo, hi). */
  predicate Segment(c: Contact, lines: seq<string>, lo: nat, hi: nat) {
    RanksIncrease(lines) && RanksWithin(lines, lo, hi) && CarriesFields(c, lines) && PresentWhenFilled(c, lines, lo, hi)
  }

  lemma ConcatIncrease(a: seq<string>, b: seq<string>, lo: nat, mid: nat, hi: nat)
    requires lo <= mid <= hi
    requires RanksIncrease(a) && RanksWithin(a, lo, mid)
    requires RanksIncrease(b) && RanksWithin(b, mid, hi)
    ensures RanksIncrease(a + b) && RanksWithin(a + b, lo, hi)
  {
    var ab := a + b;
    forall i, j | 0 <= i < j < |ab| ensures Rank(ab[i]) < Rank(ab[j]) {
      if j < |a| {
        assert ab[i] == a[i] && ab[j] == a[j];
      } else if i < |a| {
        assert ab[i] == a[i] && ab[j] == b[j - |a|];
      } else {
        assert ab[i] == b[i - |a|] && ab[j] == b[j - |a|];
      }
    }
    forall i | 0 <= i < |ab| ensures lo <= Rank(ab[i]) < hi {
      if i < |a| { assert ab[i] == a[i]; } else { assert ab[i] == b[i - |a|]; }
    }
  }

  lemma ConcatCarries(c: Contact, a: seq<string>, b: seq<string>)
    requires CarriesFields(c, a) && CarriesFields(c, b)
    ensures CarriesFields(c, a + b)
  {
    var ab := a + b;
    forall i | 0 <= i < |ab| && Rank(ab[i]) < |Tags| ensures ab[i] == LineFor(c, Rank(ab[i])) {
      if i < |a| { assert ab[i] == a[i]; } else { assert ab[i] == b[i - |a|]; }
    }
  }

  lemma ConcatPresent(c: Contact, a: seq<string>, b: seq<string>, lo: nat, mid: nat, hi: nat)
    requires RanksWithin(a, lo, mid) && PresentWhenFilled(c, a, lo, mid)
    requires RanksWithin(b, mid, hi) && PresentWhenFilled(c, b, mid, hi)
    ensures PresentWhenFilled(c, a + b, lo, hi)
  {
    var ab := a + b;
    forall t | lo <= t < hi && 2 <= t <= 9
      ensures HasTag(ab, t) <==> FieldOf(c, t) != ""
    {
      if HasTag(ab, t) {
        var i :| 0 <= i < |ab| && Rank(ab[i]) == t;
        if i < |a| {
          assert ab[i] == a[i];
          assert HasTag(a, t);
        } else {
          assert ab[i] == b[i - |a|];
          assert HasTag(b, t);
        }
      }
      if t < mid && HasTag(a, t) {
        var i :| 0 <= i < |a| && Rank(a[i]) == t;
        assert ab[i] == a[i];
      }
      if mid <= t && HasTag(b, t) {
        var i :| 0 <= i < |b| && Rank(b[i]) == t;
        assert ab[|a| + i] == b[i];
      }
    }
  }

  lemma SegmentConcat(c: Contact, a: seq<string>, b: seq<string>, lo: nat, mid: nat, hi: nat)
    requires lo <= mid <= hi
    requires Segment(c, a, lo, mid) && Segment(c, b, mid, hi)
    ensures Segment(c, a + b, lo, hi)
  {
    ConcatIncrease(a, b, lo, mid, hi);
    ConcatCarries(c, a, b);
    ConcatPresent(c, a, b, lo, mid, hi);
  }

  /** One optional property line. */
  lemma OptSegment(c: Contact, t: nat)
    requires 4 <= t <= 8
    ensures Segment(c, Opt(FieldOf(c, t) != "", [Tags[t] + FieldOf(c, t)]), t, t + 1)
  {
    RankOfTag(t, FieldOf(c, t));
    var lines := Opt(FieldOf(c, t) != "", [Tags[t] + FieldOf(c, t)]);
    if FieldOf(c, t) != "" { assert Rank(lines[0]) == t; }
  }

  lemma HeadSegment(c: Contact)
    ensures Segment(c, ["BEGIN:VCARD", "VERSION:3.0"], 0, 2)
  {
    RankOfTag(0, "VCARD");
    RankOfTag(1, "3.0");
    assert "BEGIN:VCARD" == Tags[0] + "VCARD" && "VERSION:3.0" == Tags[1] + "3.0";
  }

  lemma NameSegment(c: Contact)
    ensures Segment(c, Opt(c.name != "", ["FN:" + c.name, "N:" + c.name + ";;;;"]), 2, 4)
  {
    var name := Opt(c.name != "", ["FN:" + c.name, "N:" + c.name + ";;;;"]);
    RankOfTag(2, c.name);
    RankOfTag(3, c.name + ";;;;");
    assert "N:" + c.name + ";;;;" == Tags[3] + (c.name + ";;;;");
    if c.name != "" {
      assert Rank(name[0]) == 2 && Rank(name[1]) == 3;
    }
  }

  lemma AddressSegment(c: Contact)
    ensures Segment(c, Opt(c.address != "", ["ADR:;;" + c.address + ";;;;"]), 9, 10)
  {
    var adr := Opt(c.address != "", ["ADR:;;" + c.address + ";;;;"]);
    RankOfTag(9, ";;" + c.address + ";;;;");
    assert "ADR:;;" + c.address + ";;;;" == Tags[9] + (";;" + c.address + ";;;;");
    if c.address != "" { assert Rank(adr[0]) == 9; }
  }

  lemma TailSegment(c: Contact)
    ensures Segment(c, ["END:VCARD"], 10, 11)
  {
    RankOfTag(10, "VCARD");
    assert Tags[10] == "END:";
    assert "END:VCARD" == "END:" + "VCARD";
  }

  /** The optional lines between the name and the address. */
  function MiddleLines(c: Contact): seq<string> {
    Opt(c.phone != "", ["TEL:" + c.phone])
    + Opt(c.email != "", ["EMAIL:" + c.email])
    + Opt(c.company != "", ["ORG:" + c.company])
    + Opt(c.title != "", ["TITLE:" + c.title])
    + Opt(c.website != "", ["URL:" + c.website])
  }

  /** The single-field lines for the tags [4, t), in tag order. */
  function FieldLines(c: Contact, t: nat): seq<string>
    requires 4 <= t <= 9
    decreases t
  {
    if t == 4 then []
    else FieldLines(c, t - 1) + Opt(FieldOf(c, t - 1) != "", [Tags[t - 1] + FieldOf(c, t - 1)])
  }

  lemma {:induction false} FieldLinesSegment(c: Contact, t: nat)
    requires 4 <= t <= 9
    ensures Segment(c, FieldLines(c, t), 4, t)
    decreases t
  {
    if t > 4 {
      FieldLinesSegment(c, t - 1);
      OptSegment(c, t - 1);
      SegmentConcat(c, FieldLines(c, t - 1), Opt(FieldOf(c, t - 1) != "", [Tags[t - 1] + FieldOf(c, t - 1)]), 4, t - 1, t);
    }
  }

  lemma MiddleIsFieldLines(c: Contact)
    ensures MiddleLines(c) == FieldLines(c, 9)
  {
    assert FieldLines(c, 5) == Opt(c.phone != "", ["TEL:" + c.phone]);
    assert FieldLines(c, 6) == FieldLines(c, 5) + Opt(c.email != "", ["EMAIL:" + c.email]);
    assert FieldLines(c, 7) == FieldLines(c, 6) + Opt(c.company != "", ["ORG:" + c.company]);
    assert FieldLines(c, 8) == FieldLines(c, 7) + Opt(c.title != "", ["TITLE:" + c.title]);
    assert FieldLines(c, 9) == FieldLines(c, 8) + Opt(c.website != "", ["URL:" + c.website]);
  }

  lemma MiddleSegment(c: Contact)
    ensures Segment(c, MiddleLines(c), 4, 9)
  {
    FieldLinesSegment(c, 9);
    MiddleIsFieldLines(c);
  }

  lemma FrontSegment(c: Contact)
    ensures Segment(c, ["BEGIN:VCARD", "VERSION:3.0"] + Opt(c.name != "", ["FN:" + c.name, "N:" + c.name + ";;;;"]), 0, 4)
  {
    HeadSegment(c);
    NameSegment(c);
    SegmentConcat(c, ["BEGIN:VCARD", "VERSION:3.0"], Opt(c.name != "", ["FN:" + c.name, "N:" + c.name + ";;;;"]), 0, 2, 4);
  }

  /** The lines before END. */
  function BodyLines(c: Contact): seq<string> {
    ["BEGIN:VCARD", "VERSION:3.0"] + Opt(c.name != "", ["FN:" + c.name, "N:" + c.name + ";;;;"])
    + MiddleLines(c) + Opt(c.address != "", ["ADR:;;" + c.address + ";;;;"])
  }

  lemma BodySegment(c: Contact)
    ensures Segment(c, BodyLines(c), 0, 10)
  {
    var front := ["BEGIN:VCARD", "VERSION:3.0"] + Opt(c.name != "", ["FN:" + c.name, "N:" + c.name + ";;;;"]);
    FrontSegment(c);
    MiddleSegment(c);
    SegmentConcat(c, front, MiddleLines(c), 0, 4, 9);
    AddressSegment(c);
    SegmentConcat(c, front + MiddleLines(c), Opt(c.address != "", ["ADR:;;" + c.address + ";;;;"]), 0, 9, 10);
  }

  /** The vCard lines are BEGIN and VERSION 3.0 first and END last; the
      property lines appear in the fixed order FN, N, TEL, EMAIL, ORG,
      TITLE, URL, ADR, each at most once, each exactly when its field is
      non-empty, and each carrying that field. */
  lemma VCardShape(c: Contact)
    ensures VCardLines(c)[0] == "BEGIN:VCARD" && VCardLines(c)[1] == "VERSION:3.0"
    ensures VCardLines(c)[|VCardLines(c)| - 1] == "END:VCARD"
    ensures Segment(c, VCardLines(c), 0, |Tags|)
  {
    BodySegment(c);
    TailSegment(c);
    SegmentConcat(c, BodyLines(c), ["END:VCARD"], 0, 10, 11);
    VCardLinesSplit(c);
  }

  lemma AppendAssoc(a: seq<string>, b: seq<string>, d: seq<string>)
    ensures a + (b + d) == (a + b) + d
  {
  }

  lemma VCardLinesSplit(c: Contact)
    ensures VCardLines(c) == BodyLines(c) + ["END:VCARD"]
  {
    var x := ["BEGIN:VCARD", "VERSION:3.0"] + Opt(c.name != "", ["FN:" + c.name, "N:" + c.name + ";;;;"]);
    var tel := Opt(c.phone != "", ["TEL:" + c.phone]);
    var email := Opt(c.email != "", ["EMAIL:" + c.email]);
    var org := Opt(c.company != "", ["ORG:" + c.company]);
    var title := Opt(c.title != "", ["TITLE:" + c.title]);
    var url := Opt(c.website != "", ["URL:" + c.website]);
    AppendAssoc(x, tel + email + org + title, url);
    AppendAssoc(x, tel + email + org, title);
    AppendAssoc(x, tel + email, org);
    AppendAssoc(x, tel, email);
    assert x + MiddleLines(c) == x + tel + email + org + title + url;
  }

  /** `_generate_vcard_qr`: the vCard text encoded as type `vcard` with the
      default colours and the default border; only the renderer can make it
      fail, and then with the generator's message. */
  function GenerateVcardQr(env: QrEnv, c: Contact, size: int): (r: Result<QrCode, string>)
    ensures r.Success? ==> r.value.qrType == "vcard" && r.value.data == VCardText(c)
    ensures var rendered := env.render(RequestFor(VCardText(c), "vcard", size, "#000000", "#FFFFFF", None, 4));
      && (r.Success? <==> rendered.Success?)
      && (r.Failure? ==> r.error == "QR code generation failed: " + rendered.error)
      && (r.Success? ==>
            && r.value.size == size && r.value.foreground == "#000000" && r.value.background == "#FFFFFF"
            && rendered == Success(r.value.qrBase64)
            && r.value.filename == QrFileName("vcard", env.timestamp)
            && r.value.filepath == "generated_qr_codes/" + r.value.filename
            && r.value.generatedAt == env.timestamp)
  {
    var card := VCardText(c);
    DefaultStyleCode(env, card, "vcard", size);
    GenerateQrCode(env, card, "vcard", size, "#000000", "#FFFFFF", None, 4)
  }

  /** Splitting the payload at line feeds gives the lines back when no field
      contains a line feed. */
  lemma VCardTextLines(c: Contact)
    requires forall t :: 2 <= t <= 9 ==> !Contains(FieldOf(c, t), '\n')
    ensures Split(VCardText(c), '\n') == VCardLines(c)
  {
    var lines := VCardLines(c);
    VCardShape(c);
    assert RanksWithin(lines, 0, |Tags|) && CarriesFields(c, lines);
    forall i | 0 <= i < |lines| ensures !Contains(lines[i], '\n') {
      LineForNoLineFeed(c, Rank(lines[i]));
    }
    SplitJoin(lines, '\n');
  }

  lemma LineForNoLineFeed(c: Contact, t: nat)
    requires t < |Tags|
    requires forall t :: 2 <= t <= 9 ==> !Contains(FieldOf(c, t), '\n')
    ensures !Contains(LineFor(c, t), '\n')
  {
    if t == 3 {
      NoLineFeed("N:", c.name, ";;;;");
    } else if t == 9 {
      assert FieldOf(c, 9) == c.address;
      NoLineFeed("ADR:;;", c.address, ";;;;");
    } else if 2 <= t <= 9 {
      NoLineFeed(Tags[t], FieldOf(c, t), "");
      assert Tags[t] + FieldOf(c, t) + "" == Tags[t] + FieldOf(c, t);
    }
  }

  lemma NoLineFeed(a: string, v: string, b: string)
    requires !Contains(a, '\n') && !Contains(v, '\n') && !Contains(b, '\n')
    ensures !Contains(a + v + b, '\n')
  {
    var s := a + v + b;
    forall i | 0 <= i < |s| ensures s[i] != '\n' {
      if i < |a| { assert s[i] == a[i]; }
      else if i < |a| + |v| { assert s[i] == v[i - |a|]; }
      else { assert s[i] == b[i - |a| - |v|]; }
    }
  }
}
