/**
 * The launcher's error type `LauncherError`, its `From` conversions (which decide
 * what each `?` in the launcher produces) and its `#[error(...)]` display strings.
 *
 * The payloads of foreign error types (Windows API errors, I/O errors, injector
 * errors, TOML errors) are abstract: each is represented by the text it displays.
 */
module Errors {
  import opened Wrappers

  /** `windows::core::Error`, by its display text. */
  datatype WindowsError = WindowsError(message: string)
  /** `std::io::Error`, by its display text. */
  datatype IoError = IoError(message: string)
  /** `dll_syringe::error::InjectError`, by its display text. */
  datatype InjectFailure = InjectFailure(message: string)
  /** `toml::de::Error`, by its display text. */
  datatype TomlDeError = TomlDeError(message: string)
  /** `toml::ser::Error`, by its display text. */
  datatype TomlSerError = TomlSerError(message: string)

  /**
   * `LauncherError`. `WindowsAPI`, `InjectError` and `InjectionFailed` exist only in
   * Windows builds; the model has them on every platform.
   */
  datatype LauncherError =
    | NoHLExe
    | WindowsAPI(windows: WindowsError)
    | InjectError(inject: InjectFailure)
    | IOError(io: IoError)
    | InjectionFailed(reason: string)
    | TomlParsingError(parse: TomlDeError)
    | TomlWritingError(write: TomlSerError)
    | FileDoesNotExist(path: string)

  /** `impl From<windows::core::Error> for LauncherError`. */
  function FromWindows(e: WindowsError): (r: LauncherError)
    ensures r.WindowsAPI? && Source(r) == Some(e.message)
  {
    WindowsAPI(e)
  }

  /** `impl From<std::io::Error> for LauncherError`. */
  function FromIo(e: IoError): (r: LauncherError)
    ensures r.IOError? && Source(r) == Some(e.message)
  {
    IOError(e)
  }

  /** `impl From<dll_syringe::error::InjectError> for LauncherError`: never `InjectionFailed`. */
  function FromInject(e: InjectFailure): (r: LauncherError)
    ensures r.InjectError? && Source(r) == Some(e.message)
  {
    InjectError(e)
  }

  /** `impl From<toml::de::Error> for LauncherError`. */
  function FromTomlDe(e: TomlDeError): (r: LauncherError)
    ensures r.TomlParsingError? && Source(r) == Some(e.message)
  {
    TomlParsingError(e)
  }

  /** `impl From<toml::ser::Error> for LauncherError`. */
  function FromTomlSer(e: TomlSerError): (r: LauncherError)
    ensures r.TomlWritingError? && Source(r) == Some(e.message)
  {
    TomlWritingError(e)
  }

  /**
   * `std::error::Error::source` as derived by thiserror: the display text of the
   * wrapped error, for the variants that wrap one (`#[source]` or a field named `source`).
   */
  function Source(e: LauncherError): Option<string>
  {
    match e
    case WindowsAPI(w) => Some(w.message)
    case InjectError(i) => Some(i.message)
    case IOError(io) => Some(io.message)
    case TomlParsingError(p) => Some(p.message)
    case TomlWritingError(w) => Some(w.message)
    case _ => None
  }

  const NO_HL_EXE_MESSAGE := "No given Half-Life executable path"

  /** The `#[error(...)]` prefix of each variant that displays a payload after it. */
  function Prefix(e: LauncherError): string
  {
    match e
    case NoHLExe => NO_HL_EXE_MESSAGE
    case WindowsAPI(_) => "Windows error: "
    case InjectError(_) => "Inject error: "
    case IOError(_) => "IO error: "
    case InjectionFailed(_) => "Injection fails: "
    case TomlParsingError(_) => "Config parsing error: "
    case TomlWritingError(_) => "Config writing error: "
    case FileDoesNotExist(_) => "File does not exist: "
  }

  /** What is displayed after the prefix: the payload (a path is shown by `Path::display`). */
  function Payload(e: LauncherError): string
  {
    match e
    case NoHLExe => ""
    case InjectionFailed(reason) => reason
    case FileDoesNotExist(path) => path
    case _ => Source(e).value
  }

  /** `Display for LauncherError`, as generated from the `#[error(...)]` attributes. */
  function Display(e: LauncherError): (s: string)
    ensures s == Prefix(e) + Payload(e)
    ensures e.NoHLExe? ==> s == NO_HL_EXE_MESSAGE
    ensures e.FileDoesNotExist? ==> s == "File does not exist: " + e.path
  {
    match e
    case NoHLExe => NO_HL_EXE_MESSAGE
    case WindowsAPI(w) => "Windows error: " + w.message
    case InjectError(i) => "Inject error: " + i.message
    case IOError(io) => "IO error: " + io.message
    case InjectionFailed(reason) => "Injection fails: " + reason
    case TomlParsingError(p) => "Config parsing error: " + p.message
    case TomlWritingError(w) => "Config writing error: " + w.message
    case FileDoesNotExist(path) => "File does not exist: " + path
  }

  /** The variant an error display was produced from, read off the display's first characters. */
  function VariantOf(s: string): nat
  {
    if |s| < 8 then 0
    else if s[0] == 'N' then 1
    else if s[0] == 'W' then 2
    else if s[0] == 'I' && s[1] == 'O' then 4
    else if s[0] == 'I' && s[6] == ' ' then 3
    else if s[0] == 'I' then 5
    else if s[0] == 'C' && s[7] == 'p' then 6
    else if s[0] == 'C' then 7
    else 8
  }

  function Tag(e: LauncherError): nat
  {
    match e
    case NoHLExe => 1
    case WindowsAPI(_) => 2
    case InjectError(_) => 3
    case IOError(_) => 4
    case InjectionFailed(_) => 5
    case TomlParsingError(_) => 6
    case TomlWritingError(_) => 7
    case FileDoesNotExist(_) => 8
  }

  /** Every display starts with its variant's prefix, and that prefix alone identifies the variant. */
  lemma DisplayNamesVariant(e: LauncherError)
    ensures |Prefix(e)| >= 10 && Display(e)[..|Prefix(e)|] == Prefix(e)
    ensures VariantOf(Display(e)) == Tag(e)
  {
    VariantOfPrefixed(Prefix(e), Payload(e));
  }

  /** `VariantOf` reads only the first eight characters. */
  lemma VariantOfPrefixed(p: string, rest: string)
    requires |p| >= 8
    ensures (p + rest)[..|p|] == p
    ensures VariantOf(p + rest) == VariantOf(p)
  {
    var s := p + rest;
    assert s[0] == p[0] && s[1] == p[1] && s[6] == p[6] && s[7] == p[7];
  }

  /**
   * Display is injective: the status line shown after a failed Run determines the
   * error exactly (which variant, and its payload).
   */
  lemma DisplayInjective(a: LauncherError, b: LauncherError)
    requires Display(a) == Display(b)
    ensures a == b
  {
    DisplayNamesVariant(a);
    DisplayNamesVariant(b);
    assert Tag(a) == Tag(b);
    assert Prefix(a) == Prefix(b);
    var n := |Prefix(a)|;
    assert Payload(a) == Display(a)[n..] == Display(b)[n..] == Payload(b);
  }

  /** No error displays as one of the launcher's two status words "OK" and "Idle". */
  lemma DisplayIsNoStatusWord(e: LauncherError)
    ensures Display(e) != "OK" && Display(e) != "Idle"
  {
    DisplayNamesVariant(e);
  }
}
