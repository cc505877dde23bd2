/** `convertMarkdown` (src/converter.ts:26-316): read the source, run the
    `beforeConvert` hooks, render to HTML with a style block, dispatch on the
    output format, then run the `afterConvert` hooks. */
module Converter {
  import opened Wrappers
  import opened Types
  import opened Errors
  import opened Dom
  import opened Docx
  import opened Translator
  import opened Pipeline

  // ---------------------------------------------------------------------
  // Output formats
  // ---------------------------------------------------------------------

  datatype OutputFormat = HtmlFormat | PdfFormat | DocxFormat

  /** The name the options use for a format, which is also its file extension. */
  function FormatName(f: OutputFormat): string {
    match f
    case HtmlFormat => "html"
    case PdfFormat => "pdf"
    case DocxFormat => "docx"
  }

  /** The `switch (options.outputFormat)`: only the three names are recognised. */
  function ParseFormat(name: string): (f: Option<OutputFormat>)
    ensures f.Some? <==> name == "html" || name == "pdf" || name == "docx"
    ensures f.Some? ==> FormatName(f.value) == name
  {
    match name
    case "html" => Some(HtmlFormat)
    case "pdf" => Some(PdfFormat)
    case "docx" => Some(DocxFormat)
    case _ => None
  }

  /** Every format is recognised under its own name. */
  lemma ParseFormatName(f: OutputFormat)
    ensures ParseFormat(FormatName(f)) == Some(f)
  {
  }

  // ---------------------------------------------------------------------
  // Option defaulting
  // ---------------------------------------------------------------------

  /** JavaScript truthiness of an optional string: absent and "" are falsy. */
  predicate Truthy(s: Option<string>) {
    s.Some? && s.value != ""
  }

  /** The file system the converter sees: path to content; a path is
      present exactly when `fs.existsSync` holds for it. */
  type FileSystem = map<string, string>

  /** The stylesheet: the custom one when `cssFile` is set and exists,
      otherwise the default one read at module load. */
  function ChooseCss(cssFile: Option<string>, files: FileSystem, defaultCss: string): (css: string)
    ensures Truthy(cssFile) && cssFile.value in files ==> css == files[cssFile.value]
    ensures !(Truthy(cssFile) && cssFile.value in files) ==> css == defaultCss
  {
    if Truthy(cssFile) && cssFile.value in files then files[cssFile.value] else defaultCss
  }

  /** Only the file named by a set `cssFile` is consulted: file maps that
      agree on it give the same stylesheet, and when `cssFile` is absent or
      empty no file matters and the default is used. */
  lemma ChooseCssIgnoresUnread(cssFile: Option<string>, files1: FileSystem, files2: FileSystem, defaultCss: string)
    requires Truthy(cssFile) ==>
      (cssFile.value in files1 <==> cssFile.value in files2)
      && (cssFile.value in files1 ==> files1[cssFile.value] == files2[cssFile.value])
    ensures ChooseCss(cssFile, files1, defaultCss) == ChooseCss(cssFile, files2, defaultCss)
    ensures !Truthy(cssFile) ==> ChooseCss(cssFile, files1, defaultCss) == defaultCss
  {
  }

  /** The HTML prefixed with a `<style>` block holding `css`. */
  function StyledHtml(css: string, html: string): (page: string)
    ensures |page| == 15 + |css| + |html|
    ensures page[..7] == "<style>" && page[7..7 + |css|] == css
    ensures page[7 + |css|..15 + |css|] == "</style>" && page[15 + |css|..] == html
  {
    "<style>" + css + "</style>" + html
  }

  /** `path.join(dir, name)` for a normalised directory and a plain file name. */
  function JoinPath(dir: string, name: string): string {
    if dir == "" then name
    else if dir[|dir| - 1] == '/' then dir + name
    else dir + "/" + name
  }

  /** `path.join(process.cwd(), `output.${format}`)`. */
  function DefaultOutputPath(cwd: string, format: string): string {
    JoinPath(cwd, "output." + format)
  }

  /** The default path is a file named `output.<format>` directly inside `cwd`:
      `cwd`, one separator unless `cwd` already ends in one, then the name. */
  lemma DefaultOutputPathInCwd(cwd: string, format: string)
    requires cwd != ""
    ensures var name := "output." + format;
      DefaultOutputPath(cwd, format)
      == if cwd[|cwd| - 1] == '/' then cwd + name else cwd + "/" + name
  {
  }

  /** Position of the last `/` in `p`, or -1 when there is none. */
  function LastSlash(p: string): (k: int)
    ensures -1 <= k < |p|
    ensures k >= 0 ==> p[k] == '/'
    ensures forall j :: k < j < |p| ==> p[j] != '/'
    decreases |p|
  {
    if p == "" then -1
    else if p[|p| - 1] == '/' then |p| - 1
    else LastSlash(p[..|p| - 1])
  }

  /** Splitting the default path at its last `/` gives back the directory
      and the file name: the name is `output.<format>` and what precedes it
      is `cwd` (with its own trailing `/` when it has one). */
  lemma DefaultOutputPathSplits(cwd: string, format: string)
    requires cwd != "" && '/' !in format
    ensures var path := DefaultOutputPath(cwd, format);
      var k := LastSlash(path);
      0 <= k && path[k + 1..] == "output." + format
      && (if cwd[|cwd| - 1] == '/' then path[..k + 1] == cwd else path[..k] == cwd)
  {
    var name := "output." + format;
    var dir := if cwd[|cwd| - 1] == '/' then cwd else cwd + "/";
    var path := DefaultOutputPath(cwd, format);
    assert path == dir + name;
    assert path[|dir| - 1] == '/';
    forall j | |dir| <= j < |path|
      ensures path[j] != '/'
    {
      assert path[j] == name[j - |dir|];
      assert name[j - |dir|] in name;
    }
    var k := LastSlash(path);
    assert k == |dir| - 1;
    assert path[k + 1..] == name;
    assert path[..k + 1] == dir;
  }

  /** `options.outputPath || DefaultOutputPath(...)`: an empty path counts as absent. */
  function ResolveOutputPath(settings: Settings, cwd: string): (path: string)
    ensures Truthy(settings.outputPath) ==> path == settings.outputPath.value
    ensures !Truthy(settings.outputPath) ==> path == DefaultOutputPath(cwd, settings.outputFormat)
  {
    if Truthy(settings.outputPath) then settings.outputPath.value
    else DefaultOutputPath(cwd, settings.outputFormat)
  }

  // ---------------------------------------------------------------------
  // Collaborators and results
  // ---------------------------------------------------------------------

  /** What `convertMarkdown` depends on outside its own logic: the files,
      the working directory, the default stylesheet read once at module load
      ("" when it is missing), the Markdown renderer, the HTML parser
      (returning the children of `<body>`) and the PDF renderer (given the
      HTML and the output path, returning an error message, or None on
      success). */
  datatype Environment = Environment(
    files: FileSystem,
    cwd: string,
    defaultCss: string,
    makeHtml: string -> string,
    parseBody: string -> seq<Node>,
    renderPdf: (string, string) -> Option<string>)

  /** What is written to the output path. */
  datatype Artifact =
    | HtmlFile(html: string)
    | PdfFile(html: string)
    | DocxFile(document: Document)

  /** A successful conversion: the returned path, what was written there,
      and the `afterConvert` calls that followed. */
  datatype Converted = Converted(outputPath: string, written: Artifact, afterConvertCalls: seq<AfterCall>)

  /** The styled HTML for the (already hooked) Markdown `content`. */
  function PageHtml(content: string, settings: Settings, env: Environment): string {
    StyledHtml(ChooseCss(settings.cssFile, env.files, env.defaultCss), env.makeHtml(content))
  }

  /** The styled HTML `convertMarkdown` renders for an existing input file. */
  function InputHtml(inputFile: string, options: ConversionOptions, env: Environment): string
    requires inputFile in env.files
  {
    var content := ApplyBeforeConvert(env.files[inputFile], options.PluginList(), options.settings);
    PageHtml(content, options.settings, env)
  }

  /** What the PDF renderer reports for the page of an existing input file. */
  function PdfError(inputFile: string, options: ConversionOptions, env: Environment): Option<string>
    requires inputFile in env.files
  {
    env.renderPdf(InputHtml(inputFile, options, env), ResolveOutputPath(options.settings, env.cwd))
  }

  /** The per-format branch of the switch, for a recognised format. */
  function Render(format: OutputFormat, html: string, outputPath: string, env: Environment)
    : (r: Result<Artifact, ConverterError>)
    ensures r.Failure? <==> format == PdfFormat && env.renderPdf(html, outputPath).Some?
    ensures r.Failure? ==>
      r.error == ConversionError("Failed to convert to PDF: " + env.renderPdf(html, outputPath).value)
    ensures r.Success? && format == HtmlFormat ==> r.value == HtmlFile(html)
    ensures r.Success? && format == PdfFormat ==> r.value == PdfFile(html)
    ensures r.Success? && format == DocxFormat ==> r.value == DocxFile(Document(TranslateBody(env.parseBody(html))))
  {
    match format
    case HtmlFormat => Success(HtmlFile(html))
    case PdfFormat =>
      (match env.renderPdf(html, outputPath)
       case Some(message) => Failure(ConversionError("Failed to convert to PDF: " + message))
       case None => Success(PdfFile(html)))
    case DocxFormat => Success(DocxFile(Document(TranslateBody(env.parseBody(html)))))
  }

  /** The whole conversion. */
  function ConvertMarkdown(inputFile: string, options: ConversionOptions, env: Environment)
    : (r: Result<Converted, ConverterError>)
    ensures inputFile !in env.files ==> r == Failure(FileReadError("Input file not found: " + inputFile))
    ensures inputFile in env.files && ParseFormat(options.settings.outputFormat).None? ==>
      r == Failure(ConversionError("Unsupported output format: " + options.settings.outputFormat))
    ensures r.Success? <==>
      && inputFile in env.files
      && ParseFormat(options.settings.outputFormat).Some?
      && !(options.settings.outputFormat == "pdf" && PdfError(inputFile, options, env).Some?)
    ensures inputFile in env.files && options.settings.outputFormat == "pdf" && PdfError(inputFile, options, env).Some? ==>
      r == Failure(ConversionError("Failed to convert to PDF: " + PdfError(inputFile, options, env).value))
    ensures r.Success? ==>
      && r.value.outputPath == ResolveOutputPath(options.settings, env.cwd)
      && r.value.afterConvertCalls
         == AfterConvertCalls(options.PluginList(), AfterConvertArgs(r.value.outputPath, options.settings))
    ensures r.Success? && options.settings.outputFormat == "html" ==>
      r.value.written == HtmlFile(InputHtml(inputFile, options, env))
    ensures r.Success? && options.settings.outputFormat == "pdf" ==>
      r.value.written == PdfFile(InputHtml(inputFile, options, env))
    ensures r.Success? && options.settings.outputFormat == "docx" ==>
      r.value.written == DocxFile(Document(TranslateBody(env.parseBody(InputHtml(inputFile, options, env)))))
  {
    if inputFile !in env.files then
      Failure(FileReadError("Input file not found: " + inputFile))
    else
      var html := InputHtml(inputFile, options, env);
      var outputPath := ResolveOutputPath(options.settings, env.cwd);
      match ParseFormat(options.settings.outputFormat)
      case None => Failure(ConversionError("Unsupported output format: " + options.settings.outputFormat))
      case Some(format) =>
        match Render(format, html, outputPath, env)
        case Failure(e) => Failure(e)
        case Success(artifact) =>
          var args := AfterConvertArgs(outputPath, options.settings);
          Success(Converted(outputPath, artifact, AfterConvertCalls(options.PluginList(), args)))
  }

  /** The style block uses the custom stylesheet exactly when `cssFile` is
      set and exists; the rendered HTML follows it unchanged. */
  lemma InputHtmlStyle(inputFile: string, options: ConversionOptions, env: Environment)
    requires inputFile in env.files
    ensures var page := InputHtml(inputFile, options, env);
      var cssFile := options.settings.cssFile;
      var css := if Truthy(cssFile) && cssFile.value in env.files then env.files[cssFile.value] else env.defaultCss;
      var content := ApplyBeforeConvert(env.files[inputFile], options.PluginList(), options.settings);
      && page[..7] == "<style>"
      && page[7..7 + |css|] == css
      && page[7 + |css|..15 + |css|] == "</style>"
      && page[15 + |css|..] == env.makeHtml(content)
  {
  }

  /** `convertMarkdown` as written: the same steps through the two plugin
      loops and the body loop. */
  method Convert(inputFile: string, options: ConversionOptions, env: Environment)
    returns (r: Result<Converted, ConverterError>)
    ensures r == ConvertMarkdown(inputFile, options, env)
  {
    if inputFile !in env.files {
      return Failure(FileReadError("Input file not found: " + inputFile));
    }
    var content := env.files[inputFile];
    var plugins := options.PluginList();
    content := RunBeforeConvert(content, plugins, options.settings);
    var html := PageHtml(content, options.settings, env);
    var outputPath := ResolveOutputPath(options.settings, env.cwd);
    var artifact;
    match options.settings.outputFormat {
      case "html" =>
        artifact := HtmlFile(html);
      case "pdf" =>
        var err := env.renderPdf(html, outputPath);
        if err.Some? {
          return Failure(ConversionError("Failed to convert to PDF: " + err.value));
        }
        artifact := PdfFile(html);
      case "docx" =>
        var children := BuildParagraphs(env.parseBody(html));
        artifact := DocxFile(Document(children));
      case _ =>
        return Failure(ConversionError("Unsupported output format: " + options.settings.outputFormat));
    }
    var args := AfterConvertArgs(outputPath, options.settings);
    var calls := RunAfterConvert(plugins, args);
    r := Success(Converted(outputPath, artifact, calls));
  }
}
