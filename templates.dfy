/**
 * Templates: a source file headed by front matter (a YAML block between two
 * `---` lines) followed by a Liquid body.  Parsing splits the metadata text
 * from the body, decodes the metadata and compiles the body; YAML decoding
 * and Liquid compilation are opaque, fallible functions given as parameters.
 */
module Templates {
  import opened Wrappers
  import opened Text

  /** The front-matter delimiter line. */
  const Separator := "---"

  /** A decoded YAML value. */
  datatype Value =
    | Null
    | Bool(b: bool)
    | Int(i: int)
    | Str(s: string)
    | List(items: seq<Value>)
    | Dict(entries: map<string, Value>)

  type Metadata = map<string, Value>

  /** An opaque handle to a compiled Liquid template. */
  datatype Liquid = Liquid(handle: nat)

  datatype Template = Template(srcPath: string, metadata: Metadata, liquid: Liquid)

  /** yaml.Unmarshal into a map: the decoded map, or the decoder's error. */
  type YamlDecoder = string -> Result<Metadata, string>

  /** Liquid's ParseTemplateAndCache: (body, path) to a compiled template, or the compiler's error. */
  type LiquidCompiler = (string, string) -> Result<Liquid, string>

  datatype ParseError =
    | FrontMatterNotClosed
    | InvalidYaml(path: string, cause: string)
    | CompileFailed(cause: string)

  /** The text of each error, as the parser formats it. */
  function Message(e: ParseError): string {
    match e
    case FrontMatterNotClosed => "front matter not closed"
    case InvalidYaml(path, cause) => "invalid yaml format: File '" + path + "', " + cause
    case CompileFailed(cause) => cause
  }

  /** A YAML failure is reported with the file's path and the decoder's message. */
  lemma InvalidYamlNamesPath(path: string, cause: string)
    ensures Contains(Message(InvalidYaml(path, cause)), path)
    ensures Contains(Message(InvalidYaml(path, cause)), cause)
  {
    var m := Message(InvalidYaml(path, cause));
    var prefix := "invalid yaml format: File '";
    assert m[|prefix|..|prefix| + |path|] == path;
    assert OccursAt(m, path, |prefix|);
    assert m[|m| - |cause|..] == cause;
    assert OccursAt(m, cause, |m| - |cause|);
  }

  /** The unclosed-front-matter error has a fixed text; a compiler error is passed on as it is. */
  lemma ErrorMessages(cause: string)
    ensures Message(FrontMatterNotClosed) == "front matter not closed"
    ensures Message(CompileFailed(cause)) == cause
  {
  }

  // ---------------------------------------------------------------------------
  // Splitting front matter from the body
  // ---------------------------------------------------------------------------

  /** A delimiter is recognised after trimming whitespace. */
  predicate IsSeparator(line: string) {
    TrimSpace(line) == Separator
  }

  lemma SeparatorLine()
    ensures IsSeparator(Separator)
  {
    assert TrimLeft(Separator) == Separator;
  }

  /** The index of the first delimiter line at or after `from`, or |lines|. */
  function FirstSeparator(lines: seq<string>, from: nat): (k: nat)
    requires from <= |lines|
    ensures from <= k <= |lines|
    ensures k < |lines| ==> IsSeparator(lines[k])
    ensures forall j :: from <= j < k ==> !IsSeparator(lines[j])
    decreases |lines| - from
  {
    if from == |lines| || IsSeparator(lines[from]) then from else FirstSeparator(lines, from + 1)
  }

  /** How a file's lines divide into metadata text and body. */
  datatype Split =
    | NoFrontMatter
    | Unclosed
    | Parts(yaml: string, body: string)

  /**
   * The first line must be a delimiter; lines up to the first closing
   * delimiter are the metadata text and later lines the body, each followed
   * by '\n', with one trailing '\n' removed from the body.
   */
  function SplitFrontMatter(lines: seq<string>): Split {
    if |lines| == 0 || !IsSeparator(lines[0]) then NoFrontMatter
    else
      var k := FirstSeparator(lines, 1);
      if k == |lines| then Unclosed
      else Parts(JoinLines(lines[1..k]), TrimSuffixNewline(JoinLines(lines[k + 1..])))
  }

  /** The outcome of parsing a file's lines: no template, an error, or the template. */
  function ParseOutcome(path: string, lines: seq<string>, decode: YamlDecoder, compile: LiquidCompiler)
    : Result<Option<Template>, ParseError>
  {
    match SplitFrontMatter(lines)
    case NoFrontMatter => Success(None)
    case Unclosed => Failure(FrontMatterNotClosed)
    case Parts(yaml, body) =>
      var decoded := if yaml == "" then Success(map[]) else decode(yaml);
      if decoded.Failure? then Failure(InvalidYaml(path, decoded.error))
      else
        var liquid := compile(body, path);
        if liquid.Failure? then Failure(CompileFailed(liquid.error))
        else Success(Some(Template(path, decoded.value, liquid.value)))
  }

  /**
   * Parse: scans the lines once, appending to the metadata buffer until the
   * closing delimiter and to the body buffer after it.
   */
  method Parse(path: string, lines: seq<string>, decode: YamlDecoder, compile: LiquidCompiler)
    returns (r: Result<Option<Template>, ParseError>)
    ensures r == ParseOutcome(path, lines, decode, compile)
  {
    // the scanner's first token, or "" for an empty file
    var first := if |lines| > 0 then lines[0] else "";
    if TrimSpace(first) != Separator {
      return Success(None);
    }

    var yamlClosed, yamlContent, liquidContent := ScanFrontMatter(lines);
    if !yamlClosed {
      return Failure(FrontMatterNotClosed);
    }

    var metadata: Metadata := map[];
    if |yamlContent| != 0 {
      var decoded := decode(yamlContent);
      if decoded.Failure? {
        return Failure(InvalidYaml(path, decoded.error));
      }
      metadata := decoded.value;
    }

    var liquid := compile(liquidContent, path);
    if liquid.Failure? {
      return Failure(CompileFailed(liquid.error));
    }
    return Success(Some(Template(path, metadata, liquid.value)));
  }

  /**
   * The scanning loop of Parse, after the opening delimiter: lines go to the
   * metadata buffer until the closing delimiter and to the body buffer after it.
   */
  method ScanFrontMatter(lines: seq<string>) returns (yamlClosed: bool, yamlContent: string, liquidContent: string)
    requires |lines| > 0 && IsSeparator(lines[0])
    ensures yamlClosed <==> SplitFrontMatter(lines).Parts?
    ensures yamlClosed ==> SplitFrontMatter(lines) == Parts(yamlContent, liquidContent)
  {
    yamlContent, liquidContent, yamlClosed := "", "", false;
    var i := 1;
    assert lines[1..1] == [];
    while i < |lines|
      invariant 1 <= i <= |lines|
      invariant Scanned(lines, i, yamlClosed, yamlContent, liquidContent)
    {
      var line := lines[i] + "\n";
      if yamlClosed {
        ScanBody(lines, i, yamlContent, liquidContent);
        liquidContent := liquidContent + line;
      } else if TrimSpace(lines[i]) == Separator {
        ScanClose(lines, i, yamlContent);
        yamlClosed := true;
      } else {
        ScanMetadata(lines, i, yamlContent);
        yamlContent := yamlContent + line;
      }
      i := i + 1;
    }
    if yamlClosed {
      var k := FirstSeparator(lines, 1);
      assert lines[k + 1..i] == lines[k + 1..];
    }
    liquidContent := TrimSuffixNewline(liquidContent);
  }

  /**
   * What ScanFrontMatter holds after the lines before `i`: the metadata lines
   * seen so far, and once the closing delimiter is behind, the body lines after it.
   */
  ghost predicate Scanned(lines: seq<string>, i: nat, yamlClosed: bool, yaml: string, liquid: string)
    requires 1 <= i <= |lines|
  {
    var k := FirstSeparator(lines, 1);
    && (yamlClosed <==> k < i)
    && (!yamlClosed ==> yaml == JoinLines(lines[1..i]) && liquid == "")
    && (yamlClosed ==> yaml == JoinLines(lines[1..k]) && liquid == JoinLines(lines[k + 1..i]))
  }

  /** A line after the closing delimiter goes to the body. */
  lemma ScanBody(lines: seq<string>, i: nat, yaml: string, liquid: string)
    requires 1 <= i < |lines| && Scanned(lines, i, true, yaml, liquid)
    ensures Scanned(lines, i + 1, true, yaml, liquid + (lines[i] + "\n"))
  {
    var k := FirstSeparator(lines, 1);
    JoinLinesSnoc(lines[k + 1..i], lines[i]);
    assert lines[k + 1..i + 1] == lines[k + 1..i] + [lines[i]];
  }

  /** The first delimiter after the opening one closes the metadata. */
  lemma ScanClose(lines: seq<string>, i: nat, yaml: string)
    requires 1 <= i < |lines| && Scanned(lines, i, false, yaml, "") && IsSeparator(lines[i])
    ensures Scanned(lines, i + 1, true, yaml, "")
  {
    assert lines[i + 1..i + 1] == [];
  }

  /** A line before the closing delimiter goes to the metadata. */
  lemma ScanMetadata(lines: seq<string>, i: nat, yaml: string)
    requires 1 <= i < |lines| && Scanned(lines, i, false, yaml, "") && !IsSeparator(lines[i])
    ensures Scanned(lines, i + 1, false, yaml + (lines[i] + "\n"), "")
  {
    JoinLinesSnoc(lines[1..i], lines[i]);
    assert lines[1..i + 1] == lines[1..i] + [lines[i]];
  }

  // ---------------------------------------------------------------------------
  // Properties of the split
  // ---------------------------------------------------------------------------

  /** A file is not a template exactly when its first line, trimmed, is not the delimiter; that is not an error. */
  lemma NotATemplate(path: string, lines: seq<string>, decode: YamlDecoder, compile: LiquidCompiler)
    ensures ParseOutcome(path, lines, decode, compile) == Success(None)
        <==> |lines| == 0 || TrimSpace(lines[0]) != Separator
  {
  }

  /** The front matter is unclosed exactly when no line after the first is a delimiter. */
  lemma UnclosedFrontMatter(path: string, lines: seq<string>, decode: YamlDecoder, compile: LiquidCompiler)
    requires |lines| > 0 && IsSeparator(lines[0])
    ensures ParseOutcome(path, lines, decode, compile) == Failure(FrontMatterNotClosed)
        <==> forall j :: 1 <= j < |lines| ==> !IsSeparator(lines[j])
  {
    var k := FirstSeparator(lines, 1);
    if k < |lines| {
      assert IsSeparator(lines[k]);
    }
  }

  /**
   * The closing delimiter is the first delimiter after the opening one: the
   * lines between are the metadata text and everything after is the body.
   */
  lemma {:induction false} SplitAtFirstSeparator(lines: seq<string>, k: nat)
    requires 1 <= k < |lines| && IsSeparator(lines[0]) && IsSeparator(lines[k])
    requires forall j :: 1 <= j < k ==> !IsSeparator(lines[j])
    ensures SplitFrontMatter(lines)
         == Parts(JoinLines(lines[1..k]), TrimSuffixNewline(JoinLines(lines[k + 1..])))
  {
    assert FirstSeparator(lines, 1) == k;
  }

  /** A delimiter line after the closing one stays, verbatim, in the body. */
  lemma LaterSeparatorInBody(lines: seq<string>, k: nat, j: nat)
    requires 1 <= k < j < |lines| && IsSeparator(lines[0]) && k == FirstSeparator(lines, 1)
    ensures SplitFrontMatter(lines).Parts?
    ensures var body := SplitFrontMatter(lines).body;
            var at := |JoinLines(lines[k + 1..j])|;
            at + |lines[j]| <= |body| && body[at..at + |lines[j]|] == lines[j]
  {
    var tail := lines[k + 1..];
    assert tail == lines[k + 1..j] + [lines[j]] + lines[j + 1..];
    JoinLinesAppend(lines[k + 1..j] + [lines[j]], lines[j + 1..]);
    JoinLinesSnoc(lines[k + 1..j], lines[j]);
    var joined := JoinLines(tail);
    var at := |JoinLines(lines[k + 1..j])|;
    assert joined == JoinLines(lines[k + 1..j]) + lines[j] + "\n" + JoinLines(lines[j + 1..]);
    assert joined[at..at + |lines[j]|] == lines[j];
    var body := TrimSuffixNewline(joined);
    assert at + |lines[j]| < |joined|;
    assert body[at..at + |lines[j]|] == joined[at..at + |lines[j]|];
  }

  /** Empty metadata text yields an empty map, whatever the decoder would have said. */
  lemma EmptyMetadataSkipsDecoder(path: string, lines: seq<string>, d1: YamlDecoder, d2: YamlDecoder,
                                  compile: LiquidCompiler)
    requires SplitFrontMatter(lines).Parts? && SplitFrontMatter(lines).yaml == ""
    ensures ParseOutcome(path, lines, d1, compile) == ParseOutcome(path, lines, d2, compile)
    ensures ParseOutcome(path, lines, d1, compile).Success? ==>
              ParseOutcome(path, lines, d1, compile).value.Some? &&
              ParseOutcome(path, lines, d1, compile).value.value.metadata == map[]
  {
  }

  /** A decoder failure on non-empty metadata text is reported with the path and the decoder's error. */
  lemma DecoderFailureReported(path: string, lines: seq<string>, decode: YamlDecoder, compile: LiquidCompiler)
    requires SplitFrontMatter(lines).Parts? && SplitFrontMatter(lines).yaml != ""
    requires decode(SplitFrontMatter(lines).yaml).Failure?
    ensures ParseOutcome(path, lines, decode, compile)
         == Failure(InvalidYaml(path, decode(SplitFrontMatter(lines).yaml).error))
  {
  }

  /** A parsed template carries its path, its decoded metadata and the compiled body. */
  lemma ParsedTemplate(path: string, lines: seq<string>, decode: YamlDecoder, compile: LiquidCompiler)
    requires ParseOutcome(path, lines, decode, compile).Success?
    requires ParseOutcome(path, lines, decode, compile).value.Some?
    ensures var t := ParseOutcome(path, lines, decode, compile).value.value;
            var s := SplitFrontMatter(lines);
            && s.Parts?
            && t.srcPath == path
            && (s.yaml == "" ==> t.metadata == map[])
            && (s.yaml != "" ==> decode(s.yaml) == Success(t.metadata))
            && compile(s.body, path) == Success(t.liquid)
  {
  }

  lemma DelimitedLines(sep: string, m: string, b: string)
    requires '\n' !in sep && NewlineTerminated(m)
    ensures Lines(sep + "\n" + m + sep + "\n" + b) == [sep] + Lines(m) + [sep] + Lines(b)
  {
    var nl := "\n";
    var open, tail := sep + nl, sep + nl + b;
    Regroup(open + m, sep, nl);
    Regroup(open + m, sep + nl, b);
    Regroup(open, m, tail);
    LinesCons(sep, b);
    LinesAppend(m, tail);
    LinesCons(sep, m + tail);
    Regroup([sep], Lines(m), [sep] + Lines(b));
    Regroup([sep] + Lines(m), [sep], Lines(b));
  }

  /** The lines of a file made of a delimiter, metadata text, a delimiter and a body. */
  lemma FrontMatterFileLines(m: string, b: string)
    requires NewlineTerminated(m)
    ensures Lines(Separator + "\n" + m + Separator + "\n" + b)
         == [Separator] + Lines(m) + [Separator] + Lines(b)
  {
    DelimitedLines(Separator, m, b);
  }

  /** Splitting a delimiter, metadata lines with no delimiter among them, a delimiter and body lines. */
  lemma SplitOfParts(ml: seq<string>, bl: seq<string>)
    requires forall j :: 0 <= j < |ml| ==> !IsSeparator(ml[j])
    ensures SplitFrontMatter([Separator] + ml + [Separator] + bl)
         == Parts(JoinLines(ml), TrimSuffixNewline(JoinLines(bl)))
  {
    var lines := [Separator] + ml + [Separator] + bl;
    SeparatorLine();
    assert lines[1..1 + |ml|] == ml;
    assert lines[2 + |ml|..] == bl;
    SplitAtFirstSeparator(lines, 1 + |ml|);
  }

  /** Re-joining a body's lines and trimming one '\n' loses exactly one trailing '\n' of the body. */
  lemma BodyOfLines(b: string)
    ensures TrimSuffixNewline(JoinLines(Lines(b))) == TrimSuffixNewline(b)
  {
    JoinLinesOfLines(b);
    if !NewlineTerminated(b) {
      assert (b + "\n")[..|b|] == b;
    }
  }

  /**
   * Round trip: a delimiter line, newline-terminated metadata lines none of
   * which is a delimiter, a delimiter line and a body split back into the
   * metadata text and the body less one trailing '\n'.
   */
  lemma RoundTrip(m: string, b: string)
    requires NewlineTerminated(m)
    requires forall j :: 0 <= j < |Lines(m)| ==> !IsSeparator(Lines(m)[j])
    ensures SplitFrontMatter(Lines(Separator + "\n" + m + Separator + "\n" + b)) == Parts(m, TrimSuffixNewline(b))
  {
    FrontMatterFileLines(m, b);
    SplitOfParts(Lines(m), Lines(b));
    JoinLinesOfLines(m);
    BodyOfLines(b);
  }

  // ---------------------------------------------------------------------------
  // Classification
  // ---------------------------------------------------------------------------

  /** The extension of the template's source file. */
  function SrcExt(t: Template): string {
    Ext(t.srcPath)
  }

  /** The extension of the rendered output: Org and Markdown become HTML, the rest is kept. */
  function TargetExt(t: Template): string {
    var ext := SrcExt(t);
    if ext == ".org" || ext == ".md" then ".html" else ext
  }

  /** For a source path ending in ".<name>", the target extension follows from that name alone. */
  lemma TargetExtOfPath(t: Template, stem: string, ext: string)
    requires t.srcPath == stem + ext
    requires ext != [] && ext[0] == '.'
    requires forall i :: 1 <= i < |ext| ==> ext[i] != '.' && ext[i] != '/'
    ensures SrcExt(t) == ext
    ensures TargetExt(t) == if ext == ".org" || ext == ".md" then ".html" else ext
  {
    ExtOfSuffix(stem, ext);
  }

  /** The source extension is the path's final `.suffix`, or empty when its last element has no dot. */
  lemma SrcExtIsSuffix(t: Template)
    ensures var e := SrcExt(t);
      && |e| <= |t.srcPath| && e == t.srcPath[|t.srcPath| - |e|..]
      && (e != [] ==> e[0] == '.')
      && (forall i :: 0 <= i < |e| ==> e[i] != '/')
      && (forall i :: 1 <= i < |e| ==> e[i] != '.')
  {
    ExtIsSuffix(t.srcPath);
  }

  /** Only Org and Markdown sources change extension, and they become HTML. */
  lemma TargetExtRenames(t: Template)
    ensures TargetExt(t) != SrcExt(t) <==> SrcExt(t) == ".org" || SrcExt(t) == ".md"
    ensures TargetExt(t) != SrcExt(t) ==> TargetExt(t) == ".html"
  {
  }

  /** A post is a template whose metadata has a `date` key, whatever its value. */
  predicate IsPost(t: Template) {
    "date" in t.metadata
  }

  /**
   * A draft has `draft: true`; without the key a template is not a draft.  A
   * `draft` value that is not a boolean makes the type assertion panic, so
   * callers must not ask then.
   */
  function IsDraft(t: Template): bool
    requires "draft" in t.metadata ==> t.metadata["draft"].Bool?
  {
    if "draft" in t.metadata then t.metadata["draft"].b else false
  }

  /** Any `date` value makes a template a post; without the key it is none. */
  lemma IsPostAnyDate(t: Template, date: Value)
    ensures IsPost(t.(metadata := t.metadata["date" := date]))
    ensures !IsPost(t.(metadata := t.metadata - {"date"}))
  {
  }

  /** A template is a draft exactly when its metadata holds `draft: true`. */
  lemma DraftOnlyWhenTrue(t: Template)
    requires "draft" in t.metadata ==> t.metadata["draft"].Bool?
    ensures IsDraft(t) <==> "draft" in t.metadata && t.metadata["draft"] == Bool(true)
  {
  }

  /**
   * How a parsed template is classified follows from its front matter alone:
   * with empty metadata text it is neither a post nor a draft; otherwise it
   * is a post iff the decoded metadata has a `date` key, and a draft iff it
   * has `draft: true`.
   */
  lemma ParsedClassification(path: string, lines: seq<string>, decode: YamlDecoder, compile: LiquidCompiler)
    requires ParseOutcome(path, lines, decode, compile).Success?
    requires ParseOutcome(path, lines, decode, compile).value.Some?
    ensures var t := ParseOutcome(path, lines, decode, compile).value.value;
            var yaml := SplitFrontMatter(lines).yaml;
            && (yaml == "" ==> !IsPost(t) && !IsDraft(t))
            && (yaml != "" ==> (IsPost(t) <==> "date" in decode(yaml).value))
            && (yaml != "" && "draft" in decode(yaml).value && decode(yaml).value["draft"].Bool? ==>
                  IsDraft(t) == decode(yaml).value["draft"].b)
            && (yaml != "" && "draft" !in decode(yaml).value ==> !IsDraft(t))
  {
    ParsedTemplate(path, lines, decode, compile);
  }
}
