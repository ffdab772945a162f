/**
 * The pandoc command builder of src/main/mdConverter.ts. Running the command,
 * rendering HTML to PDF, `path.join`, the clock and the temporary directory are
 * oracles held in an `Environment`.
 */
module MdConverter {
  import opened Wrappers
  import opened Text
  import TwUtility

  /** `MdConvertInfo` as the renderer sends it. */
  datatype ConvertInfo = ConvertInfo(filePath: string, docType: string, template: string, isEmbed: bool)

  /** The `Option` record `createOption` fills in; `None` is null. */
  datatype PandocOption = PandocOption(
    command: string,
    templateFilePath: Option<string>,
    useTableOfContent: bool,
    standAlone: bool,
    inputFilePath: string,
    outputFilePath: Option<string>,
    selfContained: bool,
    slideshow: bool,
    convertRelativePath: bool)

  /** What the converter gets from the operating system. */
  datatype Environment = Environment(
    /** The `pandoc` folder under the application folder. */
    templateFolder: string,
    /** `path.join` of two segments. */
    join: (string, string) -> string,
    /** `new Date().toISOString()` at the time the option is built. */
    isoNow: string,
    /** The directory `mkdtemp` creates, or `None` when it fails. */
    tempDir: Option<string>,
    /** Whether `exec` of the command succeeds. */
    execOk: string -> bool,
    /** Whether loading the HTML file, printing it and writing the PDF file succeed. */
    renderOk: (string, string) -> bool)

  /** A JavaScript string value in an `if`: present and not empty. */
  predicate Truthy(s: Option<string>) {
    s.Some? && s.value != ""
  }

  const StampChars: set<char> := {'T', 'Z', '.', ':', '-'}

  /**
   * `replace(/[TZ.:-]/g, '')`: every `T`, `Z`, `.`, `:` and `-` removed, each
   * other character kept as often as it occurs (and in order, by `StampAppend`).
   */
  function Stamp(iso: string): (r: string)
    ensures forall i :: 0 <= i < |r| ==> r[i] !in StampChars
    ensures forall c :: c !in StampChars ==> multiset(r)[c] == multiset(iso)[c]
    ensures |r| <= |iso|
  {
    if iso == [] then []
    else
      assert iso == [iso[0]] + iso[1..];
      (if iso[0] in StampChars then [] else [iso[0]]) + Stamp(iso[1..])
  }

  /** The characters are dropped one by one, so the order of what is kept is the input's. */
  lemma {:induction false} StampAppend(a: string, b: string)
    ensures Stamp(a + b) == Stamp(a) + Stamp(b)
  {
    if a == [] {
      assert a + b == b;
    } else {
      var head: string := if a[0] in StampChars then [] else [a[0]];
      assert (a + b)[0] == a[0] && (a + b)[1..] == a[1..] + b;
      assert Stamp(a + b) == head + Stamp(a[1..] + b);
      assert Stamp(a) == head + Stamp(a[1..]);
      StampAppend(a[1..], b);
      ConcatAssoc(head, Stamp(a[1..]), Stamp(b));
    }
  }

  /** Concatenation regroups freely. */
  lemma ConcatAssoc<T>(x: seq<T>, y: seq<T>, z: seq<T>)
    ensures x + (y + z) == (x + y) + z
  {
  }

  /** The stamp of a stamp is itself, and a text free of those characters is kept whole. */
  lemma {:induction false} StampKeepsPlain(s: string)
    requires forall i :: 0 <= i < |s| ==> s[i] !in StampChars
    ensures Stamp(s) == s
  {
    if s != [] {
      StampKeepsPlain(s[1..]);
    }
  }

  /** `filePath.replace('.md', ext)`: the first `.md` anywhere in the path becomes the extension. */
  function OutputPath(filePath: string, ext: string): string {
    ReplaceFirst(filePath, ".md", ext)
  }

  /** The `html` setting of the switch. */
  predicate HtmlShape(o: PandocOption, info: ConvertInfo, env: Environment) {
    && o.templateFilePath == Some(env.join(env.templateFolder, info.template))
    && o.useTableOfContent
    && o.outputFilePath == Some(IntendedOutputPath(info.filePath, ".html"))
    && o.selfContained == info.isEmbed
    && !o.slideshow
  }

  /** The `slide` setting of the switch. */
  predicate SlideShape(o: PandocOption, info: ConvertInfo) {
    && o.templateFilePath.None?
    && !o.useTableOfContent
    && o.outputFilePath == Some(IntendedOutputPath(info.filePath, ".html"))
    && o.selfContained == info.isEmbed
    && o.slideshow
  }

  /** The `pdf` setting of the switch: the intermediate HTML goes into the temporary directory, named by the time. */
  predicate PdfShape(o: PandocOption, info: ConvertInfo, env: Environment, tempDir: string) {
    && o.templateFilePath == Some(env.join(env.templateFolder, info.template))
    && o.useTableOfContent
    && o.outputFilePath == Some(env.join(tempDir, Stamp(env.isoNow) + ".html"))
    && o.selfContained == info.isEmbed
    && !o.slideshow
  }

  /** What every option holds whatever the document type. */
  predicate CommonShape(o: PandocOption, info: ConvertInfo) {
    o.command == "pandoc" && o.standAlone && o.convertRelativePath && o.inputFilePath == info.filePath
  }

  /**
   * The option `createOption` returns for a document type, or the error it
   * throws. The `html` and `slide` output path is the corrected
   * `IntendedOutputPath`; `WrittenOption` below keeps the path as written.
   */
  function OptionFor(info: ConvertInfo, env: Environment, tempDir: string): Result<PandocOption> {
    var defaults := PandocOption("pandoc", None, true, true, info.filePath, None, false, false, true);
    if info.docType == "html" then
      Ok(defaults.(templateFilePath := Some(env.join(env.templateFolder, info.template)), useTableOfContent := true,
        outputFilePath := Some(IntendedOutputPath(info.filePath, ".html")), selfContained := info.isEmbed, slideshow := false))
    else if info.docType == "slide" then
      Ok(defaults.(templateFilePath := None, useTableOfContent := false,
        outputFilePath := Some(IntendedOutputPath(info.filePath, ".html")), selfContained := info.isEmbed, slideshow := true))
    else if info.docType == "pdf" then
      Ok(defaults.(templateFilePath := Some(env.join(env.templateFolder, info.template)), useTableOfContent := true,
        outputFilePath := Some(env.join(tempDir, Stamp(env.isoNow) + ".html")), selfContained := info.isEmbed,
        slideshow := false))
    else Err("unknown document type passed. docType = [" + info.docType + "]")
  }

  /** The three document types give their settings, every option keeps the common fields, and any other type fails. */
  lemma OptionShapes(info: ConvertInfo, env: Environment, tempDir: string)
    ensures var r := OptionFor(info, env, tempDir);
      && (r.Err? <==> info.docType !in {"html", "slide", "pdf"})
      && (r.Err? ==> r.message == "unknown document type passed. docType = [" + info.docType + "]")
      && (r.Ok? ==> CommonShape(r.value, info))
      && (info.docType == "html" ==> r.Ok? && HtmlShape(r.value, info, env))
      && (info.docType == "slide" ==> r.Ok? && SlideShape(r.value, info))
      && (info.docType == "pdf" ==> r.Ok? && PdfShape(r.value, info, env, tempDir))
  {
  }

  /** `createOption`: the defaults, then the fields the switch on the document type sets (with the corrected output path); any other type throws. */
  method CreateOption(info: ConvertInfo, env: Environment, tempDir: string) returns (r: Result<PandocOption>)
    ensures r == OptionFor(info, env, tempDir)
  {
    var option := PandocOption("pandoc", None, true, true, info.filePath, None, false, false, true);
    if info.docType == "html" {
      option := option.(templateFilePath := Some(env.join(env.templateFolder, info.template)));
      option := option.(useTableOfContent := true);
      option := option.(outputFilePath := Some(IntendedOutputPath(info.filePath, ".html")));
      option := option.(selfContained := info.isEmbed);
      option := option.(slideshow := false);
    } else if info.docType == "slide" {
      option := option.(templateFilePath := None);
      option := option.(useTableOfContent := false);
      option := option.(outputFilePath := Some(IntendedOutputPath(info.filePath, ".html")));
      option := option.(selfContained := info.isEmbed);
      option := option.(slideshow := true);
    } else if info.docType == "pdf" {
      option := option.(templateFilePath := Some(env.join(env.templateFolder, info.template)));
      option := option.(useTableOfContent := true);
      option := option.(outputFilePath := Some(env.join(tempDir, Stamp(env.isoNow) + ".html")));
      option := option.(selfContained := info.isEmbed);
      option := option.(slideshow := false);
    } else {
      return Err("unknown document type passed. docType = [" + info.docType + "]");
    }
    r := Ok(option);
  }

  /** A token when the condition holds, nothing otherwise. */
  function Pick(c: bool, token: string): seq<string> {
    if c then [token] else []
  }

  /** The tokens of the command, in the order `createCommand` pushes them. */
  function CommandTokens(o: PandocOption): seq<string> {
    [o.command]
    + Pick(o.convertRelativePath, "-f markdown+rebase_relative_paths")
    + Pick(o.slideshow, "-t revealjs")
    + Pick(Truthy(o.templateFilePath), "--template=" + o.templateFilePath.GetOr(""))
    + Pick(o.useTableOfContent, "--toc")
    + Pick(o.standAlone, "-s")
    + Pick(o.selfContained, "--self-contained")
    + Pick(Truthy(o.outputFilePath), "-o " + o.outputFilePath.GetOr(""))
    + [o.inputFilePath]
  }

  /** `createCommand`: the tokens pushed one by one, then joined with single spaces. */
  method CreateCommand(o: PandocOption) returns (command: string)
    ensures command == Join(CommandTokens(o), " ")
  {
    var commandArr: seq<string> := [];
    commandArr := commandArr + [o.command];
    assert commandArr == [o.command];
    commandArr := PushIf(commandArr, o.convertRelativePath, "-f markdown+rebase_relative_paths");
    commandArr := PushIf(commandArr, o.slideshow, "-t revealjs");
    commandArr := PushIf(commandArr, Truthy(o.templateFilePath), "--template=" + o.templateFilePath.GetOr(""));
    commandArr := PushIf(commandArr, o.useTableOfContent, "--toc");
    commandArr := PushIf(commandArr, o.standAlone, "-s");
    commandArr := PushIf(commandArr, o.selfContained, "--self-contained");
    commandArr := PushIf(commandArr, Truthy(o.outputFilePath), "-o " + o.outputFilePath.GetOr(""));
    commandArr := commandArr + [o.inputFilePath];
    assert commandArr == CommandTokens(o);
    command := Join(commandArr, " ");
  }

  /** One `if (...) commandArr.push(token)` of `createCommand`. */
  method PushIf(arr: seq<string>, c: bool, token: string) returns (r: seq<string>)
    ensures r == arr + Pick(c, token)
  {
    r := arr;
    if c {
      r := r + [token];
    }
  }

  /** `a` is `b` with some elements left out. */
  predicate Subsequence(a: seq<string>, b: seq<string>)
    decreases |b|
  {
    if a == [] then true
    else if b == [] then false
    else (a[0] == b[0] && Subsequence(a[1..], b[1..])) || Subsequence(a, b[1..])
  }

  /** Elements put in front of the larger sequence keep a subsequence one. */
  lemma {:induction false} SubsequenceWiden(a: seq<string>, b: seq<string>, c: seq<string>)
    requires Subsequence(a, b)
    ensures Subsequence(a, c + b)
    decreases |c|
  {
    if c == [] {
      assert c + b == b;
    } else if a != [] {
      SubsequenceWiden(a, b, c[1..]);
      assert (c + b)[1..] == c[1..] + b;
      assert Subsequence(a, (c + b)[1..]);
    }
  }

  /** Subsequences of two parts give a subsequence of the two parts joined. */
  lemma {:induction false} SubsequenceAppend(a1: seq<string>, b1: seq<string>, a2: seq<string>, b2: seq<string>)
    requires Subsequence(a1, b1) && Subsequence(a2, b2)
    ensures Subsequence(a1 + a2, b1 + b2)
    decreases |b1|
  {
    if a1 == [] {
      SubsequenceWiden(a2, b2, b1);
      assert a1 + a2 == a2;
    } else if a1[0] == b1[0] && Subsequence(a1[1..], b1[1..]) {
      SubsequenceAppend(a1[1..], b1[1..], a2, b2);
      assert (a1 + a2)[1..] == a1[1..] + a2;
      assert (b1 + b2)[1..] == b1[1..] + b2;
    } else {
      SubsequenceAppend(a1, b1[1..], a2, b2);
      assert (b1 + b2)[1..] == b1[1..] + b2;
    }
  }

  lemma PickIsSubsequence(c: bool, t: string)
    ensures Subsequence(Pick(c, t), [t])
  {
    if c {
      assert Pick(c, t)[1..] == [];
    }
  }

  /** Every token that can appear, in pushing order, whether or not its flag is set. */
  function AllTokens(o: PandocOption): seq<string> {
    [o.command, "-f markdown+rebase_relative_paths", "-t revealjs", "--template=" + o.templateFilePath.GetOr(""),
     "--toc", "-s", "--self-contained", "-o " + o.outputFilePath.GetOr(""), o.inputFilePath]
  }

  /** A picked token after a subsequence keeps it a subsequence of the token's own extension. */
  lemma SubsequenceSnoc(a: seq<string>, b: seq<string>, c: bool, t: string)
    requires Subsequence(a, b)
    ensures Subsequence(a + Pick(c, t), b + [t])
  {
    PickIsSubsequence(c, t);
    SubsequenceAppend(a, b, Pick(c, t), [t]);
  }

  /** The command's tokens keep the fixed order: pandoc, rebasing, revealjs, template, toc, -s, self-contained, output, input. */
  lemma CommandOrder(o: PandocOption)
    ensures Subsequence(CommandTokens(o), AllTokens(o))
  {
    PicksInOrder(o.command, "-f markdown+rebase_relative_paths", "-t revealjs",
      "--template=" + o.templateFilePath.GetOr(""), "--toc", "-s", "--self-contained",
      "-o " + o.outputFilePath.GetOr(""), o.inputFilePath,
      o.convertRelativePath, o.slideshow, Truthy(o.templateFilePath), o.useTableOfContent,
      o.standAlone, o.selfContained, Truthy(o.outputFilePath));
  }

  /** A first and a last token with seven optional ones between them are a subsequence of all nine. */
  lemma PicksInOrder(t0: string, t1: string, t2: string, t3: string, t4: string, t5: string, t6: string, t7: string, t8: string,
                     c1: bool, c2: bool, c3: bool, c4: bool, c5: bool, c6: bool, c7: bool)
    ensures Subsequence(
      [t0] + Pick(c1, t1) + Pick(c2, t2) + Pick(c3, t3) + Pick(c4, t4) + Pick(c5, t5) + Pick(c6, t6) + Pick(c7, t7) + [t8],
      [t0, t1, t2, t3, t4, t5, t6, t7, t8])
  {
    var a4, b4 := [t0] + Pick(c1, t1) + Pick(c2, t2) + Pick(c3, t3) + Pick(c4, t4), [t0, t1, t2, t3, t4];
    PicksHead(t0, t1, t2, t3, t4, c1, c2, c3, c4);
    var a5, b5 := a4 + Pick(c5, t5), b4 + [t5];
    SubsequenceSnoc(a4, b4, c5, t5);
    var a6, b6 := a5 + Pick(c6, t6), b5 + [t6];
    SubsequenceSnoc(a5, b5, c6, t6);
    var a7, b7 := a6 + Pick(c7, t7), b6 + [t7];
    SubsequenceSnoc(a6, b6, c7, t7);
    SubsequenceSnoc(a7, b7, true, t8);
    assert a7 + Pick(true, t8) == a7 + [t8];
    assert b7 + [t8] == [t0, t1, t2, t3, t4, t5, t6, t7, t8];
  }

  /** The first token and four optional ones are a subsequence of all five. */
  lemma PicksHead(t0: string, t1: string, t2: string, t3: string, t4: string, c1: bool, c2: bool, c3: bool, c4: bool)
    ensures Subsequence([t0] + Pick(c1, t1) + Pick(c2, t2) + Pick(c3, t3) + Pick(c4, t4), [t0, t1, t2, t3, t4])
  {
    var a0, b0 := [t0], [t0];
    assert Subsequence(a0[1..], b0[1..]);
    var a1, b1 := a0 + Pick(c1, t1), b0 + [t1];
    SubsequenceSnoc(a0, b0, c1, t1);
    var a2, b2 := a1 + Pick(c2, t2), b1 + [t2];
    SubsequenceSnoc(a1, b1, c2, t2);
    var a3, b3 := a2 + Pick(c3, t3), b2 + [t3];
    SubsequenceSnoc(a2, b2, c3, t3);
    SubsequenceSnoc(a3, b3, c4, t4);
    assert b3 + [t4] == [t0, t1, t2, t3, t4];
  }

  /** The joined text ends with the separator and the last part. */
  lemma {:induction false} JoinEndsWithLast(parts: seq<string>, sep: string)
    requires |parts| >= 2
    ensures Join(parts, sep) == Join(parts[..|parts| - 1], sep) + sep + parts[|parts| - 1]
    decreases |parts|
  {
    if |parts| > 2 {
      JoinEndsWithLast(parts[1..], sep);
      assert parts[1..][..|parts[1..]| - 1] == parts[..|parts| - 1][1..];
    } else {
      assert parts[..1] == [parts[0]];
    }
  }

  /** The command starts with `pandoc` and ends with the input path, its last token. */
  lemma CommandEnds(o: PandocOption)
    requires o.command == "pandoc"
    ensures var ts := CommandTokens(o);
      |ts| >= 2 && ts[0] == "pandoc" && ts[|ts| - 1] == o.inputFilePath
    ensures var c := Join(CommandTokens(o), " ");
      && |c| >= 7 && c[..7] == "pandoc "
      && |c| > |o.inputFilePath| && c[|c| - |o.inputFilePath| - 1..] == " " + o.inputFilePath
  {
    var ts := CommandTokens(o);
    assert |ts| >= 2 && ts[0] == "pandoc" && ts[|ts| - 1] == o.inputFilePath by {
      assert ts == HeadTokens(o) + [o.inputFilePath];
    }
    JoinEnds(ts, "pandoc", o.inputFilePath);
    PandocSpace();
  }

  lemma PandocSpace()
    ensures "pandoc" + " " == "pandoc " && |"pandoc"| + 1 == 7
  {
  }

  /** Tokens joined with spaces start with the first token and a space, and end with a space and the last token. */
  lemma JoinEnds(ts: seq<string>, first: string, last: string)
    requires |ts| >= 2 && ts[0] == first && ts[|ts| - 1] == last
    ensures var c := Join(ts, " ");
      && |c| >= |first| + 1 && c[..|first| + 1] == first + " "
      && |c| > |last| && c[|c| - |last| - 1..] == " " + last
  {
    var front, back := Join(ts[1..], " "), Join(ts[..|ts| - 1], " ");
    assert Join(ts, " ") == (first + " ") + front;
    JoinEndsWithLast(ts, " ");
    assert Join(ts, " ") == back + (" " + last);
    PrefixAndSuffix(first + " ", front);
    PrefixAndSuffix(back, " " + last);
  }

  /** A concatenation starts with its first part and ends with its second. */
  lemma PrefixAndSuffix(p: string, q: string)
    ensures |p + q| == |p| + |q| && (p + q)[..|p|] == p && (p + q)[|p|..] == q
  {
  }

  /** Every option `createOption` returns gives `-f markdown+rebase_relative_paths` right after `pandoc`, and `-s`. */
  lemma AlwaysRebasedAndStandalone(o: PandocOption, info: ConvertInfo)
    requires CommonShape(o, info)
    ensures var ts := CommandTokens(o);
      ts[1] == "-f markdown+rebase_relative_paths" && "-s" in ts[..|ts| - 1]
  {
    CommandIsHeadAndInput(o);
    HeadSecond(o);
    HeadMembers(o);
    DropLast(HeadTokens(o), o.inputFilePath);
  }

  /** The command is its head followed by the input path. */
  lemma CommandIsHeadAndInput(o: PandocOption)
    ensures CommandTokens(o) == HeadTokens(o) + [o.inputFilePath]
  {
  }

  /** With rebasing on, the head's second token is the rebasing flag. */
  lemma HeadSecond(o: PandocOption)
    requires o.convertRelativePath
    ensures |HeadTokens(o)| >= 2 && HeadTokens(o)[1] == "-f markdown+rebase_relative_paths"
  {
    var first := [o.command] + Pick(true, "-f markdown+rebase_relative_paths");
    assert first[1] == "-f markdown+rebase_relative_paths";
  }

  /** Appending one element keeps the indices before it and leaves the prefix as all but the last. */
  lemma DropLast<T>(a: seq<T>, x: T)
    ensures var s := a + [x]; |s| == |a| + 1 && s[..|s| - 1] == a && forall i :: 0 <= i < |a| ==> s[i] == a[i]
  {
    var s := a + [x];
    assert s[..|s| - 1] == a;
  }

  /** The head of the command: every token but the input path. */
  function HeadTokens(o: PandocOption): seq<string> {
    [o.command]
    + Pick(o.convertRelativePath, "-f markdown+rebase_relative_paths")
    + Pick(o.slideshow, "-t revealjs")
    + Pick(Truthy(o.templateFilePath), "--template=" + o.templateFilePath.GetOr(""))
    + Pick(o.useTableOfContent, "--toc")
    + Pick(o.standAlone, "-s")
    + Pick(o.selfContained, "--self-contained")
    + Pick(Truthy(o.outputFilePath), "-o " + o.outputFilePath.GetOr(""))
  }

  /** The two tokens that carry a value start differently from each other and from every flag. */
  lemma TokensDiffer(x: string, y: string)
    ensures var t, out := "--template=" + x, "-o " + y;
      && t[..3] == "--t" && out[..3] == "-o "
      && t != out && t != "pandoc" && out != "pandoc"
      && t !in ["-f markdown+rebase_relative_paths", "-t revealjs", "--toc", "-s", "--self-contained"]
      && out !in ["-f markdown+rebase_relative_paths", "-t revealjs", "--toc", "-s", "--self-contained"]
  {
    var t, out := "--template=" + x, "-o " + y;
    assert t[0] == '-' && t[1] == '-' && t[2] == 't' && t[3] == 'e' && |t| >= 11;
    assert out[0] == '-' && out[1] == 'o' && |out| >= 3;
    assert "-f markdown+rebase_relative_paths"[1] == 'f' && "-t revealjs"[1] == 't' && "--toc"[3] == 'o';
    assert "--self-contained"[2] == 's' && "--toc"[1] == '-' && "--self-contained"[1] == '-' && "pandoc"[0] == 'p';
  }

  /** Each flag and value token is among the tokens before the input path exactly when its field is set. */
  lemma {:induction false} FlagsIffFields(o: PandocOption)
    requires o.command == "pandoc"
    ensures CommandTokens(o) == HeadTokens(o) + [o.inputFilePath]
    ensures var head := HeadTokens(o);
      && ("-f markdown+rebase_relative_paths" in head <==> o.convertRelativePath)
      && ("-t revealjs" in head <==> o.slideshow)
      && (("--template=" + o.templateFilePath.GetOr("")) in head <==> Truthy(o.templateFilePath))
      && ("--toc" in head <==> o.useTableOfContent)
      && ("-s" in head <==> o.standAlone)
      && ("--self-contained" in head <==> o.selfContained)
      && (("-o " + o.outputFilePath.GetOr("")) in head <==> Truthy(o.outputFilePath))
  {
    FixedFlagsIff(o);
    ValueTokensIff(o);
    CommandIsHeadAndInput(o);
  }

  /** The five fixed flags of the head, each present exactly when its field is set. */
  lemma FixedFlagsIff(o: PandocOption)
    requires o.command == "pandoc"
    ensures var head := HeadTokens(o);
      && ("-f markdown+rebase_relative_paths" in head <==> o.convertRelativePath)
      && ("-t revealjs" in head <==> o.slideshow)
      && ("--toc" in head <==> o.useTableOfContent)
      && ("-s" in head <==> o.standAlone)
      && ("--self-contained" in head <==> o.selfContained)
  {
    TokensDiffer(o.templateFilePath.GetOr(""), o.outputFilePath.GetOr(""));
    HeadMembers(o);
  }

  /** The template and output tokens of the head, each present exactly when its path is truthy. */
  lemma ValueTokensIff(o: PandocOption)
    requires o.command == "pandoc"
    ensures var head := HeadTokens(o);
      && (("--template=" + o.templateFilePath.GetOr("")) in head <==> Truthy(o.templateFilePath))
      && (("-o " + o.outputFilePath.GetOr("")) in head <==> Truthy(o.outputFilePath))
  {
    TokensDiffer(o.templateFilePath.GetOr(""), o.outputFilePath.GetOr(""));
    HeadMembers(o);
  }

  /** A token is in the head exactly when it is the command or a token whose field is set. */
  lemma HeadMembers(o: PandocOption)
    ensures forall x :: x in HeadTokens(o) <==>
      || x == o.command
      || (o.convertRelativePath && x == "-f markdown+rebase_relative_paths")
      || (o.slideshow && x == "-t revealjs")
      || (Truthy(o.templateFilePath) && x == "--template=" + o.templateFilePath.GetOr(""))
      || (o.useTableOfContent && x == "--toc")
      || (o.standAlone && x == "-s")
      || (o.selfContained && x == "--self-contained")
      || (Truthy(o.outputFilePath) && x == "-o " + o.outputFilePath.GetOr(""))
  {
    PicksMembers(o.command, "-f markdown+rebase_relative_paths", "-t revealjs",
      "--template=" + o.templateFilePath.GetOr(""), "--toc", "-s", "--self-contained",
      "-o " + o.outputFilePath.GetOr(""),
      o.convertRelativePath, o.slideshow, Truthy(o.templateFilePath), o.useTableOfContent,
      o.standAlone, o.selfContained, Truthy(o.outputFilePath));
  }

  /** A first token followed by seven optional ones holds exactly the first and the picked ones. */
  lemma PicksMembers(t0: string, t1: string, t2: string, t3: string, t4: string, t5: string, t6: string, t7: string,
                     c1: bool, c2: bool, c3: bool, c4: bool, c5: bool, c6: bool, c7: bool)
    ensures forall x :: x in [t0] + Pick(c1, t1) + Pick(c2, t2) + Pick(c3, t3) + Pick(c4, t4) + Pick(c5, t5) + Pick(c6, t6) + Pick(c7, t7) <==>
      x == t0 || (c1 && x == t1) || (c2 && x == t2) || (c3 && x == t3) || (c4 && x == t4)
      || (c5 && x == t5) || (c6 && x == t6) || (c7 && x == t7)
  {
    var a1 := [t0] + Pick(c1, t1);
    PickMember([t0], c1, t1);
    var a2 := a1 + Pick(c2, t2);
    PickMember(a1, c2, t2);
    var a3 := a2 + Pick(c3, t3);
    PickMember(a2, c3, t3);
    var a4 := a3 + Pick(c4, t4);
    PickMember(a3, c4, t4);
    var a5 := a4 + Pick(c5, t5);
    PickMember(a4, c5, t5);
    var a6 := a5 + Pick(c6, t6);
    PickMember(a5, c6, t6);
    PickMember(a6, c7, t7);
  }

  /** A picked token joins the members exactly when it is picked. */
  lemma PickMember(a: seq<string>, c: bool, t: string)
    ensures forall x :: x in a + Pick(c, t) <==> x in a || (c && x == t)
  {
  }

  /** `html`: template and table of contents, no slides, `--self-contained` exactly when embedding, output beside the input. */
  lemma HtmlCommand(info: ConvertInfo, env: Environment, tempDir: string)
    requires info.docType == "html"
    ensures var o := OptionFor(info, env, tempDir).value; var head := HeadTokens(o);
      && CommandTokens(o) == head + [info.filePath]
      && (env.join(env.templateFolder, info.template) != "" ==>
            "--template=" + env.join(env.templateFolder, info.template) in head)
      && "--toc" in head && "-t revealjs" !in head
      && ("--self-contained" in head <==> info.isEmbed)
      && "-o " + IntendedOutputPath(info.filePath, ".html") in head
  {
    FlagsIffFields(OptionFor(info, env, tempDir).value);
  }

  /** `slide`: revealjs, no template, no table of contents, output beside the input. */
  lemma SlideCommand(info: ConvertInfo, env: Environment, tempDir: string)
    requires info.docType == "slide"
    ensures var o := OptionFor(info, env, tempDir).value; var head := HeadTokens(o);
      && CommandTokens(o) == head + [info.filePath]
      && "-t revealjs" in head && "--toc" !in head
      && (forall x :: "--template=" + x !in head)
      && ("--self-contained" in head <==> info.isEmbed)
      && "-o " + IntendedOutputPath(info.filePath, ".html") in head
  {
    var o := OptionFor(info, env, tempDir).value;
    FlagsIffFields(o);
    forall x {
      TokensDiffer(x, o.outputFilePath.GetOr(""));
    }
  }

  /**
   * The output path as written: when the input path has no `.md` at all, the
   * output is the input itself, so pandoc is told to overwrite its own input.
   */
  lemma {:induction false} OutputOverwritesPlainInput(filePath: string, ext: string)
    requires forall j :: 0 <= j <= |filePath| ==> !OccursAt(filePath, ".md", j)
    ensures OutputPath(filePath, ext) == filePath
  {
    var i := IndexFrom(filePath, ".md", 0);
    if i.Some? {
      assert false;
    }
  }

  /** `notes.txt` holds no `.md`. */
  lemma NotesTxtHasNoMd()
    ensures forall j :: 0 <= j <= |"notes.txt"| ==> !OccursAt("notes.txt", ".md", j)
  {
    var p := "notes.txt";
    forall j | 0 <= j <= |p|
      ensures !OccursAt(p, ".md", j)
    {
      if j + 3 <= |p| {
        if j == 5 {
          assert p[j + 1] == 't';
        } else {
          assert p[j] != '.';
        }
        assert p[j..j + 3][0] == p[j] && p[j..j + 3][1] == p[j + 1];
      }
    }
  }

  /** The option as the code builds it: `html` and `slide` take the output path `replace` gives. */
  function WrittenOption(info: ConvertInfo, env: Environment, tempDir: string): Result<PandocOption> {
    match OptionFor(info, env, tempDir)
    case Ok(o) =>
      if info.docType in {"html", "slide"} then Ok(o.(outputFilePath := Some(OutputPath(info.filePath, ".html"))))
      else Ok(o)
    case Err(e) => Err(e)
  }

  /** The written and the corrected option differ only in the `html` and `slide` output path. */
  lemma WrittenOptionAgrees(info: ConvertInfo, env: Environment, tempDir: string)
    ensures WrittenOption(info, env, tempDir).Ok? <==> OptionFor(info, env, tempDir).Ok?
    ensures OptionFor(info, env, tempDir).Ok? ==>
      var o := OptionFor(info, env, tempDir).value;
      WrittenOption(info, env, tempDir).value ==
        if info.docType in {"html", "slide"} then o.(outputFilePath := Some(OutputPath(info.filePath, ".html"))) else o
  {
  }

  /** A dropped `notes.txt` converted to HTML: as written its output is `notes.txt`, so the command ends with `-o notes.txt notes.txt`. */
  lemma NotesTxtOverwritten(env: Environment, tempDir: string)
    ensures var o := WrittenOption(ConvertInfo("notes.txt", "html", "default.html", false), env, tempDir).value;
      && OutputPath("notes.txt", ".html") == "notes.txt"
      && CommandTokens(o) == HeadTokens(o) + ["notes.txt"]
      && "-o " + "notes.txt" in HeadTokens(o)
  {
    NotesTxtHasNoMd();
    PlainInputOverwritten("notes.txt", env, tempDir);
  }

  /** As written, any non-empty path without `.md` converted to HTML is also the command's output. */
  lemma PlainInputOverwritten(p: string, env: Environment, tempDir: string)
    requires p != "" && forall j :: 0 <= j <= |p| ==> !OccursAt(p, ".md", j)
    ensures var o := WrittenOption(ConvertInfo(p, "html", "default.html", false), env, tempDir).value;
      && OutputPath(p, ".html") == p
      && CommandTokens(o) == HeadTokens(o) + [p]
      && "-o " + p in HeadTokens(o)
  {
    OutputOverwritesPlainInput(p, ".html");
    WrittenHtmlCommand(ConvertInfo(p, "html", "default.html", false), env, tempDir);
  }

  /** As written, an `html` conversion's command ends with the input and carries `-o` with the unguarded output path, when that is not empty. */
  lemma WrittenHtmlCommand(info: ConvertInfo, env: Environment, tempDir: string)
    requires info.docType == "html" && OutputPath(info.filePath, ".html") != ""
    ensures WrittenOption(info, env, tempDir).Ok?
    ensures var o := WrittenOption(info, env, tempDir).value;
      && CommandTokens(o) == HeadTokens(o) + [info.filePath]
      && "-o " + OutputPath(info.filePath, ".html") in HeadTokens(o)
  {
    var o := OptionFor(info, env, tempDir).value.(outputFilePath := Some(OutputPath(info.filePath, ".html")));
    assert WrittenOption(info, env, tempDir) == Ok(o);
    assert o.command == "pandoc" && o.inputFilePath == info.filePath;
    FlagsIffFields(o);
  }

  /** The corrected option for the same file writes `notes.txt.html` instead. */
  lemma NotesTxtCorrected(env: Environment, tempDir: string)
    ensures "-o " + ("notes.txt" + ".html") in HeadTokens(OptionFor(ConvertInfo("notes.txt", "html", "default.html", false), env, tempDir).value)
  {
    PlainInputGetsExtension("notes.txt", env, tempDir);
  }

  /** Corrected, a path that does not end with `.md` converted to HTML gets `.html` appended for its output. */
  lemma PlainInputGetsExtension(p: string, env: Environment, tempDir: string)
    requires !EndsWithMd(p)
    ensures "-o " + (p + ".html") in HeadTokens(OptionFor(ConvertInfo(p, "html", "default.html", false), env, tempDir).value)
  {
    assert IntendedOutputPath(p, ".html") == p + ".html";
    HtmlCommand(ConvertInfo(p, "html", "default.html", false), env, tempDir);
  }

  predicate EndsWithMd(p: string) {
    |p| >= 3 && p[|p| - 3..] == ".md"
  }

  /** What the output path is meant to be: the trailing `.md` replaced, or the extension added when there is none. */
  function IntendedOutputPath(filePath: string, ext: string): string {
    if EndsWithMd(filePath) then filePath[..|filePath| - 3] + ext else filePath + ext
  }

  /** The intended output never names the input, ends with the extension, and keeps the directory part. */
  lemma IntendedOutputDiffers(filePath: string, ext: string)
    requires |ext| > 3
    ensures var out := IntendedOutputPath(filePath, ext);
      && out != filePath
      && |out| >= |ext| && out[|out| - |ext|..] == ext
      && (EndsWithMd(filePath) ==> out[..|filePath| - 3] == filePath[..|filePath| - 3])
      && (!EndsWithMd(filePath) ==> out[..|filePath|] == filePath)
  {
  }

  /** Where the only `.md` is the trailing extension, the code as written gives the intended path. */
  lemma IntendedAgreesOnPlainNames(filePath: string, ext: string)
    requires EndsWithMd(filePath)
    requires forall j :: 0 <= j < |filePath| - 3 ==> !OccursAt(filePath, ".md", j)
    ensures OutputPath(filePath, ext) == IntendedOutputPath(filePath, ext)
  {
    assert OccursAt(filePath, ".md", |filePath| - 3);
    var i := IndexFrom(filePath, ".md", 0);
    assert i.Some? && i.value == |filePath| - 3;
    assert filePath[i.value + 3..] == [];
  }

  /** The PDF file `convertHtmlToPdf` writes beside the input, with the corrected path of the Findings. */
  function PdfPath(info: ConvertInfo): string {
    IntendedOutputPath(info.filePath, ".pdf")
  }

  /** `inputFilePath.replace('.md', '.pdf')`: the PDF path as the code builds it. */
  function WrittenPdfPath(info: ConvertInfo): string {
    OutputPath(info.filePath, ".pdf")
  }

  /** As written, the PDF of a dropped `notes.txt` is written onto `notes.txt` itself. */
  lemma NotesTxtPdfOverwritten()
    ensures WrittenPdfPath(ConvertInfo("notes.txt", "pdf", "default.html", false)) == "notes.txt"
  {
    NotesTxtHasNoMd();
    OutputOverwritesPlainInput("notes.txt", ".pdf");
  }

  /** The corrected PDF path never names the input and ends with `.pdf`; it agrees with the written one when the only `.md` ends the path. */
  lemma PdfPathDiffers(info: ConvertInfo)
    ensures var out := PdfPath(info);
      && out != info.filePath
      && |out| >= 4 && out[|out| - 4..] == ".pdf"
    ensures EndsWithMd(info.filePath) && (forall j :: 0 <= j < |info.filePath| - 3 ==> !OccursAt(info.filePath, ".md", j)) ==>
      WrittenPdfPath(info) == PdfPath(info)
  {
    IntendedOutputDiffers(info.filePath, ".pdf");
    if EndsWithMd(info.filePath) && (forall j :: 0 <= j < |info.filePath| - 3 ==> !OccursAt(info.filePath, ".md", j)) {
      IntendedAgreesOnPlainNames(info.filePath, ".pdf");
    }
  }

  /**
   * `convertToPdf`: an HTML file into the temporary directory, then the PDF
   * beside the input. A temporary directory that cannot be made, or a failed
   * pandoc run, gives `false` without rendering; the temporary directory is
   * removed whenever it was made with a name that is not blank.
   */
  method ConvertToPdf(info: ConvertInfo, env: Environment)
    returns (ok: bool, commands: seq<string>, rendered: Option<(string, string)>, removed: Option<string>)
    requires info.docType == "pdf"
    ensures env.tempDir.None? ==> !ok && commands == [] && rendered.None? && removed.None?
    ensures env.tempDir.Some? ==>
      var o := OptionFor(info, env, env.tempDir.value).value;
      && commands == [Join(CommandTokens(o), " ")]
      && (rendered.Some? <==> env.execOk(commands[0]))
      && (rendered.Some? ==> rendered.value == (o.outputFilePath.value, PdfPath(info)))
      && (ok <==> rendered.Some? && env.renderOk(rendered.value.0, rendered.value.1))
      && (removed.Some? <==> !TwUtility.IsNullOrWhiteSpace(env.tempDir))
      && (removed.Some? ==> removed == env.tempDir)
  {
    commands, rendered, removed := [], None, None;
    if env.tempDir.None? {
      return false, commands, rendered, removed;
    }
    var tempDir := env.tempDir.value;
    var option := CreateOption(info, env, tempDir);
    OptionShapes(info, env, tempDir);
    var command := CreateCommand(option.value);
    commands := [command];
    if !env.execOk(command) {
      ok := false;
    } else {
      rendered := Some((option.value.outputFilePath.value, PdfPath(info)));
      ok := env.renderOk(option.value.outputFilePath.value, PdfPath(info));
    }
    if !TwUtility.IsNullOrWhiteSpace(Some(tempDir)) {
      removed := Some(tempDir);
    }
  }

  /**
   * `convert`: `pdf` goes to `convertToPdf`; `html` and `slide` run one pandoc
   * command and report whether it succeeded; any other type fails with the error
   * `createOption` throws, before anything runs.
   */
  method Convert(info: ConvertInfo, env: Environment) returns (r: Result<bool>, commands: seq<string>)
    ensures info.docType !in {"html", "slide", "pdf"} ==>
      r == Err("unknown document type passed. docType = [" + info.docType + "]") && commands == []
    ensures info.docType in {"html", "slide"} ==>
      && commands == [Join(CommandTokens(OptionFor(info, env, "").value), " ")]
      && r == Ok(env.execOk(commands[0]))
    ensures info.docType == "pdf" ==> r.Ok? && |commands| <= 1
    ensures info.docType == "pdf" ==>
      (r.value <==>
        && env.tempDir.Some? && |commands| == 1 && env.execOk(commands[0])
        && env.renderOk(OptionFor(info, env, env.tempDir.value).value.outputFilePath.value, PdfPath(info)))
  {
    if info.docType == "pdf" {
      var ok, rendered, removed;
      ok, commands, rendered, removed := ConvertToPdf(info, env);
      return Ok(ok), commands;
    }
    var option := CreateOption(info, env, "");
    OptionShapes(info, env, "");
    if option.Err? {
      return Err(option.message), [];
    }
    var command := CreateCommand(option.value);
    commands := [command];
    r := Ok(env.execOk(command));
  }
}
