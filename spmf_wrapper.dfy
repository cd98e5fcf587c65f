/**
 * SPMFWrapper: a Weka associator that runs one algorithm of the SPMF
 * pattern-mining library. It holds the chosen catalog entry and a parameter
 * string, reads and writes them as Weka options, and on a build hands SPMF
 * a command line and keeps the text SPMF produced.
 */
module SpmfWrapper {
  import opened Results
  import opened JavaLang
  import opened WekaUtils
  import opened Catalog

  // ---------------------------------------------------------------------
  // Settings and the option list
  // ---------------------------------------------------------------------

  /** The wrapper's settings: m_algorithm and m_params. */
  datatype Config = Config(algorithm: int, params: string)

  /** The settings after construction and after resetOptions. */
  const DefaultConfig: Config := Config(0, "0.4")

  /** What setOptions throws. */
  datatype OptionsError = MissingValue(cause: OptionError) | NoSuchTag(id: int)

  /**
   * setAlgorithm's effect on m_algorithm: a tag of TAGS_SELECTION selects
   * its id, which is its catalog position; a tag of any other array
   * changes nothing.
   */
  function SelectAlgorithm(current: int, t: SelectedTag): (r: int)
    requires t.Valid()
    requires 0 <= current < CatalogSize
    ensures 0 <= r < CatalogSize
    ensures t.table == TagsSelectionArray ==> r == t.selected
    ensures t.table != TagsSelectionArray ==> r == current
  {
    CatalogIds();
    if t.table == TagsSelectionArray then t.GetSelectedTag().id else current
  }

  /**
   * The SelectedTag setOptions passes to setAlgorithm for the -M value m:
   * a number selects the tag with that id (Err(n) when there is none, where
   * the SelectedTag constructor throws); otherwise the first entry named m,
   * or entry 0 when m is empty or names no entry.
   */
  function AlgorithmTag(m: string): (r: Result<SelectedTag, int>)
    ensures r.Ok? ==> r.value.Valid() && r.value.table == TagsSelectionArray
  {
    match ParseInt(m)
    case Some(n) =>
      (match NewSelectedTag(n, TagsSelectionArray)
       case Some(t) => Ok(t)
       case None => Err(n))
    case None =>
      if |m| == 0 then Ok(CatalogTag(0))
      else match FindName(m, 0)
        case Some(i) => Ok(CatalogTag(i))
        case None => Ok(CatalogTag(0))
  }

  /**
   * setOptions(options) as a function of the settings before the call: the
   * settings after it, and whether it threw. A -M flag without a value
   * throws before anything changes, and so does a number that is not a
   * catalog id; a -P flag without a value throws after the algorithm has
   * been set.
   */
  function ApplyOptions(c: Config, options: seq<string>): (r: (Config, Outcome<OptionsError>))
    requires 0 <= c.algorithm < CatalogSize
    ensures 0 <= r.0.algorithm < CatalogSize
    ensures r.1.Fail? && r.1.error.NoSuchTag? ==> r.0 == c
  {
    match GetOption('M', options)
    case Err(e) => (c, Fail(MissingValue(e)))
    case Ok((m, rest)) =>
      match AlgorithmTag(m)
      case Err(n) => (c, Fail(NoSuchTag(n)))
      case Ok(t) =>
        var algorithm := SelectAlgorithm(c.algorithm, t);
        match GetOption('P', rest)
        case Err(e) => (Config(algorithm, c.params), Fail(MissingValue(e)))
        case Ok((p, _)) => (Config(algorithm, p), Pass)
  }

  /** getOptions(): the option list that describes the settings. */
  function OptionsOf(c: Config): seq<string>
    requires 0 <= c.algorithm < CatalogSize
  {
    ["-M", Name(c.algorithm), "-P", c.params]
  }

  /** Every catalog name, given as the -M value, selects its own entry. */
  lemma NameSelectsEntry(i: nat)
    requires i < CatalogSize
    ensures AlgorithmTag(Name(i)) == Ok(CatalogTag(i))
  {
    CatalogWellFormed();
    assert EntryWellFormed(i);
    NamesNotNumeric();
    NameFoundAt(i);
  }

  /**
   * Only a catalog name or a catalog position, given as the -M value,
   * selects an entry other than 0.
   */
  lemma SelectedEntryComesFromValue(m: string, i: nat)
    requires 0 < i < CatalogSize
    requires AlgorithmTag(m) == Ok(CatalogTag(i))
    ensures m == Name(i) || ParseInt(m) == Some(i)
  {
    match ParseInt(m)
    case Some(n) =>
      SelectCatalogEntry(n);
    case None =>
  }

  /** Feeding back what getOptions writes restores the settings, whatever they were before. */
  lemma OptionsRoundTrip(before: Config, c: Config)
    requires 0 <= before.algorithm < CatalogSize
    requires 0 <= c.algorithm < CatalogSize
    ensures ApplyOptions(before, OptionsOf(c)) == (c, Pass)
  {
    var name := Name(c.algorithm);
    assert OptionsOf(c) == [] + [FlagToken('M'), name] + ["-P", c.params];
    GetOptionFirst('M', [], name, ["-P", c.params]);
    assert [] + ["", ""] + ["-P", c.params] == ["", ""] + [FlagToken('P'), c.params] + [];
    GetOptionFirst('P', ["", ""], c.params, []);
    NameSelectsEntry(c.algorithm);
  }

  /**
   * -M with any value Integer.parseInt reads as a catalog position ("7",
   * "+7", "007") selects that entry, and -P sets the parameters.
   */
  lemma SetByNumber(before: Config, m: string, i: nat, p: string)
    requires 0 <= before.algorithm < CatalogSize
    requires ParseInt(m) == Some(i) && i < CatalogSize
    ensures ApplyOptions(before, ["-M", m, "-P", p]) == (Config(i, p), Pass)
  {
    SelectCatalogEntry(i);
    assert ["-M", m, "-P", p] == [] + [FlagToken('M'), m] + ["-P", p];
    GetOptionFirst('M', [], m, ["-P", p]);
    assert [] + ["", ""] + ["-P", p] == ["", ""] + [FlagToken('P'), p] + [];
    GetOptionFirst('P', ["", ""], p, []);
  }

  /** In particular, -M with a catalog position written in decimal selects that entry. */
  lemma SetByIndex(before: Config, i: nat, p: string)
    requires 0 <= before.algorithm < CatalogSize
    requires i < CatalogSize
    ensures ApplyOptions(before, ["-M", Decimal(i), "-P", p]) == (Config(i, p), Pass)
  {
    ParseDecimal(i);
    SetByNumber(before, Decimal(i), i, p);
  }

  /** A number that is not a catalog id is rejected, and the settings stay as they were. */
  lemma OutOfRangeIndexRejected(before: Config, m: string, p: string)
    requires 0 <= before.algorithm < CatalogSize
    requires ParseInt(m).Some? && !(0 <= ParseInt(m).value < CatalogSize)
    ensures ApplyOptions(before, ["-M", m, "-P", p]) == (before, Fail(NoSuchTag(ParseInt(m).value)))
  {
    SelectCatalogEntry(ParseInt(m).value);
    assert ["-M", m, "-P", p] == [] + [FlagToken('M'), m] + ["-P", p];
    GetOptionFirst('M', [], m, ["-P", p]);
  }

  /**
   * An -M value that is empty, or is neither a number nor a catalog name,
   * silently selects entry 0; the parameters are still taken from -P.
   */
  lemma UnknownNameSelectsFirst(before: Config, m: string, p: string)
    requires 0 <= before.algorithm < CatalogSize
    requires ParseInt(m) == None
    requires forall i :: 0 <= i < CatalogSize ==> Name(i) != m
    ensures ApplyOptions(before, ["-M", m, "-P", p]) == (Config(0, p), Pass)
  {
    assert ["-M", m, "-P", p] == [] + [FlagToken('M'), m] + ["-P", p];
    GetOptionFirst('M', [], m, ["-P", p]);
    assert [] + ["", ""] + ["-P", p] == ["", ""] + [FlagToken('P'), p] + [];
    GetOptionFirst('P', ["", ""], p, []);
  }

  /** Without -M and -P, setOptions selects entry 0 and an empty parameter string. */
  lemma NoFlagsSelectDefaults(before: Config, options: seq<string>)
    requires 0 <= before.algorithm < CatalogSize
    requires "-M" !in options && "-P" !in options
    ensures ApplyOptions(before, options) == (Config(0, ""), Pass)
  {
    assert FlagToken('M') == "-M" && FlagToken('P') == "-P";
    GetOptionAbsent('M', options);
    GetOptionAbsent('P', options);
  }

  /**
   * With -P absent, a successful setOptions leaves the parameters empty,
   * whatever -M said: getOption returns "" for a missing flag.
   */
  lemma ParamsFlagAbsent(before: Config, options: seq<string>)
    requires 0 <= before.algorithm < CatalogSize
    requires "-P" !in options
    requires ApplyOptions(before, options).1.Pass?
    ensures ApplyOptions(before, options).0.params == ""
  {
    assert FlagToken('P') == "-P";
    match FlagPosition('M', options)
    case None =>
      GetOptionAbsent('P', options);
    case Some(i) =>
      var rest := options[i := ""][i + 1 := ""];
      assert GetOption('M', options) == Ok((options[i + 1], rest));
      assert forall k :: 0 <= k < |rest| ==> rest[k] == "" || rest[k] == options[k];
      GetOptionAbsent('P', rest);
  }

  /**
   * -P as the last option: the -M value has already been applied when
   * getOption throws for -P, so the new algorithm stays beside the old
   * parameters.
   */
  lemma ParamsValueMissing(before: Config, m: string)
    requires 0 <= before.algorithm < CatalogSize
    requires AlgorithmTag(m).Ok?
    ensures ApplyOptions(before, ["-M", m, "-P"])
         == (Config(AlgorithmTag(m).value.selected, before.params), Fail(MissingValue(NoValueGiven('P'))))
  {
    assert ["-M", m, "-P"] == [] + [FlagToken('M'), m] + ["-P"];
    GetOptionFirst('M', [], m, ["-P"]);
    var rest: seq<string> := [] + ["", ""] + ["-P"];
    assert rest[2] == FlagToken('P');
    assert FlagPosition('P', rest) == Some(2);
  }

  /** An instance: "TNR" is entry 38, the last one. */
  lemma TnrWithoutParamsValue(before: Config)
    requires 0 <= before.algorithm < CatalogSize
    ensures ApplyOptions(before, ["-M", "TNR", "-P"])
         == (Config(38, before.params), Fail(MissingValue(NoValueGiven('P'))))
  {
    NameSelectsEntry(38);
    ParamsValueMissing(before, "TNR");
  }

  // ---------------------------------------------------------------------
  // The SPMF command line
  // ---------------------------------------------------------------------

  /**
   * The services a build draws on, passed in: the temporary directory, the
   * UUID strings UUID.randomUUID() hands out (uuid(0) names the input file
   * and uuid(i + 1) the copy of parameter token i: the oracle is indexed by
   * token, not by draw), File.isFile, and SPMF itself
   * as the lines it writes to the output file for a command line (None when
   * it writes none).
   */
  datatype Environment = Environment(
    tmpDir: string,
    uuid: nat -> string,
    isFile: string -> bool,
    spmf: seq<string> -> Option<seq<string>>)

  /** The file the data set is saved to before SPMF runs. */
  function InputPath(env: Environment): string {
    env.tmpDir + env.uuid(0) + ".arff"
  }

  /** Where parameter token i is copied when it names a file. */
  function CopyPath(env: Environment, i: nat): string {
    env.tmpDir + env.uuid(i + 1) + ".txt"
  }

  /** Token i after the rewrite: the bare name of its copy when it names a file, else itself. */
  function Rewritten(token: string, env: Environment, i: nat): string {
    if env.isFile(token) then BaseName(CopyPath(env, i)) else token
  }

  /** The parameter tokens after the rewrite. */
  function RewriteParams(tokens: seq<string>, env: Environment): seq<string> {
    seq(|tokens|, i requires 0 <= i < |tokens| => Rewritten(tokens[i], env, i))
  }

  function CommandLine(name: string, input: string, tokens: seq<string>): seq<string> {
    ["run", name, input, input + ".out"] + tokens
  }

  /** The command line a build hands SPMF for an algorithm name and a parameter string. */
  function Invocation(name: string, params: string, env: Environment): seq<string> {
    CommandLine(name, InputPath(env), RewriteParams(Split(params), env))
  }

  /**
   * The command is "run", the algorithm, the input path and the input path
   * plus ".out", then one entry per token of the parameter string in their
   * order; a token that names no file is passed unchanged, and one that
   * names a file becomes the bare name of its copy.
   */
  lemma InvocationLayout(name: string, params: string, env: Environment)
    ensures var cmd := Invocation(name, params, env);
      && |cmd| == 4 + |Split(params)|
      && cmd[0] == "run" && cmd[1] == name
      && cmd[2] == InputPath(env) && cmd[3] == InputPath(env) + ".out"
      && (forall i :: 0 <= i < |Split(params)| && !env.isFile(Split(params)[i]) ==> cmd[4 + i] == Split(params)[i])
      && (forall i :: 0 <= i < |Split(params)| && env.isFile(Split(params)[i]) ==> cmd[4 + i] == BaseName(CopyPath(env, i)))
  {
  }

  /** The copy of token i, named by its bare file name in the input file's directory, is the copy itself. */
  lemma CopyNameResolves(env: Environment, i: nat)
    requires '/' !in env.uuid(0) && '/' !in env.uuid(i + 1)
    ensures DirPrefix(InputPath(env)) + BaseName(CopyPath(env, i)) == CopyPath(env, i)
    ensures DirPrefix(CopyPath(env, i)) == DirPrefix(InputPath(env))
  {
    var d, copyName := env.tmpDir, env.uuid(i + 1) + ".txt";
    AppendName(d, env.uuid(0) + ".arff");
    AppendAssoc(d, env.uuid(0), ".arff");
    AppendName(d, copyName);
    AppendAssoc(d, env.uuid(i + 1), ".txt");
    DirPrefixThenBaseName(d);
    AppendAssoc(DirPrefix(d), BaseName(d), copyName);
  }

  /**
   * A token that names a file is replaced by a bare file name which, read
   * in the directory of the input file (where SPMF looks for it), is the
   * copy; and the copy lies in the input file's directory.
   */
  lemma CopiedParamResolvesBesideInput(name: string, params: string, env: Environment, i: nat)
    requires i < |Split(params)| && env.isFile(Split(params)[i])
    requires '/' !in env.uuid(0) && '/' !in env.uuid(i + 1)
    ensures var cmd := Invocation(name, params, env);
      && '/' !in cmd[4 + i]
      && DirPrefix(cmd[2]) + cmd[4 + i] == CopyPath(env, i)
      && DirPrefix(CopyPath(env, i)) == DirPrefix(cmd[2])
  {
    var tokens := Split(params);
    var cmd := Invocation(name, params, env);
    assert cmd[4 + i] == RewriteParams(tokens, env)[i] == BaseName(CopyPath(env, i));
    CopyNameResolves(env, i);
  }

  /** The output file SPMF writes lies in the input file's directory. */
  lemma OutputBesideInput(name: string, params: string, env: Environment)
    ensures var cmd := Invocation(name, params, env);
      DirPrefix(cmd[3]) == DirPrefix(cmd[2]) && BaseName(cmd[3]) == BaseName(cmd[2]) + ".out"
  {
    AppendName(InputPath(env), ".out");
  }

  /**
   * When no token names a file, the tokens SPMF receives, joined by single
   * spaces, are the parameter string without its trailing spaces.
   */
  lemma PlainParamsPassThrough(name: string, params: string, env: Environment)
    requires forall k :: 0 <= k < |Split(params)| ==> !env.isFile(Split(params)[k])
    ensures Join(Invocation(name, params, env)[4..]) == TrimTrailingSpaces(params)
  {
    var cmd := Invocation(name, params, env);
    assert cmd[4..] == Split(params);
    SplitJoin(params);
  }

  // ---------------------------------------------------------------------
  // The result text
  // ---------------------------------------------------------------------

  function HeaderLines(name: string, params: string): seq<string> {
    ["Algorithm: " + name, "Parameters: " + params, ""]
  }

  /** Lines appended one after another, each followed by '\n'. */
  function Lines(ls: seq<string>): string {
    if ls == [] then "" else ls[0] + "\n" + Lines(ls[1..])
  }

  /** The text a build keeps: the header lines, then every line SPMF wrote. */
  function ResultText(name: string, params: string, output: seq<string>): (r: string)
    ensures |r| > 0
  {
    Lines(HeaderLines(name, params) + output)
  }

  lemma {:induction false} LinesAppend(ls: seq<string>, l: string)
    ensures Lines(ls + [l]) == Lines(ls) + l + "\n"
  {
    if ls != [] {
      assert (ls + [l])[1..] == ls[1..] + [l];
      LinesAppend(ls[1..], l);
    }
  }

  lemma {:induction false} LinesConcat(a: seq<string>, b: seq<string>)
    ensures Lines(a + b) == Lines(a) + Lines(b)
  {
    if a != [] {
      assert (a + b)[1..] == a[1..] + b;
      LinesConcat(a[1..], b);
    } else {
      assert a + b == b;
    }
  }

  /**
   * The exact text: "Algorithm: <name>\n", "Parameters: <params>\n" and
   * "\n", then each output line followed by "\n".
   */
  lemma ResultTextLayout(name: string, params: string, output: seq<string>)
    ensures ResultText(name, params, output)
         == ("Algorithm: " + name + "\n") + ("Parameters: " + params + "\n") + "\n" + Lines(output)
  {
    var h := HeaderLines(name, params);
    var x, y, z := h[0] + "\n", h[1] + "\n", "\n";
    LinesConcat(h, output);
    assert h[1..] == [h[1], ""] && h[1..][1..] == [""] && [""][1..] == [];
    assert Lines([""]) == z;
    assert Lines(h) == x + (y + z);
    AppendAssoc(x, y, z);
  }

  lemma AppendAssoc(x: string, y: string, z: string)
    ensures x + (y + z) == (x + y) + z
  {
  }

  /** Reading text written line by line gives back the lines, when none holds a line break. */
  lemma {:induction false} LinesReadBack(ls: seq<string>)
    requires forall k :: 0 <= k < |ls| ==> '\n' !in ls[k]
    ensures ReadLines(Lines(ls)) == ls
    decreases |ls|
  {
    if ls != [] {
      var text := Lines(ls);
      IndexOfAfter(ls[0], '\n', Lines(ls[1..]));
      assert text == ls[0] + ['\n'] + Lines(ls[1..]);
      assert text[..|ls[0]|] == ls[0];
      assert text[|ls[0]| + 1..] == Lines(ls[1..]);
      LinesReadBack(ls[1..]);
    }
  }

  /** Reading the result text line by line gives back the header lines and then SPMF's lines. */
  lemma ResultTextReadsBack(name: string, params: string, output: seq<string>)
    requires '\n' !in name && '\n' !in params
    requires forall k :: 0 <= k < |output| ==> '\n' !in output[k]
    ensures ReadLines(ResultText(name, params, output)) == HeaderLines(name, params) + output
  {
    var ls := HeaderLines(name, params) + output;
    forall k | 0 <= k < |ls|
      ensures '\n' !in ls[k]
    {
      if k >= 3 {
        assert ls[k] == output[k - 3];
      }
    }
    LinesReadBack(ls);
  }

  // ---------------------------------------------------------------------
  // The steps of buildAssociations
  // ---------------------------------------------------------------------

  /** The rewrite loop: every token that names a file is replaced, in place, by the name of its copy. */
  method RewriteFileParams(splitParams: array<string>, env: Environment)
    modifies splitParams
    ensures splitParams[..] == RewriteParams(old(splitParams[..]), env)
  {
    for i := 0 to splitParams.Length
      invariant forall k :: 0 <= k < i ==> splitParams[k] == Rewritten(old(splitParams[k]), env, k)
      invariant forall k :: i <= k < splitParams.Length ==> splitParams[k] == old(splitParams[k])
    {
      if env.isFile(splitParams[i]) {
        var randParamFilename := env.tmpDir + env.uuid(i + 1) + ".txt";
        splitParams[i] := BaseName(randParamFilename);
      }
    }
  }

  /** cmdString: "run", the algorithm, the input and output paths, then the parameter tokens. */
  method BuildCommand(name: string, input: string, splitParams: array<string>) returns (cmd: array<string>)
    ensures cmd.Length == 4 + splitParams.Length
    ensures cmd[..] == CommandLine(name, input, splitParams[..])
  {
    cmd := new string[4 + splitParams.Length];
    cmd[0] := "run";
    cmd[1] := name;
    cmd[2] := input;
    cmd[3] := input + ".out";
    for i := 0 to splitParams.Length
      invariant cmd[0] == "run" && cmd[1] == name && cmd[2] == input && cmd[3] == input + ".out"
      invariant forall k :: 0 <= k < i ==> cmd[4 + k] == splitParams[k]
    {
      cmd[4 + i] := splitParams[i];
    }
  }

  /** The StringBuilder: the header, then every line SPMF wrote, each ended by '\n'. */
  method FormatResult(name: string, params: string, output: seq<string>) returns (text: string)
    ensures text == ResultText(name, params, output)
  {
    text := "Algorithm: " + name + "\n";
    text := text + "Parameters: " + params + "\n";
    text := text + "\n";
    ResultTextLayout(name, params, []);
    assert HeaderLines(name, params) + output[..0] == HeaderLines(name, params) + [];
    for i := 0 to |output|
      invariant text == Lines(HeaderLines(name, params) + output[..i])
    {
      LinesAppend(HeaderLines(name, params) + output[..i], output[i]);
      assert HeaderLines(name, params) + output[..i + 1] == HeaderLines(name, params) + output[..i] + [output[i]];
      text := text + output[i] + "\n";
    }
    assert output[..|output|] == output;
  }

  /**
   * The search loop of setOptions: the first catalog position whose name
   * is the -M value, if any.
   */
  method FindAlgorithm(name: string) returns (found: Option<nat>)
    ensures found == FindName(name, 0)
  {
    var foundAlgorithm := false;
    found := None;
    var i := 0;
    while i < |TagsSelection|
      invariant 0 <= i <= |TagsSelection|
      invariant FindName(name, i) == FindName(name, 0)
      invariant !foundAlgorithm && found == None
    {
      FindNameStep(name, i);
      if name == Name(i) {
        found := Some(i);
        foundAlgorithm := true;
        break;
      }
      i := i + 1;
    }
    if !foundAlgorithm {
      FindNameStep(name, i);
    }
  }

  // ---------------------------------------------------------------------
  // The associator
  // ---------------------------------------------------------------------

  /** The build a result text comes from. */
  datatype Run = Run(name: string, params: string, output: seq<string>)

  ghost function RunText(run: Option<Run>): string {
    match run
    case None => ""
    case Some(r) => ResultText(r.name, r.params, r.output)
  }

  /** What buildAssociations throws. */
  datatype BuildError = CapabilityViolation | NoOutputFile

  class SPMFWrapper {
    var algorithm: int
    var params: string
    var spmfOutput: string
    /** The last build that completed, if any: what spmfOutput holds the text of. */
    ghost var lastRun: Option<Run>

    ghost predicate Valid()
      reads this
    {
      0 <= algorithm < CatalogSize && spmfOutput == RunText(lastRun)
    }

    function Settings(): Config
      reads this
    {
      Config(algorithm, params)
    }

    constructor ()
      ensures Valid() && Settings() == DefaultConfig && lastRun == None && ToString() == ""
    {
      algorithm := 0;
      params := "0.4";
      spmfOutput := "";
      lastRun := None;
      new;
      ResetOptions();
    }

    method ResetOptions()
      requires Valid()
      modifies this`algorithm, this`params
      ensures Valid() && Settings() == DefaultConfig
    {
      algorithm := 0;
      params := "0.4";
    }

    function GetAlgorithm(): (t: SelectedTag)
      reads this
      requires Valid()
      ensures t.Valid() && t.table == TagsSelectionArray
      ensures t.GetSelectedTag() == TagsSelection[algorithm]
    {
      CatalogTag(algorithm)
    }

    method SetAlgorithm(t: SelectedTag)
      requires Valid() && t.Valid()
      modifies this`algorithm
      ensures Valid() && algorithm == SelectAlgorithm(old(algorithm), t)
    {
      if t.table == TagsSelectionArray {
        CatalogIds();
        algorithm := t.GetSelectedTag().id;
      }
    }

    function GetParams(): string
      reads this
    {
      params
    }

    method SetParams(p: string)
      requires Valid()
      modifies this`params
      ensures Valid() && params == p && GetParams() == p
    {
      params := p;
    }

    /**
     * The -M part of setOptions: the value is a catalog id, a catalog name,
     * or anything else (entry 0). Returns the id that has no tag, in which
     * case nothing changes.
     */
    method SetAlgorithmFromValue(name: string) returns (rejected: Option<int>)
      requires Valid()
      modifies this`algorithm
      ensures Valid()
      ensures match AlgorithmTag(name)
        case Err(n) => rejected == Some(n) && algorithm == old(algorithm)
        case Ok(t) => rejected == None && algorithm == SelectAlgorithm(old(algorithm), t)
    {
      var num := ParseInt(name);
      if num.Some? {
        var tag := NewSelectedTag(num.value, TagsSelectionArray);
        if tag.None? {
          return Some(num.value);
        }
        SetAlgorithm(tag.value);
      } else if |name| == 0 {
        SetAlgorithm(CatalogTag(0));
      } else {
        var found := FindAlgorithm(name);
        if found.Some? {
          SetAlgorithm(CatalogTag(found.value));
        } else {
          SetAlgorithm(CatalogTag(0));
        }
      }
      rejected := None;
    }

    method SetOptions(options: seq<string>) returns (r: Outcome<OptionsError>)
      requires Valid()
      modifies this`algorithm, this`params
      ensures Valid()
      ensures (Settings(), r) == ApplyOptions(old(Settings()), options)
    {
      var m := GetOption('M', options);
      if m.Err? {
        return Fail(MissingValue(m.error));
      }
      var (name, rest) := m.value;
      var rejected := SetAlgorithmFromValue(name);
      if rejected.Some? {
        return Fail(NoSuchTag(rejected.value));
      }
      var p := GetOption('P', rest);
      if p.Err? {
        return Fail(MissingValue(p.error));
      }
      SetParams(p.value.0);
      r := Pass;
    }

    method GetOptions() returns (options: array<string>)
      requires Valid()
      ensures fresh(options)
      ensures options.Length == 4 && options[..] == OptionsOf(Settings())
    {
      options := new string[4];
      var current := 0;
      options[current] := "-M";
      current := current + 1;
      options[current] := GetAlgorithm().GetSelectedTag().readable;
      current := current + 1;
      options[current] := "-P";
      current := current + 1;
      options[current] := GetParams();
      current := current + 1;
    }

    method BuildAssociations(data: Instances, env: Environment) returns (r: Outcome<BuildError>)
      requires Valid()
      modifies this`spmfOutput, this`lastRun
      ensures Valid()
      ensures !Handles(data) ==> r == Fail(CapabilityViolation) && lastRun == old(lastRun)
      ensures Handles(data) ==>
        var output := env.spmf(Invocation(Name(algorithm), params, env));
        && (output.None? ==> r == Fail(NoOutputFile) && lastRun == old(lastRun))
        && (output.Some? ==> r == Pass && lastRun == Some(Run(Name(algorithm), params, output.value)))
    {
      if !Handles(data) {
        return Fail(CapabilityViolation);
      }
      var randFilename := env.tmpDir + env.uuid(0) + ".arff";
      var tokens := Split(GetParams());
      var splitParams := new string[|tokens|](i requires 0 <= i < |tokens| => tokens[i]);
      assert splitParams[..] == tokens;
      RewriteFileParams(splitParams, env);
      var cmdString := BuildCommand(TagsSelection[algorithm].readable, randFilename, splitParams);
      var output := env.spmf(cmdString[..]);
      if output.None? {
        return Fail(NoOutputFile);
      }
      var text := FormatResult(GetAlgorithm().GetSelectedTag().readable, GetParams(), output.value);
      spmfOutput := text;
      lastRun := Some(Run(Name(algorithm), params, output.value));
      r := Pass;
    }

    function ToString(): (s: string)
      reads this
      requires Valid()
      ensures s == "" <==> lastRun == None
      ensures lastRun.Some? ==> s == ResultText(lastRun.value.name, lastRun.value.params, lastRun.value.output)
    {
      spmfOutput
    }
  }

  /**
   * The wrapper's test sets each algorithm by name with some parameters and
   * reads the options back; feeding those options in again is the model's
   * round trip. The options read back name the algorithm, and the settings
   * survive the reapply. The Java setOptions would blank the entries of the
   * array it is given, so the read-back options are kept as a sequence
   * taken before the reapply.
   */
  method SetReadBackAndReapply(w: SPMFWrapper, i: nat, p: string) returns (readBack: seq<string>)
    requires w.Valid() && i < CatalogSize
    modifies w`algorithm, w`params
    ensures w.Valid() && w.Settings() == Config(i, p)
    ensures readBack == ["-M", Name(i), "-P", p]
  {
    OptionsRoundTrip(w.Settings(), Config(i, p));
    var r := w.SetOptions(["-M", Name(i), "-P", p]);
    var options := w.GetOptions();
    readBack := options[..];
    OptionsRoundTrip(w.Settings(), w.Settings());
    r := w.SetOptions(readBack);
  }
}
