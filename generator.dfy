/** The stages of `CppTestGenerator` in src/test_generator.py and how `run_full_pipeline`
    strings them together.

    The provider is a function from (prompt, system prompt) to a `Reply`: an answer, or an
    exception that the stage catches. Reading a file is a function from its path to its text
    (`read_file_content` returns "" for a file it cannot read). A stage configuration that
    fails to load, or loads empty, is `None`. The generator's fields are set once, in its
    constructor, so the stages take them as parameters rather than living in a class. */
module Generator {
  import opened Strings
  import opened Outcomes
  import opened Providers
  import opened Discovery
  import opened Prompts
  import opened CMake

  /** One file written into the output directory: its name there and its new text. */
  datatype Written = Written(name: string, text: string)

  /** A reply the stages keep: an answer that is not blank after `strip()`. */
  predicate Produced(reply: Reply) {
    reply.Answer? && !IsBlank(reply.text)
  }

  // ---------------------------------------------------------------------------
  // generate_initial_tests
  // ---------------------------------------------------------------------------

  /** The prompt for one source file: its name and its text under the stage's instructions. */
  function InitialPromptFor(path: string, read: string -> string, ins: InitialInstructions): string {
    InitialTestPrompt(Name(path), read(path), ins)
  }

  /** The prompts the loop sends, in file order: the files whose text is blank are skipped
      before the provider is asked. */
  function InitialRequests(files: seq<string>, read: string -> string, ins: InitialInstructions): seq<string> {
    if files == [] then []
    else
      var p := files[|files| - 1];
      InitialRequests(files[..|files| - 1], read, ins)
      + (if IsBlank(read(p)) then [] else [InitialPromptFor(p, read, ins)])
  }

  /** The test files the loop writes, in file order: `test_<stem>.cpp` with the provider's
      answer, for each non-blank source whose answer is not blank. */
  function InitialWrites(files: seq<string>, read: string -> string, llm: (string, string) -> Reply,
                         ins: InitialInstructions): seq<Written>
  {
    if files == [] then []
    else
      var p := files[|files| - 1];
      var reply := llm(InitialPromptFor(p, read, ins), ins.role);
      InitialWrites(files[..|files| - 1], read, llm, ins)
      + (if !IsBlank(read(p)) && Produced(reply) then [Written(TestFileName(p), reply.text)] else [])
  }

  /** `generate_initial_tests`. Without a configuration, or without a source file, it returns
      False before asking the provider anything; otherwise it asks once per non-blank source,
      writes each non-blank answer, and returns whether it wrote at least one. */
  method GenerateInitialTests(config: Option<InitialInstructions>, tree: seq<string>, order: seq<string>,
                              read: string -> string, llm: (string, string) -> Reply)
    returns (ok: bool, successCount: nat, requests: seq<string>, writes: seq<Written>)
    requires IsExtensionOrder(order)
    ensures config.None? ==> !ok && requests == [] && writes == []
    ensures config.Some? ==>
      && requests == InitialRequests(Unskipped(Candidates(tree, order)), read, config.value)
      && writes == InitialWrites(Unskipped(Candidates(tree, order)), read, llm, config.value)
    ensures successCount == |writes|
    ensures ok <==> successCount > 0
  {
    requests, writes, successCount := [], [], 0;
    if config.None? {
      return false, successCount, requests, writes;
    }
    var ins := config.value;
    var files := FindCppFiles(tree, order);
    if files == [] {
      return false, successCount, requests, writes;
    }
    for i := 0 to |files|
      invariant requests == InitialRequests(files[..i], read, ins)
      invariant writes == InitialWrites(files[..i], read, llm, ins)
      invariant successCount == |writes|
    {
      InitialStep(files, i, read, llm, ins);
      var sourceCode := read(files[i]);
      if IsBlank(sourceCode) {
        continue;
      }
      var prompt := InitialTestPrompt(Name(files[i]), sourceCode, ins);
      requests := requests + [prompt];
      var generated := llm(prompt, ins.role);
      if generated.Answer? && !IsBlank(generated.text) {
        writes := writes + [Written(TestFileName(files[i]), generated.text)];
        successCount := successCount + 1;
      }
    }
    assert files[..|files|] == files;
    ok := successCount > 0;
  }

  /** One more file of the loop adds its request and its write, if any, at the end. */
  lemma InitialStep(files: seq<string>, i: nat, read: string -> string, llm: (string, string) -> Reply,
                    ins: InitialInstructions)
    requires i < |files|
    ensures InitialRequests(files[..i + 1], read, ins) == InitialRequests(files[..i], read, ins)
      + (if IsBlank(read(files[i])) then [] else [InitialPromptFor(files[i], read, ins)])
    ensures InitialWrites(files[..i + 1], read, llm, ins) == InitialWrites(files[..i], read, llm, ins)
      + (if !IsBlank(read(files[i])) && Produced(llm(InitialPromptFor(files[i], read, ins), ins.role))
         then [Written(TestFileName(files[i]), llm(InitialPromptFor(files[i], read, ins), ins.role).text)] else [])
  {
    assert files[..i + 1][..i] == files[..i];
  }

  /** The files whose text is not blank, in order. */
  function NonBlankSources(files: seq<string>, read: string -> string): seq<string> {
    if files == [] then []
    else
      var p := files[|files| - 1];
      NonBlankSources(files[..|files| - 1], read) + (if IsBlank(read(p)) then [] else [p])
  }

  /** The provider is asked exactly once per non-blank source, in order, about that source,
      and never about a blank one. */
  lemma {:induction false} InitialRequestsPerSource(files: seq<string>, read: string -> string, ins: InitialInstructions)
    ensures |InitialRequests(files, read, ins)| == |NonBlankSources(files, read)| <= |files|
    ensures forall k :: 0 <= k < |NonBlankSources(files, read)| ==>
      InitialRequests(files, read, ins)[k] == InitialPromptFor(NonBlankSources(files, read)[k], read, ins)
    ensures forall p :: p in NonBlankSources(files, read) <==> p in files && !IsBlank(read(p))
  {
    if files != [] {
      var init := files[..|files| - 1];
      InitialRequestsPerSource(init, read, ins);
      assert files == init + [files[|files| - 1]];
    }
  }

  /** Each written file is the test file of a non-blank source, and holds the provider's
      non-blank answer about that source; conversely every such answer is written. */
  lemma InitialWritesExactly(files: seq<string>, read: string -> string,
                             llm: (string, string) -> Reply, ins: InitialInstructions)
    ensures |InitialWrites(files, read, llm, ins)| <= |files|
    ensures forall w :: w in InitialWrites(files, read, llm, ins) <==> WroteFrom(files, w, read, llm, ins)
  {
    InitialWritesBound(files, read, llm, ins);
    forall w ensures w in InitialWrites(files, read, llm, ins) <==> WroteFrom(files, w, read, llm, ins) {
      InitialWriteIff(files, w, read, llm, ins);
    }
  }

  /** At most one write per source. */
  lemma {:induction false} InitialWritesBound(files: seq<string>, read: string -> string,
                                              llm: (string, string) -> Reply, ins: InitialInstructions)
    ensures |InitialWrites(files, read, llm, ins)| <= |files|
  {
    if files != [] {
      InitialWritesBound(files[..|files| - 1], read, llm, ins);
    }
  }

  /** One write `w` is made iff it is made for some non-blank source. */
  lemma {:induction false} InitialWriteIff(files: seq<string>, w: Written, read: string -> string,
                                           llm: (string, string) -> Reply, ins: InitialInstructions)
    ensures w in InitialWrites(files, read, llm, ins) <==> WroteFrom(files, w, read, llm, ins)
  {
    if files != [] {
      InitialWriteIff(files[..|files| - 1], w, read, llm, ins);
      InitialWritesSnoc(files, w, read, llm, ins);
      WroteFromSnoc(files, w, read, llm, ins);
    }
  }

  /** The last source adds at most the one write made for it, when it is not blank. */
  lemma InitialWritesSnoc(files: seq<string>, w: Written, read: string -> string,
                          llm: (string, string) -> Reply, ins: InitialInstructions)
    requires files != []
    ensures w in InitialWrites(files, read, llm, ins) <==>
      w in InitialWrites(files[..|files| - 1], read, llm, ins)
      || (!IsBlank(read(files[|files| - 1])) && WrittenFor(files[|files| - 1], w, read, llm, ins))
  {
  }

  /** The last source adds exactly what is written for it, when it is not blank. */
  lemma WroteFromSnoc(files: seq<string>, w: Written, read: string -> string,
                      llm: (string, string) -> Reply, ins: InitialInstructions)
    requires files != []
    ensures WroteFrom(files, w, read, llm, ins) <==>
      WroteFrom(files[..|files| - 1], w, read, llm, ins)
      || (!IsBlank(read(files[|files| - 1])) && WrittenFor(files[|files| - 1], w, read, llm, ins))
  {
    SomeInSnoc(files, p => !IsBlank(read(p)) && WrittenFor(p, w, read, llm, ins));
  }

  /** Some element of a non-empty sequence has a property iff some element before the last
      one has it or the last one has it. */
  lemma SomeInSnoc(xs: seq<string>, P: string -> bool)
    requires xs != []
    ensures (exists x :: x in xs && P(x)) <==> (exists x :: x in xs[..|xs| - 1] && P(x)) || P(xs[|xs| - 1])
  {
    var init := xs[..|xs| - 1];
    if exists x :: x in xs && P(x) {
      var x :| x in xs && P(x);
      var i :| 0 <= i < |xs| && xs[i] == x;
      if i < |init| {
        assert init[i] == x;
      }
    }
    if exists x :: x in init && P(x) {
      var x :| x in init && P(x);
      var i :| 0 <= i < |init| && init[i] == x;
      assert xs[i] == x;
    }
  }

  /** `w` is written for one of the non-blank sources among `files`. */
  predicate WroteFrom(files: seq<string>, w: Written, read: string -> string, llm: (string, string) -> Reply,
                      ins: InitialInstructions)
  {
    exists p :: p in files && !IsBlank(read(p)) && WrittenFor(p, w, read, llm, ins)
  }

  /** `w` is what the loop writes for source `p`. */
  predicate WrittenFor(p: string, w: Written, read: string -> string, llm: (string, string) -> Reply,
                       ins: InitialInstructions)
  {
    var reply := llm(InitialPromptFor(p, read, ins), ins.role);
    Produced(reply) && w == Written(TestFileName(p), reply.text)
  }

  /** Generation succeeds exactly when some non-blank source gets a non-blank answer. */
  lemma InitialSucceedsIff(files: seq<string>, read: string -> string, llm: (string, string) -> Reply,
                           ins: InitialInstructions)
    ensures |InitialWrites(files, read, llm, ins)| > 0 <==>
      exists p :: p in files && !IsBlank(read(p)) && Produced(llm(InitialPromptFor(p, read, ins), ins.role))
  {
    InitialWritesExactly(files, read, llm, ins);
    var writes := InitialWrites(files, read, llm, ins);
    if exists p :: p in files && !IsBlank(read(p)) && Produced(llm(InitialPromptFor(p, read, ins), ins.role)) {
      var p :| p in files && !IsBlank(read(p)) && Produced(llm(InitialPromptFor(p, read, ins), ins.role));
      var reply := llm(InitialPromptFor(p, read, ins), ins.role);
      assert WrittenFor(p, Written(TestFileName(p), reply.text), read, llm, ins);
      assert WroteFrom(files, Written(TestFileName(p), reply.text), read, llm, ins);
    }
    if |writes| > 0 {
      assert writes[0] in writes;
      assert WroteFrom(files, writes[0], read, llm, ins);
    }
  }

  /** Every written text is a non-blank answer, under a name the CMake glob picks up. */
  lemma InitialWritesAreTests(files: seq<string>, read: string -> string, llm: (string, string) -> Reply,
                              ins: InitialInstructions)
    ensures forall w :: w in InitialWrites(files, read, llm, ins) ==> !IsBlank(w.text) && MatchesTestGlob(w.name)
  {
    InitialWritesExactly(files, read, llm, ins);
    forall w | w in InitialWrites(files, read, llm, ins)
      ensures !IsBlank(w.text) && MatchesTestGlob(w.name)
    {
      assert WroteFrom(files, w, read, llm, ins);
      var p :| p in files && !IsBlank(read(p)) && WrittenFor(p, w, read, llm, ins);
      GeneratedTestIsListed(p);
    }
  }

  /** A provider that always raises (no provider at all, as "mock" configures before the demo
      installs one: calling it raises AttributeError) makes generation write nothing and fail. */
  lemma {:induction false} RaisingProviderWritesNothing(files: seq<string>, read: string -> string,
                                                        llm: (string, string) -> Reply, ins: InitialInstructions)
    requires forall prompt, system :: llm(prompt, system) == Raised
    ensures InitialWrites(files, read, llm, ins) == []
  {
    if files != [] {
      RaisingProviderWritesNothing(files[..|files| - 1], read, llm, ins);
    }
  }

  // ---------------------------------------------------------------------------
  // refine_tests
  // ---------------------------------------------------------------------------

  /** The files the refinement loop rewrites, in listing order: each test source whose text is
      not blank and whose refined text is not blank is overwritten in place. */
  function Refinements(names: seq<string>, read: string -> string, llm: (string, string) -> Reply,
                       ins: RefinementInstructions): seq<Written>
  {
    if names == [] then []
    else
      var n := names[|names| - 1];
      var reply := llm(RefinementPrompt(n, read(n), ins), ins.role);
      Refinements(names[..|names| - 1], read, llm, ins)
      + (if !IsBlank(read(n)) && Produced(reply) then [Written(n, reply.text)] else [])
  }

  /** `refine_tests`, for the output directory's listing `entries`: False without a
      configuration or without a `test_*.cpp` file; otherwise each non-blank refined text
      replaces its file, and the verdict is whether one did. */
  method RefineTests(config: Option<RefinementInstructions>, entries: seq<string>,
                     read: string -> string, llm: (string, string) -> Reply)
    returns (ok: bool, successCount: nat, writes: seq<Written>)
    ensures config.None? ==> !ok && writes == []
    ensures config.Some? ==> writes == Refinements(TestSources(entries), read, llm, config.value)
    ensures successCount == |writes|
    ensures ok <==> successCount > 0
  {
    writes, successCount := [], 0;
    if config.None? {
      return false, successCount, writes;
    }
    var ins := config.value;
    var testFiles := TestSources(entries);
    if testFiles == [] {
      return false, successCount, writes;
    }
    for i := 0 to |testFiles|
      invariant writes == Refinements(testFiles[..i], read, llm, ins)
      invariant successCount == |writes|
    {
      assert testFiles[..i + 1][..i] == testFiles[..i];
      var testContent := read(testFiles[i]);
      if IsBlank(testContent) {
        continue;
      }
      var prompt := RefinementPrompt(testFiles[i], testContent, ins);
      var refined := llm(prompt, ins.role);
      if refined.Answer? && !IsBlank(refined.text) {
        writes := writes + [Written(testFiles[i], refined.text)];
        successCount := successCount + 1;
      }
    }
    assert testFiles[..|testFiles|] == testFiles;
    ok := successCount > 0;
  }

  /** Refinement only rewrites test sources already in the directory, each with a non-blank
      text, and at most once each time the listing names it. */
  lemma {:induction false} RefinementsRewriteTests(names: seq<string>, read: string -> string,
                                                   llm: (string, string) -> Reply, ins: RefinementInstructions)
    ensures |Refinements(names, read, llm, ins)| <= |names|
    ensures forall w :: w in Refinements(names, read, llm, ins) ==> w.name in names && !IsBlank(w.text)
  {
    if names != [] {
      RefinementsRewriteTests(names[..|names| - 1], read, llm, ins);
    }
  }

  /** `w` is what the refinement loop writes for test file `n`: the provider's non-blank
      answer to the refinement prompt about `n`, written back to `n`. */
  predicate RefinedFor(n: string, w: Written, read: string -> string, llm: (string, string) -> Reply,
                       ins: RefinementInstructions)
  {
    var reply := llm(RefinementPrompt(n, read(n), ins), ins.role);
    Produced(reply) && w == Written(n, reply.text)
  }

  /** `w` is written for one of the non-blank test files among `names`. */
  predicate RefinedFrom(names: seq<string>, w: Written, read: string -> string, llm: (string, string) -> Reply,
                        ins: RefinementInstructions)
  {
    exists n :: n in names && !IsBlank(read(n)) && RefinedFor(n, w, read, llm, ins)
  }

  /** The last test file adds exactly what is written for it, when it is not blank. */
  lemma RefinedFromSnoc(names: seq<string>, w: Written, read: string -> string,
                        llm: (string, string) -> Reply, ins: RefinementInstructions)
    requires names != []
    ensures RefinedFrom(names, w, read, llm, ins) <==>
      RefinedFrom(names[..|names| - 1], w, read, llm, ins)
      || (!IsBlank(read(names[|names| - 1])) && RefinedFor(names[|names| - 1], w, read, llm, ins))
  {
    SomeInSnoc(names, n => !IsBlank(read(n)) && RefinedFor(n, w, read, llm, ins));
  }

  /** A write happens iff it is the non-blank refined text of a listed, non-blank test file,
      written back to that file. */
  lemma RefinementsExactly(names: seq<string>, read: string -> string,
                           llm: (string, string) -> Reply, ins: RefinementInstructions)
    ensures forall w :: w in Refinements(names, read, llm, ins) <==> RefinedFrom(names, w, read, llm, ins)
  {
    forall w ensures w in Refinements(names, read, llm, ins) <==> RefinedFrom(names, w, read, llm, ins) {
      RefinementIff(names, w, read, llm, ins);
    }
  }

  /** One rewrite `w` is made iff it is made for some non-blank listed test file. */
  lemma {:induction false} RefinementIff(names: seq<string>, w: Written, read: string -> string,
                                         llm: (string, string) -> Reply, ins: RefinementInstructions)
    ensures w in Refinements(names, read, llm, ins) <==> RefinedFrom(names, w, read, llm, ins)
  {
    if names != [] {
      RefinementIff(names[..|names| - 1], w, read, llm, ins);
      RefinedFromSnoc(names, w, read, llm, ins);
    }
  }

  /** Every listed non-blank test file with a non-blank refined text is rewritten with that
      text, and every rewrite carries the refined text for the file it names. */
  lemma RefinementsComplete(names: seq<string>, read: string -> string,
                            llm: (string, string) -> Reply, ins: RefinementInstructions)
    ensures forall n :: n in names && !IsBlank(read(n)) && Produced(llm(RefinementPrompt(n, read(n), ins), ins.role)) ==>
                          Written(n, llm(RefinementPrompt(n, read(n), ins), ins.role).text) in Refinements(names, read, llm, ins)
    ensures forall w :: w in Refinements(names, read, llm, ins) ==>
      w.name in names && !IsBlank(read(w.name)) && RefinedFor(w.name, w, read, llm, ins)
  {
    RefinementsExactly(names, read, llm, ins);
    forall n | n in names && !IsBlank(read(n)) && Produced(llm(RefinementPrompt(n, read(n), ins), ins.role))
      ensures Written(n, llm(RefinementPrompt(n, read(n), ins), ins.role).text) in Refinements(names, read, llm, ins)
    {
      assert RefinedFor(n, Written(n, llm(RefinementPrompt(n, read(n), ins), ins.role).text), read, llm, ins);
    }
  }

  /** A test file the initial stage wrote is one the refinement stage reads back. */
  lemma InitialOutputIsRefined(files: seq<string>, read: string -> string, llm: (string, string) -> Reply,
                               ins: InitialInstructions, entries: seq<string>, w: Written)
    requires w in InitialWrites(files, read, llm, ins) && w.name in entries
    ensures w.name in TestSources(entries)
  {
    InitialWritesAreTests(files, read, llm, ins);
  }

  // ---------------------------------------------------------------------------
  // fix_build_issues and improve_coverage
  // ---------------------------------------------------------------------------

  /** What `fix_build_issues` does: the prompt it sends, if any, and its verdict. */
  datatype FixAttempt = FixAttempt(request: Option<string>, fixed: bool)

  /** `fix_build_issues`: without a configuration nothing is asked; otherwise the provider is
      asked about the build output and its answer only logged. Either way the verdict is False:
      no fix is ever applied. */
  function FixBuildIssues(config: Option<BuildFixInstructions>, buildOutput: string): (r: FixAttempt)
    ensures !r.fixed
    ensures r.request.Some? <==> config.Some?
  {
    if config.None? then FixAttempt(None, false)
    else FixAttempt(Some(BuildFixPrompt(buildOutput, config.value)), false)
  }

  /** The fix request quotes the whole build output. */
  lemma FixRequestQuotesBuildOutput(config: Option<BuildFixInstructions>, buildOutput: string)
    requires config.Some?
    ensures Contains(FixBuildIssues(config, buildOutput).request.value, "```\n" + buildOutput + "\n```")
  {
    BuildFixPromptSections(buildOutput, config.value);
  }

  /** What `improve_coverage` does: the text it saves as coverage_improvements.cpp, if any,
      and its verdict. */
  datatype CoverageAttempt = CoverageAttempt(improvements: Option<string>, ok: bool)

  /** `improve_coverage`: False without a configuration or when the provider raises; otherwise
      the answer, blank or not, is saved and the verdict is True. */
  function ImproveCoverage(config: Option<CoverageInstructions>, info: CoverageInfo,
                           llm: (string, string) -> Reply): (r: CoverageAttempt)
    ensures r.ok <==> r.improvements.Some?
    ensures r.ok <==> config.Some? && llm(CoverageImprovementPrompt(info, config.value), config.value.role).Answer?
    ensures r.ok ==> llm(CoverageImprovementPrompt(info, config.value), config.value.role) == Answer(r.improvements.value)
  {
    if config.None? then CoverageAttempt(None, false)
    else
      match llm(CoverageImprovementPrompt(info, config.value), config.value.role)
      case Answer(text) => CoverageAttempt(Some(text), true)
      case Raised => CoverageAttempt(None, false)
  }

  // ---------------------------------------------------------------------------
  // run_full_pipeline
  // ---------------------------------------------------------------------------

  /** How a stage call ends: it returns a value, or an exception escapes it. */
  datatype Outcome<T> = Returned(value: T) | Threw

  datatype Stage = Initial | Refine | Build | Fix | CoverageRun | Improve | Report

  /** The stages `run_full_pipeline` called, in order, and its verdict. */
  datatype PipelineRun = PipelineRun(trace: seq<Stage>, ok: bool)

  /** `run_full_pipeline`, given how each stage call ends. `fix` receives the build output and
      `improve` the coverage report, as in the source; every exception ends the pipeline with
      False. */
  function RunFullPipeline(initial: Outcome<bool>, refine: Outcome<bool>, build: Outcome<(bool, string)>,
                           fix: string -> Outcome<bool>, coverage: Outcome<CoverageInfo>,
                           improve: CoverageInfo -> Outcome<bool>, report: Outcome<string>): (r: PipelineRun)
    ensures |r.trace| > 0 && r.trace[0] == Initial
    ensures r.ok ==> r.trace[|r.trace| - 1] == Report
    ensures Fix in r.trace <==> Build in r.trace && build.Returned? && !build.value.0
    ensures Improve in r.trace <==> CoverageRun in r.trace && coverage.Returned? && coverage.value.Coverage?
    ensures Refine in r.trace <==> initial == Returned(true)
  {
    if initial != Returned(true) then PipelineRun([Initial], false)
    else if refine.Threw? then PipelineRun([Initial, Refine], false)
    else if build.Threw? then PipelineRun([Initial, Refine, Build], false)
    else
      var fixed := if build.value.0 then [] else [Fix];
      if !build.value.0 && fix(build.value.1).Threw? then PipelineRun([Initial, Refine, Build] + fixed, false)
      else if coverage.Threw? then PipelineRun([Initial, Refine, Build] + fixed + [CoverageRun], false)
      else
        var improved := if coverage.value.Coverage? then [Improve] else [];
        if coverage.value.Coverage? && improve(coverage.value).Threw? then
          PipelineRun([Initial, Refine, Build] + fixed + [CoverageRun] + improved, false)
        else PipelineRun([Initial, Refine, Build] + fixed + [CoverageRun] + improved + [Report], report.Returned?)
  }

  /** The pipeline fails exactly when initial generation fails or a stage call throws. */
  lemma PipelineVerdict(initial: Outcome<bool>, refine: Outcome<bool>, build: Outcome<(bool, string)>,
                        fix: string -> Outcome<bool>, coverage: Outcome<CoverageInfo>,
                        improve: CoverageInfo -> Outcome<bool>, report: Outcome<string>)
    ensures RunFullPipeline(initial, refine, build, fix, coverage, improve, report).ok <==>
      && initial == Returned(true)
      && refine.Returned? && build.Returned?
      && (build.value.0 || fix(build.value.1).Returned?)
      && coverage.Returned?
      && (coverage.value.NoCoverage? || improve(coverage.value).Returned?)
      && report.Returned?
  {
  }

  /** Refinement, build and fix results do not matter to the verdict, only whether they throw:
      a pipeline whose refinement and fix both fail still succeeds. */
  lemma PipelineToleratesStageFailures(refine1: Outcome<bool>, refine2: Outcome<bool>,
                                       build: Outcome<(bool, string)>,
                                       fix1: string -> Outcome<bool>, fix2: string -> Outcome<bool>,
                                       coverage: Outcome<CoverageInfo>,
                                       improve: CoverageInfo -> Outcome<bool>, report: Outcome<string>)
    requires refine1.Returned? <==> refine2.Returned?
    requires forall out :: fix1(out).Returned? <==> fix2(out).Returned?
    ensures RunFullPipeline(Returned(true), refine1, build, fix1, coverage, improve, report)
         == RunFullPipeline(Returned(true), refine2, build, fix2, coverage, improve, report)
  {
  }
}
