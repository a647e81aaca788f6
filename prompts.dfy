/** The four prompt builders of src/test_generator.py (`_create_initial_test_prompt`,
    `_create_refinement_prompt`, `_create_build_fix_prompt`,
    `_create_coverage_improvement_prompt`) and the two ways they render a list: one
    "- item" line per item, or numbered lines "1. item", "2. item", ...

    The `instructions` mapping of each YAML stage file is a record with the keys the
    builder reads. */
module Prompts {
  import opened Strings
  import opened Outcomes

  datatype InitialInstructions = InitialInstructions(
    role: string,
    objective: string,
    requirements: seq<string>,
    outputFormat: string,
    constraints: seq<string>,
    exampleStructure: string)

  datatype RefinementInstructions = RefinementInstructions(
    role: string,
    objective: string,
    refinementTasks: seq<string>,
    qualityChecks: seq<string>)

  datatype BuildFixInstructions = BuildFixInstructions(
    role: string,
    objective: string,
    analysisSteps: seq<string>,
    fixPriorities: seq<string>)

  datatype CoverageInstructions = CoverageInstructions(
    role: string,
    objective: string,
    coverageAnalysis: seq<string>,
    improvementStrategies: seq<string>)

  /** What `run_coverage_analysis` reports: nothing (an empty dict) when the test executable
      is missing or running it failed, otherwise the three entries it fills in. */
  datatype CoverageInfo =
    | NoCoverage
    | Coverage(testSuccess: bool, testOutput: string, testErrors: string)

  // ---------------------------------------------------------------------------
  // List rendering
  // ---------------------------------------------------------------------------

  /** The lines of `"\n".join(f"- {x}" for x in items)`. */
  function BulletLines(items: seq<string>): seq<string> {
    PrefixEach("- ", items)
  }

  function BulletList(items: seq<string>): string {
    Join(BulletLines(items), '\n')
  }

  /** The lines of `"\n".join(f"{i}. {p}" for i, p in enumerate(items, 1))`. */
  function NumberedLines(items: seq<string>): (r: seq<string>)
    ensures |r| == |items|
    ensures forall k :: 0 <= k < |r| ==> r[k] == NatToString(k + 1) + ". " + items[k]
  {
    seq(|items|, k requires 0 <= k < |items| => NatToString(k + 1) + ". " + items[k])
  }

  function NumberedList(items: seq<string>): string {
    Join(NumberedLines(items), '\n')
  }

  /** Reads one rendered bullet line back: the text after "- ". */
  function ParseBulletLine(line: string): Option<string> {
    if StartsWith(line, "- ") then Some(line[2..]) else None
  }

  /** The number of leading decimal digits of a line. */
  function DigitPrefixLength(s: string): (n: nat)
    ensures n <= |s|
    ensures forall i :: 0 <= i < n ==> IsDigit(s[i])
    ensures n < |s| ==> !IsDigit(s[n])
  {
    if s != [] && IsDigit(s[0]) then 1 + DigitPrefixLength(s[1..]) else 0
  }

  /** Reads one rendered numbered line back: its number and the text after ". ". */
  function ParseNumberedLine(line: string): Option<(int, string)> {
    var n := DigitPrefixLength(line);
    if n > 0 && StartsWith(line[n..], ". ") then Some((ParseNat(line[..n]), line[n + 2..])) else None
  }

  /** Each item of a bullet list is one line of the rendering, in the original order, and
      reading the lines back gives the items, as long as no item spans lines. */
  lemma BulletListRoundTrip(items: seq<string>)
    requires |items| > 0
    requires forall k :: 0 <= k < |items| ==> '\n' !in items[k]
    ensures Split(BulletList(items), '\n') == BulletLines(items)
    ensures forall k :: 0 <= k < |items| ==> ParseBulletLine(BulletLines(items)[k]) == Some(items[k])
  {
    forall k | 0 <= k < |items| ensures '\n' !in BulletLines(items)[k] {
      assert BulletLines(items)[k] == "- " + items[k];
    }
    SplitJoin(BulletLines(items), '\n');
    forall k | 0 <= k < |items| ensures ParseBulletLine(BulletLines(items)[k]) == Some(items[k]) {
      assert ("- " + items[k])[2..] == items[k];
    }
  }

  /** The digits of a rendered number stop at the ". " that follows them. */
  lemma DigitPrefixOfNumbered(n: nat, text: string)
    ensures DigitPrefixLength(NatToString(n) + ". " + text) == |NatToString(n)|
  {
    var line := NatToString(n) + ". " + text;
    DigitPrefixUpTo(line, |NatToString(n)|);
  }

  lemma {:induction false} DigitPrefixUpTo(s: string, m: nat)
    requires m < |s| && !IsDigit(s[m])
    requires forall i :: 0 <= i < m ==> IsDigit(s[i])
    ensures DigitPrefixLength(s) == m
  {
    if m > 0 {
      DigitPrefixUpTo(s[1..], m - 1);
    }
  }

  /** One numbered line reads back as its number and its item. */
  lemma NumberedLineParses(n: nat, item: string)
    ensures ParseNumberedLine(NatToString(n) + ". " + item) == Some((n, item))
  {
    DigitPrefixOfNumbered(n, item);
    ParseNumberedLineOf(NatToString(n), item);
    ParseNatToString(n);
  }

  /** A line made of digits, ". " and a text reads back as the digits' value and the text. */
  lemma ParseNumberedLineOf(digits: string, item: string)
    requires |digits| > 0 && forall i :: 0 <= i < |digits| ==> IsDigit(digits[i])
    requires DigitPrefixLength(digits + ". " + item) == |digits|
    ensures ParseNumberedLine(digits + ". " + item) == Some((ParseNat(digits), item))
  {
    var line := digits + ". " + item;
    var d := |digits|;
    assert line[d..] == ". " + item;
    assert line[..d] == digits;
    assert line[d + 2..] == item;
  }

  /** Numbered lines are numbered from 1 in the order of the items, and reading a line back
      gives its number and its item, as long as no item spans lines. */
  lemma NumberedListRoundTrip(items: seq<string>)
    requires |items| > 0
    requires forall k :: 0 <= k < |items| ==> '\n' !in items[k]
    ensures Split(NumberedList(items), '\n') == NumberedLines(items)
    ensures forall k :: 0 <= k < |items| ==> ParseNumberedLine(NumberedLines(items)[k]) == Some((k + 1, items[k]))
  {
    var lines := NumberedLines(items);
    forall k | 0 <= k < |items| ensures '\n' !in lines[k] {
      var digits := NatToString(k + 1);
      assert lines[k] == digits + (". " + items[k]);
      assert '\n' !in digits by {
        assert forall i :: 0 <= i < |digits| ==> IsDigit(digits[i]);
      }
    }
    SplitJoin(lines, '\n');
    forall k | 0 <= k < |items| ensures ParseNumberedLine(lines[k]) == Some((k + 1, items[k])) {
      NumberedLineParses(k + 1, items[k]);
    }
  }

  // ---------------------------------------------------------------------------
  // The prompts
  // ---------------------------------------------------------------------------

  /** A titled block of a prompt: a blank line, "Title:", its body, and the end of its line. */
  function Section(title: string, body: string): string {
    "\n" + title + ":\n" + body + "\n"
  }

  /** The closing request of each prompt. */
  const InitialClosing := "\nPlease generate comprehensive unit tests for this C++ file following the above requirements.\n"
  const RefinementClosing := " these unit tests according to the above requirements.\n"
  const BuildFixClosing := "\nPlease analyze the build errors and provide specific fixes following the response structure.\n"
  const CoverageClosing := "\nPlease generate additional test methods to improve coverage.\n"

  /** The pieces of `_create_initial_test_prompt`'s f-string. */
  function InitialTestPromptParts(fileName: string, sourceCode: string, ins: InitialInstructions): seq<string> {
    [ "\n" + ins.objective + "\n",
      "\nSource File: " + fileName + "\n",
      "Source Code:\n",
      "```cpp\n" + sourceCode + "\n```",
      "\n",
      Section("Requirements", BulletList(ins.requirements)),
      Section("Output Format", ins.outputFormat),
      Section("Constraints", BulletList(ins.constraints)),
      Section("Example Structure", ins.exampleStructure),
      InitialClosing ]
  }

  /** `_create_initial_test_prompt`. */
  function InitialTestPrompt(fileName: string, sourceCode: string, ins: InitialInstructions): string {
    Concat(InitialTestPromptParts(fileName, sourceCode, ins))
  }

  /** The pieces of `_create_refinement_prompt`'s f-string. */
  function RefinementPromptParts(testFileName: string, testContent: string, ins: RefinementInstructions): seq<string> {
    [ "\n" + ins.objective + "\n",
      "\nTest File: " + testFileName + "\n",
      "Current Test Content:\n",
      "```cpp\n" + testContent + "\n```",
      "\n",
      Section("Refinement Tasks", BulletList(ins.refinementTasks)),
      Section("Quality Checks", BulletList(ins.qualityChecks)),
      "\nPlease ",
      "refine",
      RefinementClosing ]
  }

  /** `_create_refinement_prompt`. */
  function RefinementPrompt(testFileName: string, testContent: string, ins: RefinementInstructions): string {
    Concat(RefinementPromptParts(testFileName, testContent, ins))
  }

  /** The pieces of `_create_build_fix_prompt`'s f-string. */
  function BuildFixPromptParts(buildOutput: string, ins: BuildFixInstructions): seq<string> {
    [ "\n" + ins.objective + "\n",
      "\nBuild Output/Errors:\n",
      "```\n" + buildOutput + "\n```",
      "\n",
      Section("Analysis Steps", BulletList(ins.analysisSteps)),
      Section("Fix Priorities", NumberedList(ins.fixPriorities)),
      BuildFixClosing ]
  }

  /** `_create_build_fix_prompt`. */
  function BuildFixPrompt(buildOutput: string, ins: BuildFixInstructions): string {
    Concat(BuildFixPromptParts(buildOutput, ins))
  }

  /** Python's `str(b)` for a boolean. */
  function PyBool(b: bool): string {
    if b then "True" else "False"
  }

  /** The three coverage lines of the coverage prompt. */
  function CoverageReport(success: string, output: string, errors: string): string {
    "- Test Success: " + success + "\n- Test Output: " + output + "\n- Test Errors: " + errors + "\n"
  }

  /** The coverage lines, read with `dict.get`: an empty report renders the defaults. */
  function CoverageLines(info: CoverageInfo): string {
    match info
    case Coverage(success, output, errors) => CoverageReport(PyBool(success), output, errors)
    case NoCoverage => CoverageReport("False", "No output", "No errors")
  }

  /** The pieces of `_create_coverage_improvement_prompt`'s f-string. */
  function CoverageImprovementPromptParts(info: CoverageInfo, ins: CoverageInstructions): seq<string> {
    [ "\n" + ins.objective + "\n",
      "\nCurrent Coverage Information:\n",
      CoverageLines(info),
      Section("Coverage Analysis Tasks", BulletList(ins.coverageAnalysis)),
      Section("Improvement Strategies", BulletList(ins.improvementStrategies)),
      CoverageClosing ]
  }

  /** `_create_coverage_improvement_prompt`. */
  function CoverageImprovementPrompt(info: CoverageInfo, ins: CoverageInstructions): string {
    Concat(CoverageImprovementPromptParts(info, ins))
  }

  /** The initial prompt names the source file on a line of its own, quotes the whole source
      in a C++ fence, and has the requirements and the constraints as bullet sections. */
  lemma InitialTestPromptSections(fileName: string, sourceCode: string, ins: InitialInstructions)
    ensures Contains(InitialTestPrompt(fileName, sourceCode, ins), "\nSource File: " + fileName + "\n")
    ensures Contains(InitialTestPrompt(fileName, sourceCode, ins), "```cpp\n" + sourceCode + "\n```")
    ensures Contains(InitialTestPrompt(fileName, sourceCode, ins), Section("Requirements", BulletList(ins.requirements)))
    ensures Contains(InitialTestPrompt(fileName, sourceCode, ins), Section("Constraints", BulletList(ins.constraints)))
  {
    var parts := InitialTestPromptParts(fileName, sourceCode, ins);
    ConcatContainsPart(parts, 1);
    ConcatContainsPart(parts, 3);
    ConcatContainsPart(parts, 5);
    ConcatContainsPart(parts, 7);
  }

  /** The refinement prompt names the test file, quotes its content, has the refinement tasks
      and the quality checks as bullet sections, and asks to "refine" the tests. */
  lemma RefinementPromptSections(testFileName: string, testContent: string, ins: RefinementInstructions)
    ensures Contains(RefinementPrompt(testFileName, testContent, ins), "\nTest File: " + testFileName + "\n")
    ensures Contains(RefinementPrompt(testFileName, testContent, ins), "```cpp\n" + testContent + "\n```")
    ensures Contains(RefinementPrompt(testFileName, testContent, ins), Section("Refinement Tasks", BulletList(ins.refinementTasks)))
    ensures Contains(RefinementPrompt(testFileName, testContent, ins), Section("Quality Checks", BulletList(ins.qualityChecks)))
    ensures Contains(RefinementPrompt(testFileName, testContent, ins), "refine")
  {
    var parts := RefinementPromptParts(testFileName, testContent, ins);
    ConcatContainsPart(parts, 1);
    ConcatContainsPart(parts, 3);
    ConcatContainsPart(parts, 5);
    ConcatContainsPart(parts, 6);
    ConcatContainsPart(parts, 8);
  }

  /** The build-fix prompt quotes the build output in a fence, has the analysis steps as a
      bullet section and the fix priorities as a numbered section. */
  lemma BuildFixPromptSections(buildOutput: string, ins: BuildFixInstructions)
    ensures Contains(BuildFixPrompt(buildOutput, ins), "```\n" + buildOutput + "\n```")
    ensures Contains(BuildFixPrompt(buildOutput, ins), Section("Analysis Steps", BulletList(ins.analysisSteps)))
    ensures Contains(BuildFixPrompt(buildOutput, ins), Section("Fix Priorities", NumberedList(ins.fixPriorities)))
  {
    var parts := BuildFixPromptParts(buildOutput, ins);
    ConcatContainsPart(parts, 2);
    ConcatContainsPart(parts, 4);
    ConcatContainsPart(parts, 5);
  }

  /** The coverage prompt reports the three coverage entries, each with its default when the
      report is empty, and has the analysis tasks and the strategies as bullet sections. */
  lemma CoverageImprovementPromptSections(info: CoverageInfo, ins: CoverageInstructions)
    ensures info.Coverage? ==> Contains(CoverageImprovementPrompt(info, ins),
      CoverageReport(PyBool(info.testSuccess), info.testOutput, info.testErrors))
    ensures info.NoCoverage? ==> Contains(CoverageImprovementPrompt(info, ins),
      CoverageReport("False", "No output", "No errors"))
    ensures Contains(CoverageImprovementPrompt(info, ins), Section("Coverage Analysis Tasks", BulletList(ins.coverageAnalysis)))
    ensures Contains(CoverageImprovementPrompt(info, ins), Section("Improvement Strategies", BulletList(ins.improvementStrategies)))
  {
    var parts := CoverageImprovementPromptParts(info, ins);
    ConcatContainsPart(parts, 2);
    ConcatContainsPart(parts, 3);
    ConcatContainsPart(parts, 4);
  }
}
