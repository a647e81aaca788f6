/** `MockLLMProvider.generate_response` of demo.py: the demo's stand-in for a model. It
    answers with one of eight canned texts, chosen by the first marker found in the prompt:
    the checks for files and models look at the prompt as written, the checks for stages at
    the lower-cased prompt.

    The canned texts are fixed C++ and prose; the model names them rather than copying them. */
module MockProvider {
  import opened Strings
  import opened Prompts
  import opened Dispatch

  /** The canned answer, named after the method of demo.py that returns it. */
  datatype MockAnswer =
    | MainTest             // _generate_main_test
    | ControllerTest       // _generate_controller_test
    | PersonTest           // _generate_person_test
    | DepartmentTest       // _generate_department_test
    | RefinementResponse   // _generate_refinement_response
    | BuildFix             // _generate_build_fix
    | CoverageImprovement  // _generate_coverage_improvement
    | GenericMockTest      // _generate_generic_test

  /** `generate_response`. The system prompt is accepted and ignored. The if/elif chain is
      the ordered first-match dispatch over the rule table, with the generic test as the
      fallback. */
  function MockResponse(prompt: string, systemPrompt: string): (r: MockAnswer)
    ensures r == FirstMatch(MockRules, prompt, GenericMockTest)
  {
    MockRulesFire(prompt);
    if Contains(prompt, "test_main.cpp") || Contains(prompt, "main.cc") then MainTest
    else if Contains(prompt, "PersonsController") then ControllerTest
    else if Contains(prompt, "Person.h") || Contains(prompt, "Person model") then PersonTest
    else if Contains(prompt, "Department") then DepartmentTest
    else if Contains(Lower(prompt), "refinement") || Contains(Lower(prompt), "refine") then RefinementResponse
    else if Contains(Lower(prompt), "build") || Contains(Lower(prompt), "error") then BuildFix
    else if Contains(Lower(prompt), "coverage") then CoverageImprovement
    else GenericMockTest
  }

  /** The rules of `generate_response`, in the order they are tried. */
  const MockRules: seq<Rule<MockAnswer>> := [
    Rule(["test_main.cpp", "main.cc"], false, MainTest),
    Rule(["PersonsController"], false, ControllerTest),
    Rule(["Person.h", "Person model"], false, PersonTest),
    Rule(["Department"], false, DepartmentTest),
    Rule(["refinement", "refine"], true, RefinementResponse),
    Rule(["build", "error"], true, BuildFix),
    Rule(["coverage"], true, CoverageImprovement)
  ]

  /** When each rule of the table fires: the first four on the prompt as written, the last
      three on the lower-cased prompt. */
  lemma MockRulesFire(prompt: string)
    ensures |MockRules| == 7
    ensures Fires(MockRules[0], prompt) <==> Contains(prompt, "test_main.cpp") || Contains(prompt, "main.cc")
    ensures Fires(MockRules[1], prompt) <==> Contains(prompt, "PersonsController")
    ensures Fires(MockRules[2], prompt) <==> Contains(prompt, "Person.h") || Contains(prompt, "Person model")
    ensures Fires(MockRules[3], prompt) <==> Contains(prompt, "Department")
    ensures Fires(MockRules[4], prompt) <==> Contains(Lower(prompt), "refinement") || Contains(Lower(prompt), "refine")
    ensures Fires(MockRules[5], prompt) <==> Contains(Lower(prompt), "build") || Contains(Lower(prompt), "error")
    ensures Fires(MockRules[6], prompt) <==> Contains(Lower(prompt), "coverage")
  {
    assert Fires(MockRules[1], prompt) <==> Contains(prompt, MockRules[1].markers[0]);
    assert Fires(MockRules[3], prompt) <==> Contains(prompt, MockRules[3].markers[0]);
    assert Fires(MockRules[6], prompt) <==> Contains(Lower(prompt), MockRules[6].markers[0]);
    assert Fires(MockRules[0], prompt) <==> Contains(prompt, MockRules[0].markers[0]) || Contains(prompt, MockRules[0].markers[1]);
    assert Fires(MockRules[2], prompt) <==> Contains(prompt, MockRules[2].markers[0]) || Contains(prompt, MockRules[2].markers[1]);
    assert Fires(MockRules[4], prompt) <==> Contains(Lower(prompt), MockRules[4].markers[0]) || Contains(Lower(prompt), MockRules[4].markers[1]);
    assert Fires(MockRules[5], prompt) <==> Contains(Lower(prompt), MockRules[5].markers[0]) || Contains(Lower(prompt), MockRules[5].markers[1]);
  }

  /** A prompt about the main program gets the main-program test, whatever else it says. */
  lemma MainProgramWins(prompt: string, systemPrompt: string)
    requires Contains(prompt, "test_main.cpp") || Contains(prompt, "main.cc")
    ensures MockResponse(prompt, systemPrompt) == MainTest
  {
  }

  /** "PersonsController" is tried before the Person model and Department checks, so a
      prompt naming the controller gets the controller test even when it also names them. */
  lemma ControllerBeforeModels(prompt: string, systemPrompt: string)
    requires Contains(prompt, "PersonsController")
    requires !Contains(prompt, "test_main.cpp") && !Contains(prompt, "main.cc")
    ensures MockResponse(prompt, systemPrompt) == ControllerTest
  {
  }

  /** The refinement check needs only "refine": "refinement" holds it. */
  lemma RefineSuffices(prompt: string)
    ensures Contains(Lower(prompt), "refinement") || Contains(Lower(prompt), "refine")
        <==> Contains(Lower(prompt), "refine")
  {
    if Contains(Lower(prompt), "refinement") {
      assert OccursAt("refinement", "refine", 0);
      ContainsTransitive(Lower(prompt), "refinement", "refine");
    }
  }

  /** The stage checks ignore case: a prompt that says "REFINE", and names no file or model
      the earlier checks look for, gets the refinement answer. The file and model checks do
      not: "personscontroller" is not "PersonsController". */
  lemma StageChecksIgnoreCase(prompt: string, systemPrompt: string)
    requires Contains(prompt, "REFINE")
    requires !Contains(prompt, "test_main.cpp") && !Contains(prompt, "main.cc")
    requires !Contains(prompt, "PersonsController") && !Contains(prompt, "Person.h")
    requires !Contains(prompt, "Person model") && !Contains(prompt, "Department")
    ensures MockResponse(prompt, systemPrompt) == RefinementResponse
  {
    ContainsLowered(prompt, "REFINE");
    assert Lower("REFINE") == "refine";
  }

  /** The refinement prompt always says "refine", so the mock never answers it with the build
      fix, the coverage text or the generic test. */
  lemma RefinementPromptGetsRefinement(testFileName: string, testContent: string, ins: RefinementInstructions,
                                       systemPrompt: string)
    ensures MockResponse(RefinementPrompt(testFileName, testContent, ins), systemPrompt)
      in {MainTest, ControllerTest, PersonTest, DepartmentTest, RefinementResponse}
  {
    var prompt := RefinementPrompt(testFileName, testContent, ins);
    RefinementPromptSections(testFileName, testContent, ins);
    ContainsLowered(prompt, "refine");
    assert Lower("refine") == "refine";
  }

  /** The coverage prompt always has a "- Test Errors:" line, and "error" is checked before
      "coverage": the mock answers a coverage prompt with the build fix (or an earlier rule),
      never with the coverage improvement. */
  lemma CoveragePromptNeverGetsCoverageAnswer(info: CoverageInfo, ins: CoverageInstructions, systemPrompt: string)
    ensures MockResponse(CoverageImprovementPrompt(info, ins), systemPrompt) != CoverageImprovement
  {
    CoveragePromptSaysError(info, ins);
    ErrorPreemptsCoverage(CoverageImprovementPrompt(info, ins), systemPrompt);
  }

  /** A prompt whose lower-cased text holds "error" never gets the coverage answer. */
  lemma ErrorPreemptsCoverage(prompt: string, systemPrompt: string)
    requires Contains(Lower(prompt), "error")
    ensures MockResponse(prompt, systemPrompt) != CoverageImprovement
  {
  }

  /** The lower-cased coverage prompt holds "error", from its "- Test Errors:" line. */
  lemma CoveragePromptSaysError(info: CoverageInfo, ins: CoverageInstructions)
    ensures Contains(Lower(CoverageImprovementPrompt(info, ins)), "error")
  {
    var prompt := CoverageImprovementPrompt(info, ins);
    CoverageImprovementPromptSections(info, ins);
    match info
    case Coverage(success, output, errors) =>
      ReportHoldsErrors(PyBool(success), output, errors);
      LowerHoldsError(prompt, CoverageReport(PyBool(success), output, errors));
    case NoCoverage =>
      ReportHoldsErrors("False", "No output", "No errors");
      LowerHoldsError(prompt, CoverageReport("False", "No output", "No errors"));
  }

  /** A text holding a part that says "Error" says "error" once lower-cased. */
  lemma LowerHoldsError(text: string, part: string)
    requires Contains(text, part) && Contains(part, "Error")
    ensures Contains(Lower(text), "error")
  {
    ContainsTransitive(text, part, "Error");
    ContainsLowered(text, "Error");
    assert Lower("Error") == "error";
  }

  /** The "- Test Errors:" line holds "Error". */
  lemma ReportHoldsErrors(success: string, output: string, errors: string)
    ensures Contains(CoverageReport(success, output, errors), "Error")
  {
    var head := "- Test Success: " + success + "\n- Test Output: " + output;
    assert CoverageReport(success, output, errors) == head + "\n- Test Errors: " + (errors + "\n");
    ContainsInfix(head, "\n- Test Errors: ", errors + "\n");
    assert OccursAt("\n- Test Errors: ", "Error", 8);
    ContainsTransitive(CoverageReport(success, output, errors), "\n- Test Errors: ", "Error");
  }
}
