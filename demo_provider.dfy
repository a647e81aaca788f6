/** `DemoProvider` of src/demo_provider.py: it answers every prompt with a canned C++ test
    chosen by the file name it finds in the prompt, and falls back to a generic test built
    from that name.

    The canned tests for the six known files of the sample project are fixed texts; the model
    names them rather than copying them. The generic test is rendered in full. */
module DemoProvider {
  import opened Strings
  import opened Discovery
  import opened Prompts
  import opened Dispatch

  // ---------------------------------------------------------------------------
  // _extract_filename
  // ---------------------------------------------------------------------------

  /** A line `_extract_filename` takes as the file name. */
  predicate MentionsFile(line: string) {
    Contains(line, "File:") || Contains(line, "filename:") || Contains(line, ".h")
    || Contains(line, ".cpp") || Contains(line, ".cc")
  }

  /** The index of the first line that mentions a file, or the number of lines. */
  function FirstMention(lines: seq<string>): (k: nat)
    ensures k <= |lines|
    ensures forall j :: 0 <= j < k ==> !MentionsFile(lines[j])
    ensures k < |lines| ==> MentionsFile(lines[k])
  {
    if lines == [] then 0
    else if MentionsFile(lines[0]) then 0
    else 1 + FirstMention(lines[1..])
  }

  const UnknownFile := "unknown_file"

  /** The fallback name mentions no file: it holds neither ':' nor '.'. */
  lemma UnknownFileMentionsNothing()
    ensures !MentionsFile(UnknownFile)
  {
    assert ':' !in UnknownFile && '.' !in UnknownFile;
    if Contains(UnknownFile, "File:") { ContainsChar(UnknownFile, "File:", 4); }
    if Contains(UnknownFile, "filename:") { ContainsChar(UnknownFile, "filename:", 8); }
    if Contains(UnknownFile, ".h") { ContainsChar(UnknownFile, ".h", 0); }
    if Contains(UnknownFile, ".cpp") { ContainsChar(UnknownFile, ".cpp", 0); }
    if Contains(UnknownFile, ".cc") { ContainsChar(UnknownFile, ".cc", 0); }
  }

  /** `_extract_filename`: the first line of the prompt that mentions a file, whole, or
      "unknown_file". The result mentions a file exactly when some line of the prompt does,
      and then it is one of the prompt's lines. */
  function ExtractFilename(prompt: string): (r: string)
    ensures MentionsFile(r) <==> exists line | line in Split(prompt, '\n') :: MentionsFile(line)
    ensures MentionsFile(r) ==> r in Split(prompt, '\n')
    ensures !MentionsFile(r) ==> r == UnknownFile
  {
    UnknownFileMentionsNothing();
    var lines := Split(prompt, '\n');
    var k := FirstMention(lines);
    if k < |lines| then lines[k] else UnknownFile
  }

  /** The line taken is the first one that mentions a file. */
  lemma ExtractFilenameIsFirst(prompt: string, k: nat)
    requires k < |Split(prompt, '\n')| && MentionsFile(Split(prompt, '\n')[k])
    requires forall j :: 0 <= j < k ==> !MentionsFile(Split(prompt, '\n')[j])
    ensures ExtractFilename(prompt) == Split(prompt, '\n')[k]
  {
    FirstMentionIs(Split(prompt, '\n'), k);
  }

  lemma FirstMentionIs(lines: seq<string>, k: nat)
    requires k < |lines| && MentionsFile(lines[k])
    requires forall j :: 0 <= j < k ==> !MentionsFile(lines[j])
    ensures FirstMention(lines) == k
  {
  }

  /** On the generator's initial prompt, the demo takes the whole "Source File: <name>" line
      as the file name, as long as the objective is one line that mentions no file. */
  lemma ExtractFilenameOfInitialPrompt(name: string, sourceCode: string, ins: InitialInstructions)
    requires '\n' !in ins.objective && !MentionsFile(ins.objective) && '\n' !in name
    ensures ExtractFilename(InitialTestPrompt(name, sourceCode, ins)) == "Source File: " + name
  {
    var line := "Source File: " + name;
    var rest := InitialPromptHead(name, sourceCode, ins);
    assert '\n' !in line;
    LeadingLines(ins.objective, line, rest);
    NothingInEmptyLine();
    assert Contains(line, "File:") by {
      assert OccursAt(line, "File:", 7);
    }
    ExtractFilenameIsFirst(InitialTestPrompt(name, sourceCode, ins), 3);
  }

  /** The initial prompt opens with an empty line, the objective, an empty line and the
      "Source File:" line. */
  lemma InitialPromptHead(name: string, sourceCode: string, ins: InitialInstructions) returns (rest: string)
    ensures InitialTestPrompt(name, sourceCode, ins)
      == [] + ['\n'] + (ins.objective + ['\n'] + ([] + ['\n'] + (("Source File: " + name) + ['\n'] + rest)))
  {
    var parts := InitialTestPromptParts(name, sourceCode, ins);
    rest := Concat(parts[2..]);
    ConcatFirstTwo(parts);
    var line := "Source File: " + name;
    assert parts[1] == "\n" + line + "\n";
    TwoLinesRegrouped(ins.objective, line, rest);
  }

  /** Two lines, each after a line break, regrouped the way `Split` takes a text apart. */
  lemma TwoLinesRegrouped(a: string, b: string, rest: string)
    ensures ("\n" + a + "\n") + (("\n" + b + "\n") + rest)
      == [] + ['\n'] + (a + ['\n'] + ([] + ['\n'] + (b + ['\n'] + rest)))
  {
  }

  /** The first four lines of a text made of an empty line, a line `a`, an empty line and a
      line `b`. */
  lemma LeadingLines(a: string, b: string, rest: string)
    requires '\n' !in a && '\n' !in b
    ensures var lines := Split([] + ['\n'] + (a + ['\n'] + ([] + ['\n'] + (b + ['\n'] + rest))), '\n');
      |lines| > 3 && lines[0] == "" && lines[1] == a && lines[2] == "" && lines[3] == b
  {
    var tail := b + ['\n'] + rest;
    var fromBlank := [] + ['\n'] + tail;
    var fromA := a + ['\n'] + fromBlank;
    SplitConcat([], fromA, '\n');
    SplitConcat(a, fromBlank, '\n');
    SplitConcat([], tail, '\n');
    SplitConcat(b, rest, '\n');
    SplitWithoutSep(a, '\n');
    SplitWithoutSep(b, '\n');
    assert Split([], '\n') == [""];
  }

  lemma NothingInEmptyLine()
    ensures !MentionsFile("")
  {
  }

  // ---------------------------------------------------------------------------
  // generate_response
  // ---------------------------------------------------------------------------

  /** The test `generate_response` answers with. */
  datatype DemoTest =
    | AuthControllerTest
    | PersonsControllerTest
    | DepartmentsControllerTest
    | PersonModelTest
    | DepartmentModelTest
    | LoginFilterTest
    | GenericTest(filename: string)

  /** The if/elif chain on the extracted file name. */
  function ChooseTest(filename: string): (t: DemoTest)
    ensures t.GenericTest? ==> t.filename == filename
  {
    if Contains(filename, "AuthController") then AuthControllerTest
    else if Contains(filename, "PersonsController") then PersonsControllerTest
    else if Contains(filename, "DepartmentsController") then DepartmentsControllerTest
    else if Contains(filename, "Person.h") || Contains(filename, "Person.cc") then PersonModelTest
    else if Contains(filename, "Department") then DepartmentModelTest
    else if Contains(filename, "LoginFilter") then LoginFilterTest
    else GenericTest(filename)
  }

  /** `generate_response`. The system prompt is accepted and ignored. */
  function GenerateResponse(prompt: string, systemPrompt: string): (r: DemoTest)
    ensures r == FirstMatch(DemoRules, ExtractFilename(prompt), GenericTest(ExtractFilename(prompt)))
  {
    ChooseTestIsFirstMatch(ExtractFilename(prompt));
    ChooseTest(ExtractFilename(prompt))
  }

  /** The rules of `generate_response`, in the order they are tried. */
  const DemoRules: seq<Rule<DemoTest>> := [
    Rule(["AuthController"], false, AuthControllerTest),
    Rule(["PersonsController"], false, PersonsControllerTest),
    Rule(["DepartmentsController"], false, DepartmentsControllerTest),
    Rule(["Person.h", "Person.cc"], false, PersonModelTest),
    Rule(["Department"], false, DepartmentModelTest),
    Rule(["LoginFilter"], false, LoginFilterTest)
  ]

  /** The if/elif chain is the ordered first-match dispatch over the rule table, with the
      generic test as the fallback: exactly one branch answers. */
  lemma ChooseTestIsFirstMatch(filename: string)
    ensures ChooseTest(filename) == FirstMatch(DemoRules, filename, GenericTest(filename))
  {
    var rules := DemoRules;
    DemoRulesFire(filename);
    if Contains(filename, "AuthController") {
      FirstMatchIs(rules, filename, GenericTest(filename), 0);
    } else if Contains(filename, "PersonsController") {
      FirstMatchIs(rules, filename, GenericTest(filename), 1);
    } else if Contains(filename, "DepartmentsController") {
      FirstMatchIs(rules, filename, GenericTest(filename), 2);
    } else if Contains(filename, "Person.h") || Contains(filename, "Person.cc") {
      FirstMatchIs(rules, filename, GenericTest(filename), 3);
    } else if Contains(filename, "Department") {
      FirstMatchIs(rules, filename, GenericTest(filename), 4);
    } else if Contains(filename, "LoginFilter") {
      FirstMatchIs(rules, filename, GenericTest(filename), 5);
    } else {
      FirstMatchOtherwise(rules, filename, GenericTest(filename));
    }
  }

  /** When each rule of the table fires. */
  lemma DemoRulesFire(filename: string)
    ensures |DemoRules| == 6
    ensures Fires(DemoRules[0], filename) <==> Contains(filename, "AuthController")
    ensures Fires(DemoRules[1], filename) <==> Contains(filename, "PersonsController")
    ensures Fires(DemoRules[2], filename) <==> Contains(filename, "DepartmentsController")
    ensures Fires(DemoRules[3], filename) <==> Contains(filename, "Person.h") || Contains(filename, "Person.cc")
    ensures Fires(DemoRules[4], filename) <==> Contains(filename, "Department")
    ensures Fires(DemoRules[5], filename) <==> Contains(filename, "LoginFilter")
  {
    FiresOne(DemoRules[0], filename);
    FiresOne(DemoRules[1], filename);
    FiresOne(DemoRules[2], filename);
    FiresTwo(DemoRules[3], filename);
    FiresOne(DemoRules[4], filename);
    FiresOne(DemoRules[5], filename);
  }

  /** A rule with one marker, on the text as it is, fires when the marker occurs. */
  lemma FiresOne<T>(rule: Rule<T>, text: string)
    requires !rule.lowered && |rule.markers| == 1
    ensures Fires(rule, text) <==> Contains(text, rule.markers[0])
  {
  }

  /** A rule with two markers, on the text as it is, fires when either occurs. */
  lemma FiresTwo<T>(rule: Rule<T>, text: string)
    requires !rule.lowered && |rule.markers| == 2
    ensures Fires(rule, text) <==> Contains(text, rule.markers[0]) || Contains(text, rule.markers[1])
  {
  }

  /** A departments controller never gets the Department model's test, although its name
      holds "Department": the controller rule is tried first. */
  lemma DepartmentsControllerIsNotTheModel(filename: string)
    requires Contains(filename, "DepartmentsController")
    ensures ChooseTest(filename) != DepartmentModelTest
    ensures !Contains(filename, "AuthController") && !Contains(filename, "PersonsController") ==>
      ChooseTest(filename) == DepartmentsControllerTest
  {
  }

  /** The answer depends on the prompt alone. */
  lemma ResponseIgnoresSystemPrompt(prompt: string, system1: string, system2: string)
    ensures GenerateResponse(prompt, system1) == GenerateResponse(prompt, system2)
  {
  }

  // ---------------------------------------------------------------------------
  // _generate_generic_test
  // ---------------------------------------------------------------------------

  /** `filename.split('/')[-1].replace('.h', '').replace('.cc', '').replace('.cpp', '')`. */
  function GenericClassName(filename: string): (r: string)
    ensures '/' !in r
    ensures forall c :: c in r ==> c in LastPiece(filename, '/')
    ensures |r| <= |LastPiece(filename, '/')|
    ensures var base := LastPiece(filename, '/');
      !Contains(base, ".h") && !Contains(base, ".cc") && !Contains(base, ".cpp") ==> r == base
    ensures Contains(LastPiece(filename, '/'), ".h") ==> |r| < |LastPiece(filename, '/')|
  {
    var base := LastPiece(filename, '/');
    SplitPiece(filename, '/', |Split(filename, '/')| - 1);
    RemoveExtensions(base)
  }

  /** The three removals, in order. */
  function RemoveExtensions(s: string): (r: string)
    ensures forall c :: c in r ==> c in s
    ensures |r| <= |s|
    ensures !Contains(s, ".h") && !Contains(s, ".cc") && !Contains(s, ".cpp") ==> r == s
    ensures Contains(s, ".h") ==> |r| < |s|
  {
    RemoveAll(RemoveAll(RemoveAll(s, ".h"), ".cc"), ".cpp")
  }

  /** A text without '.' is kept as it is in front of whatever the removals do to the rest. */
  lemma RemoveExtensionsPrefix(x: string, t: string)
    requires '.' !in x
    ensures RemoveExtensions(x + t) == x + RemoveExtensions(t)
  {
    RemoveAllPrefix(x, t, ".h");
    RemoveAllPrefix(x, RemoveAll(t, ".h"), ".cc");
    RemoveAllPrefix(x, RemoveAll(RemoveAll(t, ".h"), ".cc"), ".cpp");
  }

  /** What is left of each of the eight extensions: ".h", ".cc" and ".cpp" go away whole,
      ".hpp", ".hxx" and ".h++" lose their ".h" only, and ".cxx" and ".c++" stay. */
  function ClassNameResidue(ext: string): string {
    if ext == ".hpp" then "pp"
    else if ext == ".hxx" then "xx"
    else if ext == ".h++" then "++"
    else if ext == ".cxx" || ext == ".c++" then ext
    else ""
  }

  lemma RemoveExtensionsOfExtension(ext: string)
    requires ext in Extensions
    ensures RemoveExtensions(ext) == ClassNameResidue(ext)
  {
    if ext == ".h" {
      RemoveAllSuffix("", ".h");
      assert RemoveAll("", ".cc") == "";
    } else if ext == ".cc" {
      RemoveExtensionsOfCc();
    } else if ext == ".cpp" {
      RemoveExtensionsOfCpp();
    } else if ext == ".cxx" || ext == ".c++" {
      RemoveExtensionsKeep(ext);
    } else {
      RemoveExtensionsOfHeader(ext);
    }
  }

  lemma RemoveExtensionsOfCc()
    ensures RemoveExtensions(".cc") == ""
  {
    RemoveAllMiss(".cc", ".h", 1);
    RemoveAllAbsent("cc", ".h");
    assert ['.'] + "cc" == ".cc";
    RemoveAllSuffix("", ".cc");
    assert "" + ".cc" == ".cc";
  }

  lemma RemoveExtensionsOfCpp()
    ensures RemoveExtensions(".cpp") == ""
  {
    RemoveAllMiss(".cpp", ".h", 1);
    RemoveAllAbsent("cpp", ".h");
    assert ['.'] + "cpp" == ".cpp";
    RemoveAllMiss(".cpp", ".cc", 2);
    RemoveAllAbsent("cpp", ".cc");
    RemoveAllSuffix("", ".cpp");
    assert "" + ".cpp" == ".cpp";
  }

  lemma RemoveExtensionsKeep(ext: string)
    requires ext == ".cxx" || ext == ".c++"
    ensures RemoveExtensions(ext) == ext
  {
    assert ext == ['.'] + ext[1..];
    assert '.' !in ext[1..];
    RemoveAllMiss(ext, ".h", 1);
    RemoveAllAbsent(ext[1..], ".h");
    RemoveAllMiss(ext, ".cc", 2);
    RemoveAllAbsent(ext[1..], ".cc");
    RemoveAllMiss(ext, ".cpp", 2);
    RemoveAllAbsent(ext[1..], ".cpp");
  }

  lemma RemoveExtensionsOfHeader(ext: string)
    requires ext == ".hpp" || ext == ".hxx" || ext == ".h++"
    ensures RemoveExtensions(ext) == ext[2..]
  {
    assert ext[..2] == ".h";
    assert '.' !in ext[2..];
    RemoveAllAbsent(ext[2..], ".h");
    RemoveAllAbsent(ext[2..], ".cc");
    RemoveAllAbsent(ext[2..], ".cpp");
  }

  /** For a file `dir/x.ext` whose stem has no '.', the class name is the stem followed by
      what the removals leave of the extension: `Person.h` gives `Person`, but `Person.hpp`
      gives `Personpp` and `Person.cxx` keeps its extension. */
  lemma GenericClassNameOfSource(dir: string, x: string, ext: string)
    requires ext in Extensions && '/' !in x && '.' !in x
    ensures GenericClassName(dir + "/" + x + ext) == x + ClassNameResidue(ext)
  {
    assert '/' !in ext;
    NameOfJoined(dir, x + ext);
    assert dir + "/" + x + ext == dir + "/" + (x + ext);
    RemoveExtensionsPrefix(x, ext);
    RemoveExtensionsOfExtension(ext);
  }

  /** The fixture class of the generic test. */
  function Fixture(filename: string): string {
    GenericClassName(filename) + "Test"
  }

  /** The fixed bodies of the generic test: the fixture's members and the two test cases. */
  const FixtureBody := "\nprotected:\n    void SetUp() override {\n        // Setup test fixtures\n    }\n    \n"
    + "    void TearDown() override {\n        // Cleanup\n    }\n};\n\n"
  const ConstructorTestBody := " {\n    // Test constructor\n    EXPECT_TRUE(true); // Placeholder test\n}\n\n"
  const BasicTestBody := " {\n    // Test basic functionality\n    EXPECT_TRUE(true); // Placeholder test\n}"

  /** The pieces of the generic test's f-string. */
  function GenericTestParts(filename: string): seq<string> {
    var fixture := Fixture(filename);
    [ "#include <gtest/gtest.h>\n",
      "#include \"" + filename + "\"",
      "\n\n",
      "class " + fixture + " : public ::testing::Test {",
      FixtureBody,
      "TEST_F(" + fixture + ", Constructor_InitializesCorrectly)",
      ConstructorTestBody,
      "TEST_F(" + fixture + ", BasicFunctionality_WorksAsExpected)",
      BasicTestBody ]
  }

  /** `_generate_generic_test`. */
  function GenericTestText(filename: string): string {
    Concat(GenericTestParts(filename))
  }

  /** The generic test includes the file by the name it was given, declares the fixture
      `<class>Test`, and both of its test cases use that fixture. */
  lemma GenericTestShape(filename: string)
    ensures Contains(GenericTestText(filename), "#include \"" + filename + "\"")
    ensures Contains(GenericTestText(filename), "class " + Fixture(filename) + " : public ::testing::Test {")
    ensures Contains(GenericTestText(filename), "TEST_F(" + Fixture(filename) + ", Constructor_InitializesCorrectly)")
    ensures Contains(GenericTestText(filename), "TEST_F(" + Fixture(filename) + ", BasicFunctionality_WorksAsExpected)")
  {
    var parts := GenericTestParts(filename);
    ConcatContainsPart(parts, 1);
    ConcatContainsPart(parts, 3);
    ConcatContainsPart(parts, 5);
    ConcatContainsPart(parts, 7);
  }

  /** What the demo answers to the generator's initial prompt for a source `x.ext`: the test
      chosen by the whole "Source File: x.ext" line, and, when that is the generic test, a
      fixture named after the whole line ("Source File: x" followed by what is left of the
      extension), not after the class. */
  lemma DemoAnswerToInitialPrompt(x: string, ext: string, sourceCode: string, ins: InitialInstructions,
                                  systemPrompt: string)
    requires ext in Extensions && '/' !in x && '.' !in x && '\n' !in x
    requires '\n' !in ins.objective && !MentionsFile(ins.objective)
    ensures GenerateResponse(InitialTestPrompt(x + ext, sourceCode, ins), systemPrompt)
      == ChooseTest("Source File: " + x + ext)
    ensures GenericClassName("Source File: " + x + ext) == "Source File: " + x + ClassNameResidue(ext)
  {
    assert '\n' !in ext && '/' !in ext;
    ExtractFilenameOfInitialPrompt(x + ext, sourceCode, ins);
    assert "Source File: " + (x + ext) == "Source File: " + x + ext;
    var line := "Source File: " + x + ext;
    assert '/' !in line;
    SplitWithoutSep(line, '/');
    assert '.' !in "Source File: " + x;
    RemoveExtensionsPrefix("Source File: " + x, ext);
    RemoveExtensionsOfExtension(ext);
  }
}
