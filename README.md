# TestGenerator core, modelled in Dafny

TestGenerator is a Python tool that writes Google Test unit tests for a C++ project with a
large language model. It runs as a pipeline:

1. Find the C++ sources.
2. Ask the model for a test file per source.
3. Ask it to refine each test.
4. Write a CMakeLists.txt and build.
5. Ask for fixes when the build fails.
6. Ask for more tests from a coverage run.

Two stand-in providers answer prompts offline, each with a canned test:

- `DemoProvider` (src/demo_provider.py) first takes the first prompt line that mentions a file (`File:`, `filename:`, `.h`, `.cpp` or `.cc`). It then looks for its markers in that line only.
- `MockLLMProvider` (demo.py) looks for its markers anywhere in the prompt.

This project models the deterministic rules around the model calls:

- **Discovery** (`discovery.dfy`): `find_cpp_files`, which keeps the files with one of eight C/C++ extensions whose lower-cased path has none of the four skip words. Also how a source's test file is named (`test_<stem>.cpp`).
- **Prompts** (`prompts.dfy`): the four prompt builders. Lists are rendered as `- item` lines, or as `1. item` lines for the fix priorities.
- **CMake** (`cmake.dfy`): the CMakeLists.txt template. It lists every `test_*.cpp` of the output directory in `add_executable`.
- **Providers** (`providers.dfy`): the case-insensitive provider selection, the API-key checks, how each HTTP provider builds its request, and how the Ollama and Gemini response bodies are read.
- **Generator** (`generator.dfy`):
  - `generate_initial_tests` and `refine_tests`, as loops that count successes;
  - `fix_build_issues` and `improve_coverage`;
  - the control flow of `run_full_pipeline`.
- **DemoProvider** (`demo_provider.dfy`, modelling src/demo_provider.py): filename extraction, the ordered dispatch, and the generic test template.
- **MockProvider** (`mock_provider.dfy`): the ordered dispatch of demo.py's mock provider.
- **Dispatch** (`dispatch.dfy`): the ordered first-match rule table. Both providers are proved equal to it.
- **Strings** (`strings.dfy`): the Python string built-ins these rules use, such as `in`, `lower`, `strip`, `split`, `join`, `replace` and `rfind`.

The environment is passed in as parameters:

- **The model**: a function from (prompt, system prompt) to `Answer(text)` or `Raised`.
- **The project tree**: the sequence of paths a recursive walk visits. The iteration order of the extension set is a parameter too, so any order the set can have is covered.
- **The output directory**: the sequence of names its listing yields.
- **File contents**: a function from path to text.
- **Stage configurations**: a record, or `None` when the YAML file fails to load or is empty.
- **Subprocess and file-writing stages**: inside the pipeline, the outcome of each stage call (a value, or an escaping exception) is an input.

Where the code does something unexpected, a lemma states what it does:

- `DemoAnswerToInitialPrompt`: take the generator's real initial prompt, with an objective of one line that mentions none of "File:", "filename:", ".h", ".cc" or ".cpp". On it, `_extract_filename` returns the whole `Source File: X.h` line. The generic fixture is then named after that whole line.
- `CoveragePromptNeverGetsCoverageAnswer`: the coverage prompt always holds "Errors". The mock checks "error" before "coverage", so it never gives its coverage answer to a coverage prompt.
- `GenericClassNameOfSource`: `Foo.hpp` gives the class name `Foopp`.

## Model

| member | source | states |
|---|---|---|
| Strings.Lower | src/test_generator.py:219 | `lower()` keeps the length and lower-cases each ASCII letter in place |
| Strings.PrefixEach | src/test_generator.py:311 | one line per item, the prefix (`- ` for bullets, four spaces for CMake sources) then the item, in the items' order |
| Strings.Split | src/demo_provider.py:40 | `split(sep)` gives at least one piece; SplitPiece, SplitJoin and JoinSplit state the rest |
| Strings.SplitPiece | src/demo_provider.py:40 | no piece holds the separator, and each piece occurs in the text |
| Strings.SplitJoin | src/test_generator.py:311 | splitting a joined list of separator-free items at the separator gives the list back |
| Strings.JoinSplit | src/demo_provider.py:40 | joining the pieces with the separator gives the text back |
| Strings.LastPieceSuffix | src/demo_provider.py:443 | `split(sep)[-1]` ends the text and is the whole text or follows a separator |
| Strings.IsBlank | src/test_generator.py:267 | `not s.strip()`: every character is whitespace; no contract of its own |
| Strings.LastIndexOf | src/test_generator.py:280 | `rfind(c)`: -1 iff the character is absent; otherwise an index holding it with no occurrence after it (the last '.' that `Path.stem` cuts at) |
| Strings.NatToString | src/test_generator.py:534 | `str(n)`: a non-empty run of decimal digits, with a leading '0' only for n = 0 |
| Strings.ParseNatToString | src/test_generator.py:534 | the decimal digits of n read back as n |
| Strings.RemoveAll | src/demo_provider.py:443 | `replace(pat, '')` never lengthens the text and adds no character; it shortens the text exactly when `pat` occurs in it, and leaves a text without `pat` unchanged |
| Strings.Find | src/demo_provider.py:443 | `s.find(sub)`, the reference for `replace`: -1 only when `sub` does not occur, otherwise an index where it occurs |
| Strings.FindLeftmost | src/demo_provider.py:443 | no occurrence of `sub` starts before the index `find` returns |
| Strings.RemoveAllByFind | src/demo_provider.py:443 | `replace(pat, '')` removes exactly the non-overlapping occurrences a left-to-right `find` loop cuts out: keep what precedes the leftmost one, drop it, carry on after it |
| Providers.CreateProvider | src/test_generator.py:192-204 | succeeds iff the lower-cased name is ollama/github/mock/gemini, github and gemini have a non-empty API key, and for github the azure-ai-inference package imports; the chosen provider's name is the lower-cased name; Ollama's URL defaults to localhost; each failure carries the source's exact message; for github the key is checked before the import, whose failure (src/test_generator.py:102-103) gives "azure-ai-inference package is required for GitHub Models" |
| Providers.CreateProviderCaseInsensitive | src/test_generator.py:192-204 | any capitalisation of a supported name selects the same provider as the lower-case name, with or without the azure-ai-inference package |
| Providers.OllamaPromptText | src/test_generator.py:64 | the Ollama prompt starts with the system prompt, ends with the prompt, and has exactly "\n\n" between them, even when the system prompt is empty |
| Providers.GeminiPromptText | src/test_generator.py:139-141 | the Gemini text is the bare prompt iff the system prompt is empty; otherwise it is the system prompt, "\n\n", then the prompt |
| Providers.GitHubMessages | src/test_generator.py:108-111 | one message without a system prompt, two with one; the system message comes first and the user prompt last |
| Providers.OllamaReply | src/test_generator.py:75-76 | the reply is the body's "response" field, or "" when it is missing |
| Providers.GeminiReply | src/test_generator.py:167-173 | the text of the first part of the first candidate's content; the fixed error text when there is no candidate or no content; an exception when the first part or its text is missing |
| Discovery.FindCppFiles | src/test_generator.py:206-224 | for every extension-set order, returns each kept path (one of the eight extensions and no skip word in the lower-cased path) exactly as often as the walk visits it, and nothing else |
| Discovery.GlobAll | src/test_generator.py:211-214 | the first loop collects, extension by extension in the given order, the paths each `rglob` yields |
| Discovery.DropSkipped | src/test_generator.py:216-221 | the second loop keeps, in order, exactly the candidates whose lower-cased path holds no skip word |
| Discovery.SelectedPaths | src/test_generator.py:206-224 | the selected paths are the kept paths of the tree, each as often as the walk visits it |
| Discovery.SelectedCount | src/test_generator.py:216-221 | how often a path is selected: as often as the tree holds it when kept, else never |
| Discovery.SelectionOrderIrrelevant | src/test_generator.py:211-214 | two extension-set orders select the same multiset of files; only the order of the result can differ |
| Discovery.ExtensionsExclusive | src/test_generator.py:211 | no path ends in two different extensions of the set, so no path is collected twice by the globs |
| Discovery.GlobCount | src/test_generator.py:214 | `rglob('*'+ext)` yields a path as often as the tree holds it when it ends in ext, else never |
| Discovery.UnskippedCount | src/test_generator.py:217-221 | the filter keeps every occurrence of an unskipped path and drops every occurrence of a skipped one |
| Discovery.CandidatesCount | src/test_generator.py:213-214 | with distinct extensions, the concatenated globs hold a path once per visit when some extension ends it |
| Discovery.IsSkipped | src/test_generator.py:218-219 | a path is skipped iff its lower-cased text contains "test", "third_party", "build" or ".git"; no contract of its own, its properties are the two lemmas below |
| Discovery.SkipIgnoresCase | src/test_generator.py:219 | the skip test ignores case: a path is skipped iff its lower-cased form is |
| Discovery.SkippedBelowSkipped | src/test_generator.py:216-221 | every path beneath a skipped directory is skipped too |
| Discovery.Keeps | src/test_generator.py:211-221 | a path is kept iff it ends in one of the eight extensions and is not skipped; no contract of its own, FindCppFiles and SelectedCount state what keeping means for the result |
| Discovery.LatestDirectoryExcluded | src/test_generator.py:218-219 | any path under a directory named "Latest/" is skipped, since its lower-cased text contains "test" |
| Discovery.Name | src/test_generator.py:304 | a path's name holds no '/', ends the path, and is either the whole path or preceded by a '/' |
| Discovery.NameOfBare | src/test_generator.py:304 | a path without '/' (a top-level file) is its own name |
| Discovery.Stem | src/test_generator.py:280 | the stem is a prefix of the name; it differs from the name iff the last '.' is neither the first nor the last character, and then what is cut off is the suffix from that '.' |
| Discovery.StemOfDotName | src/test_generator.py:280 | a name whose only '.' is its first character (".gitignore") is its own stem |
| Discovery.NameOfJoined | src/test_generator.py:304 | the name of `dir/base` is `base` |
| Discovery.StemOfSource | src/test_generator.py:280 | the stem of `s + ext` is `s`, for each of the eight extensions |
| Discovery.StemAtDot | src/test_generator.py:280 | a name whose last '.' starts a suffix of two or more characters has the text before that '.' as stem |
| Discovery.TestFileName | src/test_generator.py:280 | the test file name starts with "test_", ends with ".cpp", holds no '/', and has the source's stem in between |
| Discovery.TestFileNameOfSource | src/test_generator.py:280 | the test file for `dir/s.ext` is exactly `test_s.cpp` |
| Discovery.TestFileNameOfTopLevelSource | src/test_generator.py:280 | the test file for a top-level `s.ext` is exactly `test_s.cpp` |
| Discovery.HeaderAndSourceShareTestFile | src/test_generator.py:280-284 | `X.h` and `X.cpp` get the same test file name, so the second write replaces the first |
| Prompts.NumberedLines | src/test_generator.py:534 | line k is `str(k+1) + ". " + item k`: numbered from 1, in order |
| Prompts.DigitPrefixLength | src/test_generator.py:534 | the length of the leading run of digits |
| Prompts.BulletListRoundTrip | src/test_generator.py:311 | when no item holds a newline, splitting the rendered list at newlines gives back one line per item, and each line reads back as its item |
| Prompts.NumberedLineParses | src/test_generator.py:534 | a rendered numbered line reads back as its number and its item |
| Prompts.NumberedListRoundTrip | src/test_generator.py:534 | when no item holds a newline, the lines of the numbered list are the numbered items, and line k reads back as (k+1, item k) |
| Prompts.InitialTestPrompt | src/test_generator.py:297-324 | the initial prompt text; no contract of its own, InitialTestPromptSections states what it holds |
| Prompts.RefinementPrompt | src/test_generator.py:372-393 | the refinement prompt text; no contract of its own, RefinementPromptSections states what it holds |
| Prompts.BuildFixPrompt | src/test_generator.py:518-538 | the build-fix prompt text; no contract of its own, BuildFixPromptSections states what it holds |
| Prompts.CoverageImprovementPrompt | src/test_generator.py:603-623 | the coverage prompt text; no contract of its own, CoverageImprovementPromptSections states what it holds |
| Prompts.InitialTestPromptSections | src/test_generator.py:297-324 | the initial prompt has the "Source File:" line, the whole source in a cpp fence, and the requirements and constraints sections as bullet lists |
| Prompts.RefinementPromptSections | src/test_generator.py:372-393 | the refinement prompt has the "Test File:" line, the current test in a fence, the "Refinement Tasks" and "Quality Checks" bullet sections, and the word "refine" |
| Prompts.BuildFixPromptSections | src/test_generator.py:518-538 | the build-fix prompt has the whole build output in a fence, the analysis steps as bullets and the fix priorities as a numbered list |
| Prompts.CoverageImprovementPromptSections | src/test_generator.py:603-623 | the coverage prompt shows the three coverage entries, with the `dict.get` defaults for an empty report, plus both bullet sections |
| CMake.TestSources | src/test_generator.py:454 | a name is listed iff it is in the directory and matches "test_*.cpp" |
| CMake.CMakeLists | src/test_generator.py:452-487 | the CMakeLists.txt text; no contract of its own, CMakeListsSections, ListingLines and EachTestListedOnce state what it holds |
| CMake.CMakeListsSections | src/test_generator.py:456-487 | the CMake file holds the `add_executable(run_tests ...)` block over the test sources, and includes the project directory |
| CMake.TestSourcesCount | src/test_generator.py:454 | the glob keeps every occurrence of a matching name and no other name |
| CMake.IndentedCount | src/test_generator.py:473 | an indented line occurs exactly as often as its name |
| CMake.ListingLines | src/test_generator.py:472-474 | when no name holds a newline, the lines of the `add_executable` block are exactly the indented test sources, in listing order |
| CMake.EachTestListed | src/test_generator.py:472-474 | each matching name appears as an indented line as often as the directory lists it; a non-matching name never does |
| CMake.DistinctCount | src/test_generator.py:454 | in a listing with distinct names, a listed name occurs once |
| CMake.EachTestListedOnce | src/test_generator.py:454-474 | in a directory, each `test_*.cpp` file is listed in `add_executable` exactly once |
| CMake.GeneratedTestIsListed | src/test_generator.py:280 | every `test_<stem>.cpp` name the generator writes matches the CMake glob |
| Generator.GenerateInitialTests | src/test_generator.py:245-295 | false with no prompts and no writes when the config is missing; otherwise one prompt per non-blank source and one write per non-blank answer, in file order; count equals writes; true iff count > 0 |
| Generator.InitialStep | src/test_generator.py:265-291 | one more file adds exactly its own prompt and write, if any, at the end |
| Generator.InitialRequestsPerSource | src/test_generator.py:265-276 | the provider is asked exactly once per non-blank source, in order, with that source's prompt, and never about a blank source |
| Generator.InitialWritesExactly | src/test_generator.py:276-291 | a file is written iff it is `test_<stem>.cpp` of a non-blank source whose answer is non-blank, with that answer as text; writes never outnumber files |
| Generator.InitialSucceedsIff | src/test_generator.py:259-295 | generation succeeds iff some non-blank source gets a non-blank answer |
| Generator.InitialWritesAreTests | src/test_generator.py:278-284 | every written text is non-blank, and every written name matches the CMake glob |
| Generator.RaisingProviderWritesNothing | src/test_generator.py:292-293 | a provider that always raises (no provider at all, as "mock" leaves it) makes generation write nothing |
| Generator.RefineTests | src/test_generator.py:326-370 | false with no writes when the config is missing; otherwise the test sources' non-blank refined texts replace them in order; true iff one did |
| Generator.RefinementsExactly | src/test_generator.py:342-360 | a rewrite happens iff it is the non-blank refined text of a listed, non-blank test file, written back to that same file |
| Generator.RefinementsComplete | src/test_generator.py:342-360 | every listed non-blank test file whose refined text is non-blank is rewritten with that text; every rewrite names a listed non-blank file and carries that file's refined text |
| Generator.RefinementsRewriteTests | src/test_generator.py:344-360 | refinement only rewrites listed test files, with non-blank texts, and never more often than there are files |
| Generator.InitialOutputIsRefined | src/test_generator.py:335 | a test file the initial stage wrote is one the refinement glob finds |
| Generator.FixBuildIssues | src/test_generator.py:489-516 | never reports a fix; asks the provider iff the config is present |
| Generator.FixRequestQuotesBuildOutput | src/test_generator.py:518-538 | the fix request quotes the whole build output |
| Generator.ImproveCoverage | src/test_generator.py:574-601 | true iff the config is present and the provider answers; the saved text is the answer, even a blank one |
| Generator.RunFullPipeline | src/test_generator.py:672-706 | initial generation always runs; refinement runs iff it succeeded; fix runs iff the build returned failure; improve runs iff coverage returned a non-empty report; a successful run ends with the report |
| Generator.PipelineVerdict | src/test_generator.py:672-706 | the pipeline returns true iff initial generation returns true and no stage call it makes throws |
| Generator.PipelineToleratesStageFailures | src/test_generator.py:681-691 | a failed refinement or a failed fix gives the same run as a successful one |
| Dispatch.FirstFiring | src/demo_provider.py:23-36 | the index of the first rule that fires: no earlier rule fires, and it fires unless it is past the end |
| DemoProvider.FirstMention | src/demo_provider.py:40-43 | the first line that mentions a file: no earlier line does |
| DemoProvider.UnknownFileMentionsNothing | src/demo_provider.py:44 | the fallback "unknown_file" itself mentions no file |
| DemoProvider.NothingInEmptyLine | src/demo_provider.py:41 | an empty line mentions no file |
| DemoProvider.ExtractFilename | src/demo_provider.py:38-44 | the result mentions a file iff some line of the prompt does, and is then one of its lines; otherwise it is "unknown_file" |
| DemoProvider.ExtractFilenameIsFirst | src/demo_provider.py:40-43 | the result is the first line that mentions a file |
| DemoProvider.ExtractFilenameOfInitialPrompt | src/demo_provider.py:38-44 | on the generator's initial prompt with a one-line objective, the extracted "filename" is the whole `Source File: <name>` line |
| DemoProvider.LeadingLines | src/demo_provider.py:40 | the first four lines of a text that opens with an empty line, a line, an empty line and a line |
| DemoProvider.GenerateResponse | src/demo_provider.py:16-36 | the answer is the first rule of the table whose marker occurs in the extracted filename line, or the generic test for that line |
| DemoProvider.ChooseTest | src/demo_provider.py:23-36 | the generic test carries the extracted filename |
| DemoProvider.ChooseTestIsFirstMatch | src/demo_provider.py:23-36 | the if/elif chain equals the ordered rule table (AuthController, PersonsController, DepartmentsController, Person.h/Person.cc, Department, LoginFilter), with the generic test as fallback |
| DemoProvider.DemoRulesFire | src/demo_provider.py:23-36 | each rule of the table fires exactly when its marker occurs in the filename |
| DemoProvider.DepartmentsControllerIsNotTheModel | src/demo_provider.py:27-32 | a DepartmentsController file never gets the Department model test; it gets the controller test unless an earlier controller matches |
| DemoProvider.ResponseIgnoresSystemPrompt | src/demo_provider.py:16-36 | the answer does not depend on the system prompt |
| DemoProvider.GenericClassName | src/demo_provider.py:443 | the class name is built from the last '/'-piece of the path: it holds no '/' and only that piece's characters, is no longer than it, equals it when none of .h, .cc and .cpp occurs in it, and is strictly shorter when .h occurs |
| DemoProvider.RemoveExtensions | src/demo_provider.py:443 | the three removals in order add no character, never lengthen, change nothing when none of .h, .cc, .cpp occurs, and shorten whenever .h occurs |
| DemoProvider.RemoveExtensionsPrefix | src/demo_provider.py:443 | text without '.' in front is untouched by the three removals |
| DemoProvider.RemoveExtensionsOfExtension | src/demo_provider.py:443 | what the removals leave of each extension: nothing of .h/.cc/.cpp, "pp"/"xx"/"++" of .hpp/.hxx/.h++, all of .cxx/.c++ |
| DemoProvider.GenericClassNameOfSource | src/demo_provider.py:443 | for `dir/x.ext` with no '.' and no '/' in x, the class name is x followed by what is left of the extension (so `Foo.hpp` gives `Foopp`) |
| DemoProvider.GenericTestText | src/demo_provider.py:444-466 | the generic test template filled with the filename and its class name; no contract of its own, GenericTestShape states its shape |
| DemoProvider.GenericTestShape | src/demo_provider.py:444-466 | the generic test has `#include "<filename>"`, declares the fixture `<class>Test`, and both TEST_F cases use it |
| DemoProvider.DemoAnswerToInitialPrompt | src/demo_provider.py:16-36 | on the generator's initial prompt for `x.ext`, the demo dispatches on "Source File: x.ext", and the generic fixture is named after that whole line |
| MockProvider.MockRulesFire | demo.py:26-39 | the file and model rules test the prompt as written; the stage rules test the lower-cased prompt |
| MockProvider.MockResponse | demo.py:23-41 | the if/elif chain equals the ordered rule table (main, PersonsController, Person, Department, refine, build/error, coverage) with the generic test as fallback, whatever the system prompt |
| MockProvider.MainProgramWins | demo.py:26-27 | a prompt naming test_main.cpp or main.cc gets the main-program test whatever else it says |
| MockProvider.ControllerBeforeModels | demo.py:28-33 | PersonsController wins over the Person model and Department checks |
| MockProvider.RefineSuffices | demo.py:34-35 | the "refinement" check adds nothing to the "refine" check |
| MockProvider.StageChecksIgnoreCase | demo.py:28-35 | "REFINE" triggers the refinement answer, since stage checks use the lower-cased prompt |
| MockProvider.RefinementPromptGetsRefinement | demo.py:34-35 | a refinement prompt never gets the build-fix, coverage or generic answer |
| MockProvider.ReportHoldsErrors | src/test_generator.py:613 | the "- Test Errors:" line holds "Error" |
| MockProvider.CoveragePromptNeverGetsCoverageAnswer | demo.py:36-39 | the coverage prompt never gets the coverage answer, since "error" is checked first and the prompt always says "Errors" |
| MockProvider.CoveragePromptSaysError | src/test_generator.py:603-623 | the lower-cased coverage prompt always holds "error", whatever the report |
| MockProvider.ErrorPreemptsCoverage | demo.py:36-39 | a prompt whose lower-cased text holds "error" never gets the coverage answer |

## Left out

- The HTTP calls of the Ollama, GitHub Models and Gemini providers. They are network I/O. A provider is a function returning an answer or an exception. Whether the azure-ai-inference package can be imported is a parameter of Providers.CreateProvider.
- Reading and writing files, `mkdir`, and YAML loading. They are I/O. Contents are a function of the path. A configuration is a complete record or `None`, so a YAML file that lacks a key the prompt builder reads (a KeyError) is not modelled.
- `build_tests`: it writes CMakeLists.txt (whose text is CMake.CMakeLists), creates `build/`, and runs `cmake` to configure and to build, as subprocesses with timeouts. The file write, the `mkdir` and the subprocesses are I/O. The pipeline takes how the call ends as an input.
- `run_coverage_analysis`: it returns `{}` when `build/run_tests` does not exist (src/test_generator.py:545-547) and when any exception escapes the run (:570-572); otherwise it runs `./run_tests` as a subprocess. The existence test and the subprocess are I/O. The pipeline takes the outcome as an input; a coverage report is `NoCoverage` (either `{}` case) or its three entries.
- `generate_report`: it globs `test_*.cpp`, formats a clock-dependent report and writes it to test_generation_report.md. The glob, the clock and the write are I/O. The pipeline takes how the call ends as an input. Also left out: logging, argparse `main`, and the temperature and token limits, which are passed through unchanged.
- run_real_example.py, demo.py's `demo_test_generation`, and the generated test files: they are scripts, printing, and model output, not the tool's logic.
- The canned C++ texts of the demo providers are named by datatype constructors, not copied. Only the generic template is rendered.
- Strings.Lower: lower-cases ASCII letters only, not the rest of Unicode.
- Discovery.FindCppFiles: the project tree is the sequence of visited paths. Hidden files, symlinks, directories whose names end in an extension, and case-insensitive globbing on Windows are not modelled.
- CMake.CMakeLists: the project path is taken as `str(Path(...))` renders it. Path normalisation is not modelled.
- Generator.GenerateInitialTests: a write that raises is caught in the source and not counted. In the model every write succeeds.
- Generator.RefineTests: same assumption. Every write succeeds.
- Generator.ImproveCoverage: every write succeeds. In the source a `coverage_improvements.cpp` write that raises is caught and the call returns False (src/test_generator.py:592-601); in the model `ok` is true whenever the provider answers.
- The GitHub Models reply extraction, `response.choices[0].message.content` (src/test_generator.py:120), is not modelled. An empty `choices` raises there and a `None` content is returned as is; the model sees any GitHub reply as the provider's outcome.
- Generator.RunFullPipeline: which stage call throws is an input. The model does not derive it from the stages' own code.
