/** The CMakeLists.txt that `CppTestGenerator._generate_cmake_for_tests` (src/test_generator.py)
    writes into the output directory: every `test_*.cpp` file of that directory becomes one
    indented line of the `add_executable(run_tests ...)` block.

    The output directory is given as the sequence of the names its listing yields, in listing
    order; `glob("test_*.cpp")` is the sub-sequence of the names the pattern matches. */
module CMake {
  import opened Strings
  import opened Discovery

  /** The shell pattern "test_*.cpp" on a file name: the `*` may match nothing, but the prefix
      and the suffix cannot overlap. */
  predicate MatchesTestGlob(name: string) {
    |name| >= 9 && StartsWith(name, "test_") && EndsWith(name, ".cpp")
  }

  /** `[f.name for f in output_dir.glob("test_*.cpp")]`, in listing order. */
  function TestSources(entries: seq<string>): (r: seq<string>)
    ensures forall n :: n in r <==> n in entries && MatchesTestGlob(n)
  {
    if entries == [] then []
    else
      var last := entries[|entries| - 1];
      TestSources(entries[..|entries| - 1]) + (if MatchesTestGlob(last) then [last] else [])
  }

  /** The lines of `chr(10).join(f"    {test_file}" for test_file in test_files)`. */
  function IndentedLines(names: seq<string>): seq<string> {
    PrefixEach("    ", names)
  }

  function ExecutableListing(names: seq<string>): string {
    Join(IndentedLines(names), '\n')
  }

  /** The `add_executable` block: the target, then the sources, then the closing parenthesis
      on a line of its own. */
  function ExecutableBlock(names: seq<string>): string {
    "add_executable(run_tests\n" + ExecutableListing(names) + "\n)"
  }

  /** The fixed text before the include line of the project: standard, packages, includes. */
  const CMakeHeader := "cmake_minimum_required(VERSION 3.10)\nproject(UnitTests CXX)\n\n"
    + "set(CMAKE_CXX_STANDARD 17)\nset(CMAKE_CXX_STANDARD_REQUIRED ON)\n\n"
    + "# Find packages\nfind_package(GTest REQUIRED)\nfind_package(GMock REQUIRED)\n\n"
    + "# Include directories\ninclude_directories(${GTEST_INCLUDE_DIRS})\n"
    + "include_directories(${GMOCK_INCLUDE_DIRS})\n"

  /** The fixed text after the executable: libraries and the test registration. */
  const CMakeFooter := "\n\n# Link libraries\ntarget_link_libraries(run_tests\n"
    + "    ${GTEST_LIBRARIES}\n    ${GMOCK_LIBRARIES}\n    pthread\n)\n\n"
    + "# Enable testing\nenable_testing()\nadd_test(NAME unit_tests COMMAND run_tests)\n"

  /** The pieces of the CMakeLists.txt template. */
  function CMakeListsParts(entries: seq<string>, projectPath: string): seq<string> {
    [ CMakeHeader,
      "include_directories(\"" + projectPath + "\")\n",
      "\n# Test executable\n",
      ExecutableBlock(TestSources(entries)),
      CMakeFooter ]
  }

  /** `_generate_cmake_for_tests`, for the output directory's listing `entries` and the
      project directory as `str` renders it. */
  function CMakeLists(entries: seq<string>, projectPath: string): string {
    Concat(CMakeListsParts(entries, projectPath))
  }

  /** The CMake file holds the `add_executable` block over the directory's test sources, and
      adds the project directory to the include path. */
  lemma CMakeListsSections(entries: seq<string>, projectPath: string)
    ensures Contains(CMakeLists(entries, projectPath), ExecutableBlock(TestSources(entries)))
    ensures Contains(CMakeLists(entries, projectPath), "include_directories(\"" + projectPath + "\")\n")
  {
    ConcatContainsPart(CMakeListsParts(entries, projectPath), 1);
    ConcatContainsPart(CMakeListsParts(entries, projectPath), 3);
  }

  /** A name is a test source as often as the listing holds it, if it matches the pattern. */
  lemma {:induction false} TestSourcesCount(entries: seq<string>, n: string)
    ensures multiset(TestSources(entries))[n] == if MatchesTestGlob(n) then multiset(entries)[n] else 0
  {
    if entries != [] {
      var init := entries[..|entries| - 1];
      var last := entries[|entries| - 1];
      TestSourcesCount(init, n);
      assert entries == init + [last];
    }
  }

  /** Indenting names keeps them apart: each indented line stands for exactly one name. */
  lemma {:induction false} IndentedCount(names: seq<string>, n: string)
    ensures multiset(IndentedLines(names))["    " + n] == multiset(names)[n]
  {
    if names != [] {
      var init := names[..|names| - 1];
      var last := names[|names| - 1];
      IndentedCount(init, n);
      assert names == init + [last];
      assert IndentedLines(names) == IndentedLines(init) + ["    " + last];
      assert ("    " + last)[4..] == last && ("    " + n)[4..] == n;
    }
  }

  /** The `add_executable` block has one line per test source, in listing order, each
      indented by four spaces, as long as no file name holds a line break. */
  lemma ListingLines(entries: seq<string>)
    requires TestSources(entries) != []
    requires forall e :: e in entries ==> '\n' !in e
    ensures Split(ExecutableListing(TestSources(entries)), '\n') == IndentedLines(TestSources(entries))
  {
    var names := TestSources(entries);
    var lines := IndentedLines(names);
    forall k | 0 <= k < |lines| ensures '\n' !in lines[k] {
      assert names[k] in entries;
      assert lines[k] == "    " + names[k];
    }
    SplitJoin(lines, '\n');
  }

  /** Each entry of the listing that matches "test_*.cpp" is a line of the `add_executable`
      block as often as the listing holds it, and no other entry is. */
  lemma EachTestListed(entries: seq<string>, n: string)
    requires TestSources(entries) != []
    requires forall e :: e in entries ==> '\n' !in e
    ensures multiset(Split(ExecutableListing(TestSources(entries)), '\n'))["    " + n]
      == if MatchesTestGlob(n) then multiset(entries)[n] else 0
  {
    ListingLines(entries);
    IndentedCount(TestSources(entries), n);
    TestSourcesCount(entries, n);
  }

  /** A directory listing names each file once. */
  predicate Distinct(entries: seq<string>) {
    forall i, j | 0 <= i < j < |entries| :: entries[i] != entries[j]
  }

  lemma {:induction false} DistinctCount(entries: seq<string>, n: string)
    requires Distinct(entries) && n in entries
    ensures multiset(entries)[n] == 1
  {
    var init := entries[..|entries| - 1];
    var last := entries[|entries| - 1];
    assert entries == init + [last];
    if n == last {
      assert n !in init by {
        forall i | 0 <= i < |init| ensures init[i] != n {
          assert init[i] == entries[i];
        }
      }
    } else {
      DistinctCount(init, n);
    }
  }

  /** In a directory, each test source is listed exactly once. */
  lemma EachTestListedOnce(entries: seq<string>, n: string)
    requires Distinct(entries) && n in entries && MatchesTestGlob(n)
    requires forall e :: e in entries ==> '\n' !in e
    ensures multiset(Split(ExecutableListing(TestSources(entries)), '\n'))["    " + n] == 1
  {
    assert n in TestSources(entries);
    EachTestListed(entries, n);
    DistinctCount(entries, n);
  }

  /** Every test file the generator writes is one the CMake file picks up. */
  lemma GeneratedTestIsListed(path: string)
    ensures MatchesTestGlob(TestFileName(path))
  {
    var name := TestFileName(path);
    assert name == "test_" + Stem(Name(path)) + ".cpp";
    assert name[..5] == "test_";
    assert name[|name| - 4..] == ".cpp";
  }
}
