/** Which source files the generator writes tests for (`CppTestGenerator.find_cpp_files`)
    and what the test file for each is called (`generate_initial_tests`), in
    src/test_generator.py.

    The project tree is given as the sequence of paths a recursive walk of the project
    directory visits, each path including the project directory itself, in walk order;
    `Path.rglob('*' + ext)` is the sub-sequence of those paths that end in `ext`. The
    extensions are a Python set, so the order in which they are searched is not fixed:
    it is a parameter, any enumeration of the set. */
module Discovery {
  import opened Strings

  /** The eight C and C++ extensions searched for. */
  const Extensions: set<string> := {".cpp", ".cc", ".cxx", ".c++", ".h", ".hpp", ".hxx", ".h++"}

  predicate HasCppExtension(path: string) {
    exists e | e in Extensions :: EndsWith(path, e)
  }

  /** A path whose lower-cased text contains one of the four skip words is left out, wherever
      in the path the word occurs (a directory "Latest/" contains "test"). */
  predicate IsSkipped(path: string) {
    var l := Lower(path);
    Contains(l, "test") || Contains(l, "third_party") || Contains(l, "build") || Contains(l, ".git")
  }

  /** The skip test reads the lower-cased path, so it ignores case: "Tests/" is skipped as
      "tests/" is. */
  lemma SkipIgnoresCase(path: string)
    ensures IsSkipped(path) == IsSkipped(Lower(path))
  {
    LowerIdempotent(path);
  }

  /** The skip test reads the whole path, so everything beneath a skipped directory is
      skipped as well. */
  lemma SkippedBelowSkipped(dir: string, rest: string)
    requires IsSkipped(dir)
    ensures IsSkipped(dir + rest)
  {
    var l := Lower(dir);
    LowerConcat(dir, rest);
    var w := if Contains(l, "test") then "test" else if Contains(l, "third_party") then "third_party"
      else if Contains(l, "build") then "build" else ".git";
    ContainsInConcat(l, Lower(rest), w);
  }

  /** What `find_cpp_files` keeps. */
  predicate Keeps(path: string) {
    HasCppExtension(path) && !IsSkipped(path)
  }

  /** An order in which iterating the extension set can visit it: each extension once. */
  ghost predicate IsExtensionOrder(order: seq<string>) {
    && (forall i, j | 0 <= i < j < |order| :: order[i] != order[j])
    && (forall e :: e in order <==> e in Extensions)
  }

  /** `rglob('*' + ext)`: the paths of the tree that end in `ext`, in walk order. */
  function Glob(tree: seq<string>, ext: string): seq<string> {
    if tree == [] then []
    else Glob(tree[..|tree| - 1], ext) + (if EndsWith(tree[|tree| - 1], ext) then [tree[|tree| - 1]] else [])
  }

  /** `cpp_files` after the first loop: one glob per extension, concatenated in `order`. */
  function Candidates(tree: seq<string>, order: seq<string>): seq<string> {
    if order == [] then []
    else Candidates(tree, order[..|order| - 1]) + Glob(tree, order[|order| - 1])
  }

  /** `filtered_files` after the second loop: the candidates that are not skipped, in order. */
  function Unskipped(paths: seq<string>): seq<string> {
    if paths == [] then []
    else Unskipped(paths[..|paths| - 1]) + (if IsSkipped(paths[|paths| - 1]) then [] else [paths[|paths| - 1]])
  }

  /** `find_cpp_files`. Whatever the order of the extension set, it returns every kept path of
      the tree as often as the walk visits it and nothing else: the result is a permutation of
      the kept paths. */
  method FindCppFiles(tree: seq<string>, order: seq<string>) returns (files: seq<string>)
    requires IsExtensionOrder(order)
    ensures files == Unskipped(Candidates(tree, order))
    ensures forall p :: multiset(files)[p] == if Keeps(p) then multiset(tree)[p] else 0
    ensures forall p :: p in files <==> p in tree && Keeps(p)
  {
    var cppFiles := GlobAll(tree, order);
    files := DropSkipped(cppFiles);
    SelectedPaths(tree, order);
  }

  /** The first loop of `find_cpp_files`: one `rglob` per extension, appended in turn. */
  method GlobAll(tree: seq<string>, order: seq<string>) returns (cppFiles: seq<string>)
    ensures cppFiles == Candidates(tree, order)
  {
    cppFiles := [];
    for k := 0 to |order|
      invariant cppFiles == Candidates(tree, order[..k])
    {
      CandidatesStep(tree, order, k);
      cppFiles := cppFiles + Glob(tree, order[k]);
    }
    assert order[..|order|] == order;
  }

  /** The second loop of `find_cpp_files`: keeps, in order, the candidates whose lower-cased
      path holds no skip word. */
  method DropSkipped(cppFiles: seq<string>) returns (files: seq<string>)
    ensures files == Unskipped(cppFiles)
  {
    files := [];
    for j := 0 to |cppFiles|
      invariant files == Unskipped(cppFiles[..j])
    {
      UnskippedStep(cppFiles, j);
      if !IsSkipped(cppFiles[j]) {
        files := files + [cppFiles[j]];
      }
    }
    assert cppFiles[..|cppFiles|] == cppFiles;
  }

  /** One more extension of the first loop adds its glob at the end. */
  lemma CandidatesStep(tree: seq<string>, order: seq<string>, k: nat)
    requires k < |order|
    ensures Candidates(tree, order[..k + 1]) == Candidates(tree, order[..k]) + Glob(tree, order[k])
  {
    assert order[..k + 1][..k] == order[..k];
  }

  /** One more candidate of the second loop is kept at the end unless it is skipped. */
  lemma UnskippedStep(paths: seq<string>, j: nat)
    requires j < |paths|
    ensures Unskipped(paths[..j + 1]) == Unskipped(paths[..j]) + (if IsSkipped(paths[j]) then [] else [paths[j]])
  {
    assert paths[..j + 1][..j] == paths[..j];
  }

  /** What `find_cpp_files` selects, counted and as a set. */
  lemma SelectedPaths(tree: seq<string>, order: seq<string>)
    requires IsExtensionOrder(order)
    ensures forall p :: multiset(Unskipped(Candidates(tree, order)))[p] == if Keeps(p) then multiset(tree)[p] else 0
    ensures forall p :: p in Unskipped(Candidates(tree, order)) <==> p in tree && Keeps(p)
  {
    var files := Unskipped(Candidates(tree, order));
    forall p ensures multiset(files)[p] == if Keeps(p) then multiset(tree)[p] else 0 {
      SelectedCount(tree, order, p);
    }
    KeptMembers(files, tree);
  }

  /** A sequence holding each kept path of the tree as often as the tree does, and nothing
      else, holds exactly the kept paths of the tree. */
  lemma KeptMembers(files: seq<string>, tree: seq<string>)
    requires forall p :: multiset(files)[p] == if Keeps(p) then multiset(tree)[p] else 0
    ensures forall p :: p in files <==> p in tree && Keeps(p)
  {
    forall p ensures p in files <==> p in tree && Keeps(p) {
      assert p in files <==> multiset(files)[p] > 0;
      assert p in tree <==> multiset(tree)[p] > 0;
    }
  }

  /** A path ends in at most one of the extensions: none of them is a suffix of another. */
  lemma ExtensionsExclusive(p: string, e1: string, e2: string)
    requires e1 in Extensions && e2 in Extensions
    requires EndsWith(p, e1) && EndsWith(p, e2)
    ensures e1 == e2
  {
    assert e1[|e1| - 1] == p[|p| - 1] == e2[|e2| - 1];
    if |e1| == |e2| {
      assert e1 == p[|p| - |e1|..] == e2;
    }
  }

  lemma {:induction false} GlobCount(tree: seq<string>, ext: string, p: string)
    ensures multiset(Glob(tree, ext))[p] == if EndsWith(p, ext) then multiset(tree)[p] else 0
  {
    if tree != [] {
      GlobCount(tree[..|tree| - 1], ext, p);
      assert tree == tree[..|tree| - 1] + [tree[|tree| - 1]];
    }
  }

  lemma {:induction false} UnskippedCount(paths: seq<string>, p: string)
    ensures multiset(Unskipped(paths))[p] == if IsSkipped(p) then 0 else multiset(paths)[p]
  {
    if paths != [] {
      UnskippedCount(paths[..|paths| - 1], p);
      assert paths == paths[..|paths| - 1] + [paths[|paths| - 1]];
    }
  }

  /** Some extension of `order` ends `p`. */
  predicate MatchesSome(p: string, order: seq<string>) {
    exists k | 0 <= k < |order| :: EndsWith(p, order[k])
  }

  /** Adding one extension at the end of the order adds its matches. */
  lemma MatchesSomeSnoc(p: string, order: seq<string>)
    requires order != []
    ensures MatchesSome(p, order) <==> MatchesSome(p, order[..|order| - 1]) || EndsWith(p, order[|order| - 1])
  {
    var init := order[..|order| - 1];
    if MatchesSome(p, init) {
      var k :| 0 <= k < |init| && EndsWith(p, init[k]);
      assert EndsWith(p, order[k]);
    }
    if MatchesSome(p, order) && !EndsWith(p, order[|order| - 1]) {
      var k :| 0 <= k < |order| && EndsWith(p, order[k]);
      assert EndsWith(p, init[k]);
    }
  }

  /** With distinct extensions, a path that one extension ends is ended by no other in the order. */
  lemma OnlyOneMatch(p: string, order: seq<string>, k: nat)
    requires DistinctExtensions(order)
    requires k < |order| && EndsWith(p, order[k])
    ensures !MatchesSome(p, order[..k])
  {
    if MatchesSome(p, order[..k]) {
      var i :| 0 <= i < k && EndsWith(p, order[..k][i]);
      ExtensionsExclusive(p, order[i], order[k]);
    }
  }

  /** Distinct extensions of the set, in some order: a prefix of an extension order. */
  predicate DistinctExtensions(order: seq<string>) {
    && (forall i, j | 0 <= i < j < |order| :: order[i] != order[j])
    && (forall k | 0 <= k < |order| :: order[k] in Extensions)
  }

  lemma DistinctExtensionsPrefix(order: seq<string>, n: nat)
    requires DistinctExtensions(order) && n <= |order|
    ensures DistinctExtensions(order[..n])
  {
  }

  /** Each path of the tree is collected once by the one glob of its extension and by no
      other, provided the extensions are distinct. */
  lemma {:induction false} CandidatesCount(tree: seq<string>, order: seq<string>, p: string)
    requires DistinctExtensions(order)
    ensures multiset(Candidates(tree, order))[p] == if MatchesSome(p, order) then multiset(tree)[p] else 0
  {
    if order != [] {
      var n := |order| - 1;
      var init, last := order[..n], order[n];
      DistinctExtensionsPrefix(order, n);
      CandidatesCount(tree, init, p);
      GlobCount(tree, last, p);
      assert multiset(Candidates(tree, order))[p]
        == multiset(Candidates(tree, init))[p] + multiset(Glob(tree, last))[p];
      MatchesSomeSnoc(p, order);
      if EndsWith(p, last) {
        OnlyOneMatch(p, order, n);
      }
    }
  }

  /** How often `find_cpp_files` returns a path: as often as the walk visits it if it is kept,
      never otherwise, whatever order the extension set is iterated in. */
  lemma SelectedCount(tree: seq<string>, order: seq<string>, p: string)
    requires IsExtensionOrder(order)
    ensures multiset(Unskipped(Candidates(tree, order)))[p] == if Keeps(p) then multiset(tree)[p] else 0
  {
    UnskippedCount(Candidates(tree, order), p);
    assert DistinctExtensions(order) by {
      forall k | 0 <= k < |order| ensures order[k] in Extensions {
        assert order[k] in order;
      }
    }
    CandidatesCount(tree, order, p);
    if HasCppExtension(p) {
      var e :| e in Extensions && EndsWith(p, e);
      assert e in order;
      var k :| 0 <= k < |order| && order[k] == e;
      assert MatchesSome(p, order);
    }
    if MatchesSome(p, order) {
      var k :| 0 <= k < |order| && EndsWith(p, order[k]);
      assert order[k] in Extensions;
    }
  }

  /** Two runs over the same tree find the same files, only possibly in another order. */
  lemma SelectionOrderIrrelevant(tree: seq<string>, order1: seq<string>, order2: seq<string>)
    requires IsExtensionOrder(order1) && IsExtensionOrder(order2)
    ensures multiset(Unskipped(Candidates(tree, order1))) == multiset(Unskipped(Candidates(tree, order2)))
  {
    forall p
      ensures multiset(Unskipped(Candidates(tree, order1)))[p] == multiset(Unskipped(Candidates(tree, order2)))[p]
    {
      SelectedCount(tree, order1, p);
      SelectedCount(tree, order2, p);
    }
  }

  /** A source under a directory whose name contains "test" in any case, such as "Latest/",
      is never selected, whatever its extension. */
  lemma LatestDirectoryExcluded(dir: string, rest: string)
    ensures IsSkipped(dir + "Latest/" + rest)
  {
    var p := dir + "Latest/" + rest;
    assert Lower(p)[|dir| + 2..|dir| + 6] == "test";
    assert OccursAt(Lower(p), "test", |dir| + 2);
  }

  // ---------------------------------------------------------------------------
  // Test file names
  // ---------------------------------------------------------------------------

  /** `Path.name`: the text after the last '/'. */
  function Name(path: string): (r: string)
    ensures '/' !in r
    ensures EndsWith(path, r)
    ensures |r| < |path| ==> path[|path| - |r| - 1] == '/'
  {
    SplitPiece(path, '/', |Split(path, '/')| - 1);
    LastPieceSuffix(path, '/');
    LastPiece(path, '/')
  }

  /** `Path.stem`: the name without its last suffix, where a suffix starts at the last '.'
      that is neither the first nor the last character of the name. */
  function Stem(name: string): (r: string)
    ensures |r| <= |name| && StartsWith(name, r)
    ensures r != name ==> '.' !in name[|r| + 1..] && name[|r|] == '.'
    ensures r != name <==> 0 < LastIndexOf(name, '.') < |name| - 1
  {
    var i := LastIndexOf(name, '.');
    if 0 < i < |name| - 1 then name[..i] else name
  }

  /** The test file written for a source: `f"test_{cpp_file.stem}.cpp"`. */
  function TestFileName(path: string): (r: string)
    ensures StartsWith(r, "test_") && EndsWith(r, ".cpp") && '/' !in r
    ensures |r| == |Stem(Name(path))| + 9 && r[5..|r| - 4] == Stem(Name(path))
  {
    var stem := Stem(Name(path));
    assert '/' !in stem by {
      assert stem == Name(path)[..|stem|];
    }
    var r := "test_" + stem + ".cpp";
    assert r[5..|r| - 4] == stem;
    r
  }

  /** The name of a path is its last component. */
  lemma {:induction false} NameOfJoined(dir: string, base: string)
    requires '/' !in base
    ensures Name(dir + "/" + base) == base
  {
    SplitConcat(dir, base, '/');
    SplitWithoutSep(base, '/');
  }

  /** A path without '/' is its own name: what `Path('.').rglob` yields for a source at the
      top of the project. */
  lemma NameOfBare(path: string)
    requires '/' !in path
    ensures Name(path) == path
  {
    SplitWithoutSep(path, '/');
    LastPieceSuffix(path, '/');
  }

  /** A name whose only '.' is its first character, such as ".h", is its own stem. */
  lemma StemOfDotName(name: string)
    requires |name| > 0 && name[0] == '.' && '.' !in name[1..]
    ensures Stem(name) == name
  {
    LastIndexOfAt(name, '.', 0);
  }

  /** A source named `s + ext`, for one of the eight extensions and a non-empty `s`, has stem
      `s`: each extension holds a single '.', at its start. */
  lemma StemOfSource(s: string, ext: string)
    requires ext in Extensions && |s| > 0
    ensures Stem(s + ext) == s
  {
    ExtensionShape(ext);
    StemAtDot(s, ext);
  }

  /** Each extension is a '.' followed by at least one character and no other '.'. */
  lemma ExtensionShape(ext: string)
    requires ext in Extensions
    ensures |ext| >= 2 && ext[0] == '.' && '.' !in ext[1..]
  {
  }

  /** A name whose last '.' starts a suffix of two or more characters loses that suffix. */
  lemma StemAtDot(s: string, suffix: string)
    requires |s| > 0 && |suffix| >= 2 && suffix[0] == '.' && '.' !in suffix[1..]
    ensures Stem(s + suffix) == s
  {
    var name := s + suffix;
    assert name[|s|] == '.';
    assert name[|s| + 1..] == suffix[1..];
    LastIndexOfAt(name, '.', |s|);
    assert name[..|s|] == s;
  }

  /** The test file for `dir/s.ext` is exactly `test_s.cpp`. */
  lemma TestFileNameOfSource(dir: string, s: string, ext: string)
    requires ext in Extensions && |s| > 0 && '/' !in s
    ensures TestFileName(dir + "/" + s + ext) == "test_" + s + ".cpp"
  {
    assert '/' !in ext;
    NameOfJoined(dir, s + ext);
    assert dir + "/" + s + ext == dir + "/" + (s + ext);
    StemOfSource(s, ext);
  }

  /** A source at the top of the project, `s.ext`, also gets `test_s.cpp`. */
  lemma TestFileNameOfTopLevelSource(s: string, ext: string)
    requires ext in Extensions && |s| > 0 && '/' !in s
    ensures TestFileName(s + ext) == "test_" + s + ".cpp"
  {
    ExtensionShape(ext);
    assert '/' !in ext;
    NameOfBare(s + ext);
    StemOfSource(s, ext);
  }

  /** A header and an implementation file with the same stem get the same test file name,
      so the second test written overwrites the first. */
  lemma HeaderAndSourceShareTestFile(dir: string, s: string, e1: string, e2: string)
    requires e1 in Extensions && e2 in Extensions && |s| > 0 && '/' !in s
    ensures TestFileName(dir + "/" + s + e1) == TestFileName(dir + "/" + s + e2)
  {
    TestFileNameOfSource(dir, s, e1);
    TestFileNameOfSource(dir, s, e2);
  }
}
