/**
 * The example corpus: every file named `...rules.toml` found by a directory
 * walk, with its comment lines removed, wrapped in a tagged block.
 *
 * The walk itself (`os.walk`) is given as a value: one `WalkStep` per
 * directory visited, in traversal order, each with the files of that
 * directory in listing order. A file whose contents are `None` is one
 * that cannot be read.
 */
module Examples {
  import opened Wrappers
  import opened Text

  const RulesSuffix: string := "rules.toml"
  const CommentMarker: string := "#"

  datatype FileEntry = FileEntry(name: string, contents: Option<string>)

  /** One directory produced by the walk: its path and the files directly in it. */
  datatype WalkStep = WalkStep(root: string, files: seq<FileEntry>)

  /** A file together with the directory it was listed in. */
  datatype WalkFile = WalkFile(root: string, entry: FileEntry)

  predicate IsRuleFile(name: string) {
    EndsWith(name, RulesSuffix)
  }

  predicate IsComment(line: string) {
    StartsWith(line, CommentMarker)
  }

  /** `os.path.join(root, name)` for a plain file name (no separator in it). */
  function PathJoin(root: string, name: string): (path: string)
    ensures StartsWith(path, root) && EndsWith(path, name)
    ensures |root| + |name| <= |path| <= |root| + 1 + |name|
  {
    if root == [] || root[|root| - 1] == '/' then root + name else root + "/" + name
  }

  function PathOf(f: WalkFile): string {
    PathJoin(f.root, f.entry.name)
  }

  // ---------------------------------------------------------------------
  // Comment stripping

  /** The lines that do not start with the comment marker, in their order. */
  function Uncommented(lines: seq<string>): seq<string> {
    if lines == [] then []
    else (if IsComment(lines[0]) then [] else [lines[0]]) + Uncommented(lines[1..])
  }

  /**
   * `"\n".join([line for line in contents.split("\n") if not line.startswith("#")])`:
   * text without comment lines is returned as it was.
   */
  function StripComments(contents: string): (stripped: string)
    ensures (forall i :: 0 <= i < |Split(contents)| ==> !IsComment(Split(contents)[i])) ==> stripped == contents
  {
    KeepsUncommentedText(contents);
    Join(Uncommented(Split(contents)))
  }

  lemma KeepsUncommentedText(contents: string)
    ensures (forall i :: 0 <= i < |Split(contents)| ==> !IsComment(Split(contents)[i])) ==>
              Join(Uncommented(Split(contents))) == contents
  {
    if forall i :: 0 <= i < |Split(contents)| ==> !IsComment(Split(contents)[i]) {
      UncommentedNone(Split(contents));
      JoinSplit(contents);
    }
  }

  /** A line survives exactly when it was in the input and is not a comment. */
  lemma {:induction false} UncommentedMembers(lines: seq<string>)
    ensures forall line :: line in Uncommented(lines) <==> line in lines && !IsComment(line)
  {
    if lines != [] {
      UncommentedMembers(lines[1..]);
      assert lines == [lines[0]] + lines[1..];
    }
  }

  /** Filtering distributes over concatenation, so surviving lines keep their relative order. */
  lemma {:induction false} UncommentedAppend(a: seq<string>, b: seq<string>)
    ensures Uncommented(a + b) == Uncommented(a) + Uncommented(b)
  {
    if a != [] {
      UncommentedAppend(a[1..], b);
      assert (a + b)[1..] == a[1..] + b;
    } else {
      assert a + b == b;
    }
  }

  /** Text with no comment line passes through unchanged. */
  lemma {:induction false} UncommentedNone(lines: seq<string>)
    requires forall i :: 0 <= i < |lines| ==> !IsComment(lines[i])
    ensures Uncommented(lines) == lines
  {
    if lines != [] {
      UncommentedNone(lines[1..]);
      assert lines == [lines[0]] + lines[1..];
    }
  }

  /**
   * No line of the stripped text is a comment; when some line survives, the
   * lines of the stripped text are exactly the surviving lines in order; and
   * text without comment lines is returned as it was.
   */
  lemma StripCommentsLines(contents: string)
    ensures forall line :: line in Split(StripComments(contents)) ==> !IsComment(line)
    ensures Uncommented(Split(contents)) != [] ==>
              Split(StripComments(contents)) == Uncommented(Split(contents))
    ensures (forall i :: 0 <= i < |Split(contents)| ==> !IsComment(Split(contents)[i])) ==>
              StripComments(contents) == contents
  {
    var lines := Split(contents);
    var kept := Uncommented(lines);
    UncommentedMembers(lines);
    if kept == [] {
      assert StripComments(contents) == [];
      assert Split([]) == [[]];
      assert !IsComment([]);
    } else {
      forall i | 0 <= i < |kept| ensures '\n' !in kept[i] {
        assert kept[i] in lines;
      }
      SplitJoin(kept);
    }
    if forall i :: 0 <= i < |lines| ==> !IsComment(lines[i]) {
      UncommentedNone(lines);
      JoinSplit(contents);
    }
  }

  // ---------------------------------------------------------------------
  // The corpus

  /** The tag line naming a kept file: the path between the opening and the closing tag, then a newline. */
  function Header(path: string): (h: string)
    ensures |h| == 18 + |path| + 17 && h[18..|h| - 17] == path && h[|h| - 1] == '\n'
  {
    "<file_name_start> " + path + " <file_name_end>\n"
  }

  /** The fenced contents of a kept file: the filtered text between the opening and the closing fence. */
  function Fenced(filtered: string): (r: string)
    ensures |r| == 8 + |filtered| + 4 && r[8..|r| - 4] == filtered
  {
    "```toml " + filtered + "```\n"
  }

  /** The tag line opens with `<file_name_start> ` and closes with ` <file_name_end>` and a newline. */
  lemma HeaderTags(path: string)
    ensures Header(path)[..18] == "<file_name_start> "
    ensures Header(path)[|Header(path)| - 17..] == " <file_name_end>\n"
  {
  }

  /** The fence opens with three backticks and `toml `, and closes with three backticks and a newline. */
  lemma FencedTags(filtered: string)
    ensures Fenced(filtered)[..8] == "```toml "
    ensures Fenced(filtered)[|Fenced(filtered)| - 4..] == "```\n"
  {
  }

  /** The text emitted for one kept file. */
  function Block(path: string, filtered: string): string {
    Header(path) + Fenced(filtered)
  }

  /** What one listed file contributes; `Err(path)` when a kept file cannot be read. */
  function FileBlock(f: WalkFile): (r: Result<string, string>)
    ensures r.Err? <==> IsRuleFile(f.entry.name) && f.entry.contents.None?
    ensures r.Err? ==> r.error == PathOf(f)
    ensures r.Ok? && r.value != [] ==> IsRuleFile(f.entry.name)
  {
    if !IsRuleFile(f.entry.name) then Ok([])
    else match f.entry.contents
      case None => Err(PathOf(f))
      case Some(text) => Ok(Block(PathOf(f), StripComments(text)))
  }

  /** Sequencing of two steps: the first failure wins, otherwise the texts concatenate. */
  function Then(a: Result<string, string>, b: Result<string, string>): Result<string, string> {
    if a.Err? then a else if b.Err? then b else Ok(a.value + b.value)
  }

  function Located(step: WalkStep): (fs: seq<WalkFile>)
    ensures |fs| == |step.files|
  {
    seq(|step.files|, i requires 0 <= i < |step.files| => WalkFile(step.root, step.files[i]))
  }

  /** The files of the walk, in traversal order. */
  function Flatten(walk: seq<WalkStep>): seq<WalkFile> {
    if walk == [] then [] else Flatten(walk[..|walk| - 1]) + Located(walk[|walk| - 1])
  }

  /** The accumulated corpus after visiting `fs` in order. */
  function Corpus(fs: seq<WalkFile>): Result<string, string> {
    if fs == [] then Ok([]) else Then(Corpus(fs[..|fs| - 1]), FileBlock(fs[|fs| - 1]))
  }

  function ExamplesText(walk: seq<WalkStep>): Result<string, string> {
    Corpus(Flatten(walk))
  }

  // ---------------------------------------------------------------------
  // An independent description of the corpus: filter, then concatenate

  /** The files named `...rules.toml`, in traversal order. */
  function RuleFiles(fs: seq<WalkFile>): seq<WalkFile> {
    if fs == [] then []
    else (if IsRuleFile(fs[0].entry.name) then [fs[0]] else []) + RuleFiles(fs[1..])
  }

  predicate AllReadable(fs: seq<WalkFile>) {
    forall i :: 0 <= i < |fs| ==> fs[i].entry.contents.Some?
  }

  function Blocks(fs: seq<WalkFile>): string
    requires AllReadable(fs)
  {
    if fs == [] then []
    else Block(PathOf(fs[0]), StripComments(fs[0].entry.contents.value)) + Blocks(fs[1..])
  }

  /** `i` is the first file of `fs` that is kept but cannot be read. */
  predicate FirstUnreadable(fs: seq<WalkFile>, i: int) {
    0 <= i < |fs| && FileBlock(fs[i]).Err? &&
    forall k :: 0 <= k < i ==> FileBlock(fs[k]).Ok?
  }

  lemma ThenAssociative(a: Result<string, string>, b: Result<string, string>, c: Result<string, string>)
    ensures Then(Then(a, b), c) == Then(a, Then(b, c))
  {
    if a.Ok? && b.Ok? && c.Ok? {
      assert (a.value + b.value) + c.value == a.value + (b.value + c.value);
    }
  }

  /** The corpus of a concatenation is the sequencing of the two corpora. */
  lemma {:induction false} CorpusAppend(a: seq<WalkFile>, b: seq<WalkFile>)
    ensures Corpus(a + b) == Then(Corpus(a), Corpus(b))
    decreases |b|
  {
    if b == [] {
      assert a + b == a;
      if Corpus(a).Ok? {
        assert Corpus(a).value + [] == Corpus(a).value;
      }
    } else {
      var init := b[..|b| - 1];
      CorpusAppend(a, init);
      assert (a + b)[..|a + b| - 1] == a + init;
      ThenAssociative(Corpus(a), Corpus(init), FileBlock(b[|b| - 1]));
    }
  }

  lemma CorpusSingle(f: WalkFile)
    ensures Corpus([f]) == FileBlock(f)
  {
    assert [f][..0] == [];
    if FileBlock(f).Ok? {
      assert [] + FileBlock(f).value == FileBlock(f).value;
    }
  }

  /**
   * The accumulated corpus succeeds exactly when every kept file is readable,
   * and is then the concatenation of the kept files' blocks in traversal order.
   */
  lemma {:induction false} CorpusIsRuleBlocks(fs: seq<WalkFile>)
    ensures Corpus(fs).Ok? <==> AllReadable(RuleFiles(fs))
    ensures Corpus(fs).Ok? ==> Corpus(fs).value == Blocks(RuleFiles(fs))
  {
    if fs != [] {
      var f, rest := fs[0], fs[1..];
      assert fs == [f] + rest;
      CorpusAppend([f], rest);
      CorpusSingle(f);
      CorpusIsRuleBlocks(rest);
      if IsRuleFile(f.entry.name) {
        KeptFirst(fs);
      } else {
        assert RuleFiles(fs) == RuleFiles(rest);
        if Corpus(rest).Ok? {
          assert [] + Corpus(rest).value == Corpus(rest).value;
        }
      }
    }
  }

  /** A kept first file heads the kept files: it must be readable too, and its block comes first. */
  lemma KeptFirst(fs: seq<WalkFile>)
    requires fs != [] && IsRuleFile(fs[0].entry.name)
    ensures RuleFiles(fs) == [fs[0]] + RuleFiles(fs[1..])
    ensures AllReadable(RuleFiles(fs)) <==> fs[0].entry.contents.Some? && AllReadable(RuleFiles(fs[1..]))
    ensures AllReadable(RuleFiles(fs)) ==>
              Blocks(RuleFiles(fs)) ==
                Block(PathOf(fs[0]), StripComments(fs[0].entry.contents.value)) + Blocks(RuleFiles(fs[1..]))
  {
    var kept := RuleFiles(fs);
    assert kept[0] == fs[0];
    assert kept[1..] == RuleFiles(fs[1..]);
    assert forall k :: 1 <= k < |kept| ==> kept[k] == kept[1..][k - 1];
  }

  /** The corpus fails exactly when some kept file is unreadable, naming the first such file. */
  lemma {:induction false} CorpusFails(fs: seq<WalkFile>)
    ensures Corpus(fs).Ok? <==> forall k :: 0 <= k < |fs| ==> FileBlock(fs[k]).Ok?
    ensures forall i :: FirstUnreadable(fs, i) ==> Corpus(fs) == Err(PathOf(fs[i]))
  {
    if fs != [] {
      var init := fs[..|fs| - 1];
      CorpusFails(init);
      assert forall k :: 0 <= k < |init| ==> init[k] == fs[k];
      forall i | FirstUnreadable(fs, i) ensures Corpus(fs) == Err(PathOf(fs[i])) {
        if i < |init| {
          assert FirstUnreadable(init, i);
        } else {
          assert Corpus(init).Ok?;
        }
      }
    }
  }

  /** A file that is not named `...rules.toml` contributes nothing, readable or not. */
  lemma IgnoresOtherFiles(before: seq<WalkFile>, f: WalkFile, after: seq<WalkFile>)
    requires !IsRuleFile(f.entry.name)
    ensures Corpus(before + [f] + after) == Corpus(before + after)
  {
    CorpusAppend(before + [f], after);
    CorpusAppend(before, after);
    CorpusAppend(before, [f]);
    CorpusSingle(f);
    if Corpus(before).Ok? {
      assert Corpus(before).value + [] == Corpus(before).value;
    }
  }

  lemma {:induction false} FlattenAppend(a: seq<WalkStep>, b: seq<WalkStep>)
    ensures Flatten(a + b) == Flatten(a) + Flatten(b)
    decreases |b|
  {
    if b == [] {
      assert a + b == a;
      assert Flatten(a) + [] == Flatten(a);
    } else {
      var init, last := b[..|b| - 1], b[|b| - 1];
      assert (a + b)[..|a + b| - 1] == a + init;
      assert (a + b)[|a + b| - 1] == last;
      FlattenAppend(a, init);
      assert Flatten(a + b) == (Flatten(a) + Flatten(init)) + Located(last);
      assert Flatten(b) == Flatten(init) + Located(last);
    }
  }

  // ---------------------------------------------------------------------
  // The loop

  /** Visiting one more file: a kept readable file appends its block, a kept unreadable one fails. */
  lemma VisitFile(visited: seq<WalkFile>, f: WalkFile, acc: string)
    requires Corpus(visited) == Ok(acc)
    ensures !IsRuleFile(f.entry.name) ==> Corpus(visited + [f]) == Ok(acc)
    ensures IsRuleFile(f.entry.name) && f.entry.contents.None? ==>
              Corpus(visited + [f]) == Err(PathOf(f))
    ensures IsRuleFile(f.entry.name) && f.entry.contents.Some? ==>
              Corpus(visited + [f]) == Ok(acc + Block(PathOf(f), StripComments(f.entry.contents.value)))
  {
    assert (visited + [f])[..|visited|] == visited;
    assert acc + [] == acc;
  }

  /** The files of the first `i + 1` directories are those of the first `i`, then the next one's. */
  lemma FlattenStep(walk: seq<WalkStep>, i: nat)
    requires i < |walk|
    ensures Flatten(walk[..i + 1]) == Flatten(walk[..i]) + Located(walk[i])
  {
    assert walk[..i + 1][..i] == walk[..i];
  }

  /** Once the files visited up to the `j`-th of the `i`-th directory fail, the whole walk fails the same way. */
  lemma UnreadableStops(walk: seq<WalkStep>, i: nat, j: nat)
    requires i < |walk| && j < |walk[i].files|
    requires Corpus(Flatten(walk[..i]) + Located(walk[i])[..j + 1]).Err?
    ensures ExamplesText(walk) == Corpus(Flatten(walk[..i]) + Located(walk[i])[..j + 1])
  {
    var here := Located(walk[i]);
    FlattenAround(walk, i, j);
    CorpusAppend(Flatten(walk[..i]) + here[..j + 1], here[j + 1..] + Flatten(walk[i + 1..]));
  }

  /** The walk's files split around the `j`-th file of the `i`-th directory. */
  lemma FlattenAround(walk: seq<WalkStep>, i: nat, j: nat)
    requires i < |walk| && j < |walk[i].files|
    ensures Flatten(walk) == (Flatten(walk[..i]) + Located(walk[i])[..j + 1])
                             + (Located(walk[i])[j + 1..] + Flatten(walk[i + 1..]))
  {
    var front, back := walk[..i + 1], walk[i + 1..];
    var here := Located(walk[i]);
    assert walk == front + back;
    FlattenAppend(front, back);
    FlattenStep(walk, i);
    assert here == here[..j + 1] + here[j + 1..];
    Regroup4(Flatten(walk[..i]), here[..j + 1], here[j + 1..], Flatten(back));
  }

  lemma Regroup4(a: seq<WalkFile>, b: seq<WalkFile>, c: seq<WalkFile>, d: seq<WalkFile>)
    ensures (a + (b + c)) + d == (a + b) + (c + d)
  {
  }

  /** Visiting the `j`-th file of a directory, in the terms the loop of `GetExamples` uses. */
  lemma VisitNext(visited: seq<WalkFile>, step: WalkStep, j: nat, acc: string)
    requires j < |step.files| && Corpus(visited + Located(step)[..j]) == Ok(acc)
    ensures var file, path := step.files[j], PathJoin(step.root, step.files[j].name);
      (!IsRuleFile(file.name) ==> Corpus(visited + Located(step)[..j + 1]) == Ok(acc)) &&
      (IsRuleFile(file.name) && file.contents.None? ==>
         Corpus(visited + Located(step)[..j + 1]) == Err(path)) &&
      (IsRuleFile(file.name) && file.contents.Some? ==>
         Corpus(visited + Located(step)[..j + 1]) ==
           Ok(acc + Header(path) + Fenced(StripComments(file.contents.value))))
  {
    var f := WalkFile(step.root, step.files[j]);
    LocatedSnoc(visited, step, j);
    VisitFile(visited + Located(step)[..j], f, acc);
    if f.entry.contents.Some? {
      AppendAssociative(acc, Header(PathOf(f)), Fenced(StripComments(f.entry.contents.value)));
    }
  }

  /** The located files up to and including the `j`-th are those before it, then the `j`-th. */
  lemma LocatedSnoc(visited: seq<WalkFile>, step: WalkStep, j: nat)
    requires j < |step.files|
    ensures visited + Located(step)[..j + 1] ==
              (visited + Located(step)[..j]) + [WalkFile(step.root, step.files[j])]
  {
    assert Located(step)[..j + 1] == Located(step)[..j] + [Located(step)[j]];
  }

  lemma AppendAssociative(a: string, b: string, c: string)
    ensures a + (b + c) == a + b + c
  {
  }

  /** `_get_examples`: visit every file of the walk, appending the block of each kept file. */
  method GetExamples(walk: seq<WalkStep>) returns (r: Result<string, string>)
    ensures r == ExamplesText(walk)
  {
    var taskExamples := "";
    for i := 0 to |walk|
      invariant Corpus(Flatten(walk[..i])) == Ok(taskExamples)
    {
      var step := walk[i];
      ghost var visited := Flatten(walk[..i]);
      assert visited + Located(step)[..0] == visited;
      for j := 0 to |step.files|
        invariant Corpus(visited + Located(step)[..j]) == Ok(taskExamples)
      {
        var file := step.files[j];
        VisitNext(visited, step, j, taskExamples);
        if IsRuleFile(file.name) {
          var fileName := PathJoin(step.root, file.name);
          if file.contents.None? {
            UnreadableStops(walk, i, j);
            return Err(fileName);
          }
          var fileContents := StripComments(file.contents.value);
          taskExamples := taskExamples + Header(fileName);
          taskExamples := taskExamples + Fenced(fileContents);
        }
      }
      assert Located(step)[..|step.files|] == Located(step);
      FlattenStep(walk, i);
    }
    assert walk[..|walk|] == walk;
    r := Ok(taskExamples);
  }

  /** The comment line of a two-line rules file is dropped and the code line kept. */
  lemma StripCommentsExample()
    ensures StripComments("# c\nx") == "x"
  {
    SplitPrefix("x", "");
    assert "x" + "" == "x";
    assert Split("") == [""];
    assert Split("x") == ["x"];
    assert "\nx"[1..] == "x";
    assert Split("\nx") == ["", "x"];
    SplitPrefix("# c", "\nx");
    assert "# c" + "\nx" == "# c\nx";
    assert "# c" + "" == "# c";
    assert Split("# c\nx") == ["# c", "x"];
    assert IsComment("# c") && !IsComment("x");
    assert Uncommented(["# c", "x"]) == ["x"];
  }

  lemma HeaderExample()
    ensures Header("r/a/rules.toml") == "<file_name_start> r/a/rules.toml <file_name_end>\n"
  {
  }

  lemma FencedExample()
    ensures Fenced("x") == "```toml x```\n"
  {
  }

  /** The block of the rules file in the example below. */
  lemma BlockExample()
    ensures Block("r/a/rules.toml", "x") == "<file_name_start> r/a/rules.toml <file_name_end>\n```toml x```\n"
  {
    HeaderExample();
    FencedExample();
  }

  /** The rules file of the example below contributes its block; the text file nothing. */
  lemma FileBlocksExample()
    ensures FileBlock(WalkFile("r/a", FileEntry("rules.toml", Some("# c\nx"))))
            == Ok(Block("r/a/rules.toml", "x"))
    ensures FileBlock(WalkFile("r/b", FileEntry("notes.txt", Some("y")))) == Ok("")
  {
    StripCommentsExample();
    assert IsRuleFile("rules.toml");
    assert !IsRuleFile("notes.txt");
    assert PathJoin("r/a", "rules.toml") == "r/a/rules.toml";
  }

  /**
   * Of a rules file holding a comment line and a code line and a text file
   * beside it, only the rules file's code line reaches the corpus.
   */
  lemma OnlyRuleFilesExample()
    ensures ExamplesText([WalkStep("r/a", [FileEntry("rules.toml", Some("# c\nx"))]),
                          WalkStep("r/b", [FileEntry("notes.txt", Some("y"))])])
            == Ok("<file_name_start> r/a/rules.toml <file_name_end>\n```toml x```\n")
  {
    var a := WalkStep("r/a", [FileEntry("rules.toml", Some("# c\nx"))]);
    var b := WalkStep("r/b", [FileEntry("notes.txt", Some("y"))]);
    var fa, fb := WalkFile("r/a", a.files[0]), WalkFile("r/b", b.files[0]);
    assert [a, b][..1] == [a];
    assert Located(a) == [fa];
    assert Located(b) == [fb];
    assert Flatten([a]) == [fa];
    assert Flatten([a, b]) == [fa] + [fb];
    var block := Block("r/a/rules.toml", "x");
    FileBlocksExample();
    BlockExample();
    CorpusAppend([fa], [fb]);
    CorpusSingle(fa);
    CorpusSingle(fb);
    assert block + "" == block;
  }
}
