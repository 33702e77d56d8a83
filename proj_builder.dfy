/**
 * `make_project`: creates the folder tree and the `.tex` sources of a new LaTeX project.
 * The name is sanitised, the configuration resolved and the target checked before the
 * filesystem is touched; then the source's operations run in order and stop at the first
 * error, leaving what was already made.
 */
module ProjBuilder {
  import opened Wrappers
  import opened Strings
  import opened FileSystem
  import Utils
  import Config

  // ---------------------------------------------------------------------------
  // Generated text

  /** The line that includes a chapter in main.tex. */
  function ChapterInput(c: string): string {
    "\\input{chapters/" + c + "}"
  }

  /** The `\input` lines of the chapters, in order, joined by newlines. */
  function InputLines(chapters: seq<string>): string {
    JoinWith(seq(|chapters|, k requires 0 <= k < |chapters| => ChapterInput(chapters[k])), "\n")
  }

  /** The text of a new chapter file: the capitalised name as the chapter title. */
  function ChapterText(c: string): string {
    "\\chapter{" + Capitalize(c) + "}"
  }

  const AbstractText: string := "\\begin{abstract}\n\n\\end{abstract}"

  /** main.tex: the template's placeholders replaced in order, size, then class, then chapters. */
  function MainText(template: string, cfg: Config.Config): string {
    var sized := Replace(template, "<<SIZE>>", ShowInt(cfg.size));
    var classed := Replace(sized, "<<CLAS>>", cfg.clas);
    Replace(classed, "<<CHAPTERS>>", InputLines(cfg.chapters))
  }

  /** Splitting the `\input` block at newlines gives one line per chapter, in config order. */
  lemma InputLinesSplit(chapters: seq<string>)
    requires |chapters| >= 1
    requires forall k :: 0 <= k < |chapters| ==> '\n' !in chapters[k]
    ensures var lines := Split(InputLines(chapters), '\n');
      && |lines| == |chapters|
      && forall k :: 0 <= k < |chapters| ==> lines[k] == ChapterInput(chapters[k])
  {
    var lines := seq(|chapters|, k requires 0 <= k < |chapters| => ChapterInput(chapters[k]));
    forall k | 0 <= k < |chapters| ensures '\n' !in lines[k] {
      assert lines[k] == "\\input{chapters/" + chapters[k] + "}";
    }
    SplitOfJoin(lines, '\n');
  }

  /** A template without placeholders is written as it is. */
  lemma MainTextPlain(template: string, cfg: Config.Config)
    requires !Occurs(template, "<<SIZE>>") && !Occurs(template, "<<CLAS>>") && !Occurs(template, "<<CHAPTERS>>")
    ensures MainText(template, cfg) == template
  {
    ReplaceAbsent(template, "<<SIZE>>", ShowInt(cfg.size));
    ReplaceAbsent(template, "<<CLAS>>", cfg.clas);
    ReplaceAbsent(template, "<<CHAPTERS>>", InputLines(cfg.chapters));
  }

  /** A tag after a stretch without its first character is replaced, and the scan goes on after it. */
  lemma ReplaceTagHit(pre: string, post: string, pat: string, sub: string)
    requires pat != [] && pat[0] !in pre
    ensures Replace(pre + pat + post, pat, sub) == pre + sub + Replace(post, pat, sub)
  {
    ReplaceSkip(pre, pat + post, pat, sub);
    assert pre + pat + post == pre + (pat + post);
    ReplaceHit(post, pat, sub);
  }

  /** The first two characters of a tag opening with "<<" start no occurrence of a "<<" pattern. */
  lemma TagOpening(tag: string, post: string, pat: string, sub: string)
    requires |pat| >= 2 && pat[..2] == "<<"
    requires |tag| >= 3 && tag[..2] == "<<" && tag[2] != '<'
    requires |pat| <= |tag| && tag[..|pat|] != pat
    ensures Replace(tag + post, pat, sub) == [tag[0]] + ([tag[1]] + Replace(tag[2..] + post, pat, sub))
  {
    var rest := tag[1..] + post;
    var more := tag[2..] + post;
    assert tag + post == [tag[0]] + rest;
    assert ([tag[0]] + rest)[..|pat|] == tag[..|pat|];
    ReplaceMiss(tag[0], rest, pat, sub);
    assert rest == [tag[1]] + more;
    assert |pat| <= |rest| ==> rest[..|pat|][1] == tag[2];
    ReplaceMiss(tag[1], more, pat, sub);
  }

  /**
   * A different placeholder tag is kept and the scan goes on after it: both tags open
   * with "<<", the pattern is not a prefix of the tag, and the tag has no further `<`.
   */
  lemma ReplaceKeepsTag(tag: string, post: string, pat: string, sub: string)
    requires |pat| >= 2 && pat[..2] == "<<"
    requires |tag| >= 3 && tag[..2] == "<<" && '<' !in tag[2..]
    requires |pat| <= |tag| && tag[..|pat|] != pat
    ensures Replace(tag + post, pat, sub) == tag + Replace(post, pat, sub)
  {
    assert tag[2] in tag[2..];
    TagOpening(tag, post, pat, sub);
    assert pat[0] == '<';
    ReplaceSkip(tag[2..], post, pat, sub);
    SplitTwo(tag, Replace(post, pat, sub));
  }

  /** A text of at least two characters, followed by `r`, regrouped around its first two. */
  lemma SplitTwo(tag: string, r: string)
    requires |tag| >= 2
    ensures [tag[0]] + ([tag[1]] + (tag[2..] + r)) == tag + r
  {
    assert [tag[0]] + [tag[1]] + tag[2..] == tag;
  }

  /** A different placeholder tag after a stretch without `<` is kept, and the scan goes on after it. */
  lemma ReplaceTagMiss(pre: string, tag: string, post: string, pat: string, sub: string)
    requires |pat| >= 2 && pat[..2] == "<<" && '<' !in pre
    requires |tag| >= 3 && tag[..2] == "<<" && '<' !in tag[2..]
    requires |pat| <= |tag| && tag[..|pat|] != pat
    ensures Replace(pre + tag + post, pat, sub) == pre + tag + Replace(post, pat, sub)
  {
    assert pat[0] == '<';
    ReplaceSkip(pre, tag + post, pat, sub);
    assert pre + tag + post == pre + (tag + post);
    ReplaceKeepsTag(tag, post, pat, sub);
  }

  /** The three placeholder tags open with "<<", hold no further `<`, and none is a prefix of another. */
  lemma TagShapes()
    ensures |"<<SIZE>>"| == 8 && "<<SIZE>>"[..2] == "<<" && '<' !in "<<SIZE>>"[2..]
    ensures |"<<CLAS>>"| == 8 && "<<CLAS>>"[..2] == "<<" && '<' !in "<<CLAS>>"[2..]
    ensures |"<<CHAPTERS>>"| == 12 && "<<CHAPTERS>>"[..2] == "<<" && '<' !in "<<CHAPTERS>>"[2..]
    ensures "<<CLAS>>"[..8] != "<<SIZE>>" && "<<CHAPTERS>>"[..8] != "<<SIZE>>" && "<<CHAPTERS>>"[..8] != "<<CLAS>>"
  {
    assert "<<CLAS>>"[..8][2] != "<<SIZE>>"[2];
    assert "<<CHAPTERS>>"[..8][2] != "<<SIZE>>"[2];
    assert "<<CHAPTERS>>"[..8][3] != "<<CLAS>>"[3];
  }

  /** The size goes where its tag is, in a text holding the tags in the order class, size, chapters. */
  lemma SizeFilled(x: string, y: string, n: string)
    requires '<' !in x && '<' !in y
    ensures Replace("<<CLAS>>" + (x + "<<SIZE>>" + (y + "<<CHAPTERS>>")), "<<SIZE>>", n)
         == "<<CLAS>>" + (x + n + (y + "<<CHAPTERS>>"))
  {
    TagShapes();
    assert "<<CLAS>>" + (x + "<<SIZE>>" + (y + "<<CHAPTERS>>")) == [] + "<<CLAS>>" + (x + "<<SIZE>>" + (y + "<<CHAPTERS>>"));
    ReplaceTagMiss([], "<<CLAS>>", x + "<<SIZE>>" + (y + "<<CHAPTERS>>"), "<<SIZE>>", n);
    ReplaceTagHit(x, y + "<<CHAPTERS>>", "<<SIZE>>", n);
    assert y + "<<CHAPTERS>>" == y + "<<CHAPTERS>>" + [];
    ReplaceTagMiss(y, "<<CHAPTERS>>", [], "<<SIZE>>", n);
    assert Replace([], "<<SIZE>>", n) == [];
  }

  /** The class goes where its tag is, ahead of a text whose only `<` opens the chapters tag. */
  lemma ClassFilled(z: string, clas: string)
    requires '<' !in z
    ensures Replace("<<CLAS>>" + (z + "<<CHAPTERS>>"), "<<CLAS>>", clas) == clas + z + "<<CHAPTERS>>"
  {
    TagShapes();
    assert "<<CLAS>>" + (z + "<<CHAPTERS>>") == [] + "<<CLAS>>" + (z + "<<CHAPTERS>>");
    ReplaceTagHit([], z + "<<CHAPTERS>>", "<<CLAS>>", clas);
    assert z + "<<CHAPTERS>>" == z + "<<CHAPTERS>>" + [];
    ReplaceTagMiss(z, "<<CHAPTERS>>", [], "<<CLAS>>", clas);
    assert Replace([], "<<CLAS>>", clas) == [];
  }

  /** The chapter lines go where their tag is, at the end of a text with no other `<`. */
  lemma ChaptersFilled(w: string, lines: string)
    requires '<' !in w
    ensures Replace(w + "<<CHAPTERS>>", "<<CHAPTERS>>", lines) == w + lines
  {
    assert w + "<<CHAPTERS>>" == w + "<<CHAPTERS>>" + [];
    ReplaceTagHit(w, [], "<<CHAPTERS>>", lines);
    assert Replace([], "<<CHAPTERS>>", lines) == [];
  }

  /** A decimal number has no `<`. */
  lemma ShowIntPlain(n: int)
    ensures '<' !in ShowInt(n)
  {
    var s := ShowInt(n);
    assert forall k :: 0 <= k < |s| ==> s[k] == '-' || IsDigit(s[k]);
  }

  /**
   * A template holding the three tags in the order class, size, chapters, with no other
   * `<`: each value lands where its tag was.
   */
  lemma MainTextOfTags(x: string, y: string, cfg: Config.Config)
    requires '<' !in x && '<' !in y && '<' !in cfg.clas
    ensures MainText("<<CLAS>>" + (x + "<<SIZE>>" + (y + "<<CHAPTERS>>")), cfg)
         == cfg.clas + x + ShowInt(cfg.size) + y + InputLines(cfg.chapters)
  {
    var n := ShowInt(cfg.size);
    ShowIntPlain(cfg.size);
    SizeFilled(x, y, n);
    assert "<<CLAS>>" + (x + n + (y + "<<CHAPTERS>>")) == "<<CLAS>>" + ((x + n + y) + "<<CHAPTERS>>");
    ClassFilled(x + n + y, cfg.clas);
    assert '<' !in cfg.clas + (x + n + y);
    assert cfg.clas + (x + n + y) + "<<CHAPTERS>>" == cfg.clas + x + n + y + "<<CHAPTERS>>";
    ChaptersFilled(cfg.clas + x + n + y, InputLines(cfg.chapters));
  }

  /** The main.tex template of the source's end-to-end test, written around its three tags. */
  const SampleTemplate: string := "<<CLAS>>" + (" document class, size " + "<<SIZE>>" + ("\n" + "<<CHAPTERS>>"))

  /** The source's end-to-end test template: the class, the size and the chapter lines land where their tags were. */
  lemma MainTextSample(cfg: Config.Config)
    requires '<' !in cfg.clas
    ensures MainText(SampleTemplate, cfg)
         == cfg.clas + " document class, size " + ShowInt(cfg.size) + "\n" + InputLines(cfg.chapters)
  {
    MainTextOfTags(" document class, size ", "\n", cfg);
  }

  // ---------------------------------------------------------------------------
  // Filesystem operations

  /** One filesystem call of the scaffolder. */
  datatype Op =
    | MkdirOp(path: Path, parents: bool, existOk: bool)
    | WriteOp(path: Path, text: string)
    | TouchOp(path: Path)
    | CopyOp(src: Path, dst: Path)

  /** The paths whose existing entry an operation may change. */
  function OpTargets(op: Op): set<Path> {
    match op
    case MkdirOp(_, _, _) => {}
    case WriteOp(p, _) => {p}
    case TouchOp(_) => {}
    case CopyOp(src, dst) => if src == [] then {dst} else {dst, dst + [src[|src| - 1]]}
  }

  /** The pathlib or shutil call an operation stands for. */
  function Apply(e: Entries, op: Op): Effect {
    match op
    case MkdirOp(p, parents, existOk) => MkdirStep(e, p, parents, existOk)
    case WriteOp(p, text) => WriteStep(e, p, text)
    case TouchOp(p) => TouchStep(e, p)
    case CopyOp(src, dst) => CopyStep(e, src, dst)
  }

  /**
   * An operation keeps the tree, removes nothing, changes only its targets, and changes
   * nothing when it fails.
   */
  lemma ApplyChanges(e: Entries, op: Op)
    requires Tree(e)
    ensures var r := Apply(e, op);
      && Tree(r.after) && Grows(e, r.after) && ChangesOnly(e, r.after, OpTargets(op))
      && (r.status.Fail? ==> r.after == e)
  {
    match op
    case MkdirOp(p, parents, existOk) => MkdirSpec(e, p, parents, existOk);
    case WriteOp(p, text) => WriteSpec(e, p, text);
    case TouchOp(p) => TouchSpec(e, p);
    case CopyOp(src, dst) =>
      CopySpec(e, src, dst);
      assert CopyTarget(e, src, dst) in OpTargets(op);
  }

  function AllTargets(ops: seq<Op>): set<Path> {
    if ops == [] then {} else OpTargets(ops[0]) + AllTargets(ops[1..])
  }

  /** The operations in order, up to and including the first that fails. */
  function RunOps(e: Entries, ops: seq<Op>): Effect
    decreases |ops|
  {
    if ops == [] then Effect(Pass, e)
    else
      var first := Apply(e, ops[0]);
      if first.status.Fail? then first else RunOps(first.after, ops[1..])
  }

  /** A run keeps the tree, removes nothing and changes nothing but the targets of its operations. */
  lemma {:induction false} RunOpsChanges(e: Entries, ops: seq<Op>)
    requires Tree(e)
    ensures var after := RunOps(e, ops).after;
      Tree(after) && Grows(e, after) && ChangesOnly(e, after, AllTargets(ops))
    decreases |ops|
  {
    if ops != [] {
      var first := Apply(e, ops[0]);
      ApplyChanges(e, ops[0]);
      if first.status.Pass? {
        RunOpsChanges(first.after, ops[1..]);
        ChangesCompose(e, first.after, RunOps(first.after, ops[1..]).after, OpTargets(ops[0]), AllTargets(ops[1..]));
      }
    }
  }

  lemma {:induction false} AllTargetsAppend(a: seq<Op>, b: seq<Op>)
    ensures AllTargets(a + b) == AllTargets(a) + AllTargets(b)
    decreases |a|
  {
    if a != [] {
      assert (a + b)[1..] == a[1..] + b;
      AllTargetsAppend(a[1..], b);
    } else {
      assert a + b == b;
    }
  }

  /** Running `a + b` is running `a`, then `b` from where `a` stopped, unless `a` failed. */
  lemma {:induction false} RunOpsAppend(e: Entries, a: seq<Op>, b: seq<Op>)
    ensures RunOps(e, a + b) == if RunOps(e, a).status.Fail? then RunOps(e, a) else RunOps(RunOps(e, a).after, b)
    decreases |a|
  {
    if a != [] {
      assert (a + b)[0] == a[0];
      assert (a + b)[1..] == a[1..] + b;
      var first := Apply(e, a[0]);
      if first.status.Pass? {
        RunOpsAppend(first.after, a[1..], b);
        assert RunOps(e, a) == RunOps(first.after, a[1..]);
        assert RunOps(e, a + b) == RunOps(first.after, a[1..] + b);
      }
    } else {
      assert a + b == b;
    }
  }

  /** What is left of a run from operation `i` on: that operation, then the rest unless it failed. */
  lemma Step(e: Entries, all: seq<Op>, i: nat)
    requires i < |all|
    ensures RunOps(e, all[i..]) ==
      if Apply(e, all[i]).status.Fail? then Apply(e, all[i]) else RunOps(Apply(e, all[i]).after, all[i + 1..])
  {
    assert all[i..][0] == all[i];
    assert all[i..][1..] == all[i + 1..];
  }

  /** Only directories come out of a run of `mkdir` calls; nothing else changes. */
  lemma {:induction false} MkdirsAddDirs(e: Entries, ops: seq<Op>)
    requires Tree(e) && forall k :: 0 <= k < |ops| ==> ops[k].MkdirOp?
    ensures var after := RunOps(e, ops).after;
      forall q :: q in after ==> if q in e then after[q] == e[q] else after[q] == Dir
    decreases |ops|
  {
    if ops != [] {
      var first := Apply(e, ops[0]);
      ApplyChanges(e, ops[0]);
      MkdirSpec(e, ops[0].path, ops[0].parents, ops[0].existOk);
      if first.status.Pass? {
        MkdirsAddDirs(first.after, ops[1..]);
      }
    }
  }

  /** After a run that passed, every directory it asked for and every file it touched is there. */
  lemma {:induction false} RunOpsMade(e: Entries, ops: seq<Op>, k: nat)
    requires Tree(e) && RunOps(e, ops).status.Pass? && k < |ops| && (ops[k].MkdirOp? || ops[k].TouchOp?)
    ensures ops[k].path in RunOps(e, ops).after
    ensures ops[k].MkdirOp? ==> RunOps(e, ops).after[ops[k].path] == Dir
    decreases |ops|
  {
    var first := Apply(e, ops[0]);
    ApplyChanges(e, ops[0]);
    RunOpsChanges(first.after, ops[1..]);
    if k > 0 {
      RunOpsMade(first.after, ops[1..], k - 1);
    }
  }

  /** `mkdir` and `touch` calls change no existing entry. */
  lemma {:induction false} NoTargets(ops: seq<Op>)
    requires forall k :: 0 <= k < |ops| ==> ops[k].MkdirOp? || ops[k].TouchOp?
    ensures AllTargets(ops) == {}
    decreases |ops|
  {
    if ops != [] {
      NoTargets(ops[1..]);
    }
  }

  /** A `mkdir` without `exist_ok` on a path that is already there makes the run fail. */
  lemma {:induction false} MkdirExistingFails(e: Entries, ops: seq<Op>, k: nat)
    requires Tree(e) && k < |ops| && ops[k].MkdirOp? && !ops[k].existOk && ops[k].path in e
    ensures RunOps(e, ops).status.Fail?
    decreases |ops|
  {
    var first := Apply(e, ops[0]);
    if k > 0 && first.status.Pass? {
      ApplyChanges(e, ops[0]);
      MkdirExistingFails(first.after, ops[1..], k - 1);
    }
  }

  /** Asking for the same directory twice, the second time without `exist_ok`, fails. */
  lemma {:induction false} MkdirTwiceFails(e: Entries, ops: seq<Op>, i: nat, j: nat)
    requires Tree(e) && i < j < |ops| && ops[i].MkdirOp? && ops[j].MkdirOp?
    requires ops[i].path == ops[j].path && !ops[j].existOk
    ensures RunOps(e, ops).status.Fail?
    decreases |ops|
  {
    var first := Apply(e, ops[0]);
    ApplyChanges(e, ops[0]);
    if first.status.Pass? {
      if i == 0 {
        MkdirExistingFails(first.after, ops[1..], j - 1);
      } else {
        MkdirTwiceFails(first.after, ops[1..], i - 1, j - 1);
      }
    }
  }

  /** The paths a run of writes targets are the paths of its writes. */
  lemma {:induction false} WriteTargets(ops: seq<Op>)
    requires forall k :: 0 <= k < |ops| ==> ops[k].WriteOp?
    ensures forall q :: q in AllTargets(ops) ==> exists k :: 0 <= k < |ops| && ops[k].path == q
    decreases |ops|
  {
    if ops != [] {
      WriteTargets(ops[1..]);
      forall q | q in AllTargets(ops) ensures exists k :: 0 <= k < |ops| && ops[k].path == q {
        assert ops[0].WriteOp? && OpTargets(ops[0]) == {ops[0].path};
        if q != ops[0].path {
          assert q in AllTargets(ops[1..]);
          var k :| 0 <= k < |ops[1..]| && ops[1..][k].path == q;
          assert ops[k + 1].path == q;
        }
      }
    }
  }

  /** Writes that agree on shared paths each leave their text, once the run has passed. */
  lemma {:induction false} WritesLand(e: Entries, ops: seq<Op>)
    requires Tree(e) && RunOps(e, ops).status.Pass?
    requires forall k :: 0 <= k < |ops| ==> ops[k].WriteOp?
    requires forall i, j :: 0 <= i < |ops| && 0 <= j < |ops| && ops[i].path == ops[j].path ==> ops[i].text == ops[j].text
    ensures forall k :: 0 <= k < |ops| ==>
      ops[k].path in RunOps(e, ops).after && RunOps(e, ops).after[ops[k].path] == File(ops[k].text)
    decreases |ops|
  {
    if ops != [] {
      var first := Apply(e, ops[0]);
      var rest := ops[1..];
      var after := RunOps(e, ops).after;
      ApplyChanges(e, ops[0]);
      WritesLand(first.after, rest);
      RunOpsChanges(first.after, rest);
      WriteTargets(rest);
      forall k | 0 <= k < |ops| ensures ops[k].path in after && after[ops[k].path] == File(ops[k].text) {
        if k == 0 {
          if ops[0].path in AllTargets(rest) {
            var j :| 0 <= j < |rest| && rest[j].path == ops[0].path;
            assert ops[j + 1].path == ops[0].path;
          }
        } else {
          assert rest[k - 1] == ops[k];
        }
      }
    }
  }

  // ---------------------------------------------------------------------------
  // The project

  /** The exceptions `make_project` lets through, by where they arise. */
  datatype ProjectError =
    | BadName(nameError: Utils.NameError)
    | BadConfig(configError: Config.ConfigError)
    | ProjectExists(path: Path)
    | NoWritePermission(path: Path)
    | Os(osError: OsError)

  /**
   * What the process brings along: the working directory, the package directory that
   * holds `default.ini`, the parsed defaults and user file, and the writable directories.
   */
  datatype Env = Env(cwd: Path, moduleDir: Path, defaults: Config.Ini, user: Config.Ini, writable: set<Path>)

  /** The directory the project goes in: the working directory, or `proj_path` taken from it. */
  function ProjectBase(projPath: Option<string>, cwd: Path): Path {
    match projPath
    case None => cwd
    case Some(s) => Join(cwd, s)
  }

  /** pathlib's `parent`; "/" is its own parent. */
  function ParentOf(p: Path): Path {
    if p == [] then [] else p[..|p| - 1]
  }

  /** `os.access(p, os.W_OK)`: false for a path that does not exist. */
  predicate Writable(e: Entries, env: Env, p: Path) {
    p in e && p in env.writable
  }

  /** The target directory and the configuration, once every check has passed. */
  datatype Plan = Plan(root: Path, cfg: Config.Config)

  /**
   * The checks before the first change, in the source's order: the name, the
   * configuration, a target that does not exist yet, and a writable parent.
   */
  function Prepare(e: Entries, env: Env, projName: string, projPath: Option<string>, cfgPath: Option<string>)
    : Result<Plan, ProjectError>
  {
    match Utils.SafeNameSpec(projName)
    case Failure(err) => Failure(BadName(err))
    case Success(name) =>
      match Config.ResolveConfig(cfgPath, env.moduleDir, env.cwd, e.Keys, env.defaults, env.user)
      case Failure(err) => Failure(BadConfig(err))
      case Success(cfg) =>
        var root := Join(ProjectBase(projPath, env.cwd), name);
        if root in e then Failure(ProjectExists(root))
        else if !Writable(e, env, ParentOf(root)) then Failure(NoWritePermission(root))
        else Success(Plan(root, cfg))
  }

  /** The one-component names the source joins onto a path. */
  const FixedNames: seq<string> := ["chapters", "main.tex", "abstract.tex", "titlepage.tex", "pak.tex", "literature.bib"]

  /** Joining a fixed name appends it as one component (the model writes the appended form). */
  lemma FixedNameAppends(p: Path, s: string)
    requires s in FixedNames
    ensures Join(p, s) == p + [s]
  {
    assert '/' !in s && s != "" && s != ".";
    JoinName(p, s);
  }

  /** The one fixed path with two components. */
  lemma AppendixName(p: Path)
    ensures Join(p, "chapters/appendix.tex") == p + ["chapters", "appendix.tex"]
  {
    assert "chapters/appendix.tex" == "chapters" + "/" + "appendix.tex";
    JoinTwoNames(p, "chapters", "appendix.tex");
  }

  function ChaptersDir(root: Path): Path {
    root + ["chapters"]
  }

  /** One `mkdir(parents=True)` per configured folder, in order. */
  function FolderOps(plan: Plan): seq<Op> {
    var folders := plan.cfg.folders;
    seq(|folders|, k requires 0 <= k < |folders| => MkdirOp(Join(plan.root, folders[k]), true, false))
  }

  /** One chapter file per configured chapter, in order. */
  function ChapterOps(plan: Plan): seq<Op> {
    var chapters := plan.cfg.chapters;
    seq(|chapters|, k requires 0 <= k < |chapters| =>
      WriteOp(Join(ChaptersDir(plan.root), chapters[k] + ".tex"), ChapterText(chapters[k])))
  }

  /** The files that are touched, as components below the project root. */
  const Touched: seq<Path> := [["pak.tex"], ["literature.bib"], ["chapters", "appendix.tex"]]

  function TouchOps(root: Path): seq<Op> {
    seq(|Touched|, k requires 0 <= k < |Touched| => TouchOp(root + Touched[k]))
  }

  /** main.tex, then the chapters directory. */
  function MainOps(plan: Plan, template: string): seq<Op> {
    [WriteOp(plan.root + ["main.tex"], MainText(template, plan.cfg)), MkdirOp(ChaptersDir(plan.root), true, true)]
  }

  /** The abstract, then the title page copied from the templates. */
  function FixedOps(plan: Plan): seq<Op> {
    [WriteOp(ChaptersDir(plan.root) + ["abstract.tex"], AbstractText),
     CopyOp(plan.cfg.tempPath + ["titlepage.tex"], ChaptersDir(plan.root) + ["titlepage.tex"])]
  }

  /** Continue with `ops` after `r`, unless `r` failed. */
  function Then(r: Effect, ops: seq<Op>): Effect {
    if r.status.Fail? then r else RunOps(r.after, ops)
  }

  /**
   * The filesystem part of `make_project`: the folders, the template read, main.tex and
   * the chapters directory, the chapter files, the touched files, the abstract and the
   * title page. The first error stops it and what was made stays.
   */
  function Scaffold(e: Entries, plan: Plan): Effect {
    var made := RunOps(e, FolderOps(plan));
    if made.status.Fail? then made
    else
      match ReadResult(made.after, plan.cfg.tempPath + ["main.tex"])
      case Failure(err) => Effect(Fail(err), made.after)
      case Success(template) =>
        var started := RunOps(made.after, MainOps(plan, template));
        var written := Then(started, ChapterOps(plan));
        var touched := Then(written, TouchOps(plan.root));
        Then(touched, FixedOps(plan))
  }

  /** How a call ends, and the filesystem it leaves. */
  datatype Run = Run(status: Outcome<ProjectError>, after: Entries)

  /** What `make_project` does: the checks, then the scaffold if they pass. */
  function MakeProjectSpec(e: Entries, env: Env, projName: string, projPath: Option<string>, cfgPath: Option<string>)
    : Run
  {
    match Prepare(e, env, projName, projPath, cfgPath)
    case Failure(err) => Run(Fail(err), e)
    case Success(plan) =>
      var s := Scaffold(e, plan);
      Run(if s.status.Fail? then Fail(Os(s.status.error)) else Pass, s.after)
  }

  /** The `mkdir` loop over the configured folders. */
  method CreateFolders(fs: FileSystem, plan: Plan) returns (st: Outcome<OsError>)
    requires fs.Valid()
    modifies fs
    ensures fs.Valid()
    ensures Effect(st, fs.entries) == RunOps(old(fs.entries), FolderOps(plan))
  {
    var folderOps := FolderOps(plan);
    assert folderOps[0..] == folderOps;
    for i := 0 to |plan.cfg.folders|
      invariant fs.Valid()
      invariant RunOps(old(fs.entries), folderOps) == RunOps(fs.entries, folderOps[i..])
    {
      Step(fs.entries, folderOps, i);
      st := fs.Mkdir(Join(plan.root, plan.cfg.folders[i]), true, false);
      if st.Fail? {
        return;
      }
    }
    assert folderOps[|plan.cfg.folders|..] == [];
    st := Pass;
  }

  /** The write loop over the configured chapters. */
  method WriteChapters(fs: FileSystem, plan: Plan) returns (st: Outcome<OsError>)
    requires fs.Valid()
    modifies fs
    ensures fs.Valid()
    ensures Effect(st, fs.entries) == RunOps(old(fs.entries), ChapterOps(plan))
  {
    var chapterOps := ChapterOps(plan);
    assert chapterOps[0..] == chapterOps;
    for i := 0 to |plan.cfg.chapters|
      invariant fs.Valid()
      invariant RunOps(old(fs.entries), chapterOps) == RunOps(fs.entries, chapterOps[i..])
    {
      var file := plan.cfg.chapters[i];
      Step(fs.entries, chapterOps, i);
      st := fs.WriteText(Join(ChaptersDir(plan.root), file + ".tex"), ChapterText(file));
      if st.Fail? {
        return;
      }
    }
    assert chapterOps[|plan.cfg.chapters|..] == [];
    st := Pass;
  }

  /** The `touch` loop over the fixed files. */
  method TouchFiles(fs: FileSystem, root: Path) returns (st: Outcome<OsError>)
    requires fs.Valid()
    modifies fs
    ensures fs.Valid()
    ensures Effect(st, fs.entries) == RunOps(old(fs.entries), TouchOps(root))
  {
    var touchOps := TouchOps(root);
    assert touchOps[0..] == touchOps;
    var texs := Touched;
    for i := 0 to |texs|
      invariant fs.Valid()
      invariant RunOps(old(fs.entries), touchOps) == RunOps(fs.entries, touchOps[i..])
    {
      Step(fs.entries, touchOps, i);
      st := fs.Touch(root + texs[i]);
      if st.Fail? {
        return;
      }
    }
    assert touchOps[|texs|..] == [];
    st := Pass;
  }

  /** main.tex's text: `main` rebound by the three replacements in turn. */
  method RenderMain(template: string, cfg: Config.Config) returns (main: string)
    ensures main == MainText(template, cfg)
  {
    main := template;
    main := Replace(main, "<<SIZE>>", ShowInt(cfg.size));
    main := Replace(main, "<<CLAS>>", cfg.clas);
    var chapters := InputLines(cfg.chapters);
    main := Replace(main, "<<CHAPTERS>>", chapters);
  }

  /** main.tex from the template, then the chapters directory. */
  method WriteMain(fs: FileSystem, plan: Plan, template: string) returns (st: Outcome<OsError>)
    requires fs.Valid()
    modifies fs
    ensures fs.Valid()
    ensures Effect(st, fs.entries) == RunOps(old(fs.entries), MainOps(plan, template))
  {
    var main := RenderMain(template, plan.cfg);
    var mainOps := MainOps(plan, template);
    assert mainOps[0..] == mainOps;
    Step(fs.entries, mainOps, 0);
    st := fs.WriteText(plan.root + ["main.tex"], main);
    if st.Fail? {
      return;
    }
    Step(fs.entries, mainOps, 1);
    st := fs.Mkdir(ChaptersDir(plan.root), true, true);
    assert mainOps[2..] == [];
  }

  /** The abstract, then the title page. */
  method WriteFixed(fs: FileSystem, plan: Plan) returns (st: Outcome<OsError>)
    requires fs.Valid()
    modifies fs
    ensures fs.Valid()
    ensures Effect(st, fs.entries) == RunOps(old(fs.entries), FixedOps(plan))
  {
    var fixedOps := FixedOps(plan);
    assert fixedOps[0..] == fixedOps;
    Step(fs.entries, fixedOps, 0);
    st := fs.WriteText(ChaptersDir(plan.root) + ["abstract.tex"], AbstractText);
    if st.Fail? {
      return;
    }
    Step(fs.entries, fixedOps, 1);
    st := fs.Copy(plan.cfg.tempPath + ["titlepage.tex"], ChaptersDir(plan.root) + ["titlepage.tex"]);
    assert fixedOps[2..] == [];
  }

  /** Everything from the template read on, once the folders exist. */
  method WriteFiles(fs: FileSystem, plan: Plan) returns (st: Outcome<OsError>)
    requires fs.Valid()
    modifies fs
    ensures fs.Valid()
    ensures Effect(st, fs.entries) ==
      match ReadResult(old(fs.entries), plan.cfg.tempPath + ["main.tex"])
      case Failure(err) => Effect(Fail(err), old(fs.entries))
      case Success(template) =>
        Then(Then(Then(RunOps(old(fs.entries), MainOps(plan, template)), ChapterOps(plan)), TouchOps(plan.root)), FixedOps(plan))
  {
    var read := fs.ReadText(plan.cfg.tempPath + ["main.tex"]);
    if read.Failure? {
      return Fail(read.error);
    }
    st := WriteMain(fs, plan, read.value);
    if st.Fail? {
      return;
    }
    st := WriteChapters(fs, plan);
    if st.Fail? {
      return;
    }
    st := TouchFiles(fs, plan.root);
    if st.Fail? {
      return;
    }
    st := WriteFixed(fs, plan);
  }

  /**
   * `make_project` as the source runs it: the checks, then one filesystem call after
   * another on `fs`.
   */
  method MakeProject(fs: FileSystem, env: Env, projName: string, projPath: Option<string>, cfgPath: Option<string>)
    returns (outcome: Outcome<ProjectError>)
    requires fs.Valid()
    modifies fs
    ensures fs.Valid()
    ensures Run(outcome, fs.entries) == MakeProjectSpec(old(fs.entries), env, projName, projPath, cfgPath)
  {
    var named := Utils.SafeName(projName);
    if named.Failure? {
      return Fail(BadName(named.error));
    }
    var name := named.value;
    var got := Config.GetConfig(cfgPath, env.moduleDir, env.cwd, fs.entries.Keys, env.defaults, env.user);
    if got.Failure? {
      return Fail(BadConfig(got.error));
    }
    var cfg := got.value;
    var root := Join(ProjectBase(projPath, env.cwd), name);
    if fs.Exists(root) {
      return Fail(ProjectExists(root));
    }
    if !(fs.Exists(ParentOf(root)) && ParentOf(root) in env.writable) {
      return Fail(NoWritePermission(root));
    }
    var plan := Plan(root, cfg);
    assert Prepare(old(fs.entries), env, projName, projPath, cfgPath) == Success(plan);
    var st := CreateFolders(fs, plan);
    if st.Fail? {
      return Fail(Os(st.error));
    }
    st := WriteFiles(fs, plan);
    outcome := if st.Fail? then Fail(Os(st.error)) else Pass;
  }

  // ---------------------------------------------------------------------------
  // Properties of a call

  /** A chapter name without a slash gives one file directly in the chapters directory. */
  lemma ChapterPath(root: Path, c: string)
    requires '/' !in c
    ensures Join(ChaptersDir(root), c + ".tex") == ChaptersDir(root) + [c + ".tex"]
  {
    assert '/' !in c + ".tex";
    assert |c + ".tex"| >= 4;
    JoinName(ChaptersDir(root), c + ".tex");
  }

  /** The filesystem after each stage of a scaffold, and the template it read. */
  datatype Stages = Stages(made: Entries, template: string, main: Entries, chapters: Entries, touched: Entries)

  /** The intermediate states `Scaffold` passes through, as far as its stages run. */
  function StagesOf(e: Entries, plan: Plan): Stages {
    var made := RunOps(e, FolderOps(plan)).after;
    var template := match ReadResult(made, plan.cfg.tempPath + ["main.tex"])
      case Success(t) => t
      case Failure(_) => "";
    var main := RunOps(made, MainOps(plan, template)).after;
    var chapters := RunOps(main, ChapterOps(plan)).after;
    Stages(made, template, main, chapters, RunOps(chapters, TouchOps(plan.root)).after)
  }

  /** The stages of a scaffold that passed, each of which passed. */
  lemma ScaffoldStages(e: Entries, plan: Plan)
    requires Tree(e) && Scaffold(e, plan).status.Pass?
    ensures var st := StagesOf(e, plan);
      && RunOps(e, FolderOps(plan)) == Effect(Pass, st.made) && Tree(st.made)
      && ReadResult(st.made, plan.cfg.tempPath + ["main.tex"]) == Success(st.template)
      && RunOps(st.made, MainOps(plan, st.template)) == Effect(Pass, st.main) && Tree(st.main)
      && RunOps(st.main, ChapterOps(plan)) == Effect(Pass, st.chapters) && Tree(st.chapters)
      && RunOps(st.chapters, TouchOps(plan.root)) == Effect(Pass, st.touched) && Tree(st.touched)
      && Scaffold(e, plan) == RunOps(st.touched, FixedOps(plan))
  {
    var st := StagesOf(e, plan);
    RunOpsChanges(e, FolderOps(plan));
    RunOpsChanges(st.made, MainOps(plan, st.template));
    RunOpsChanges(st.main, ChapterOps(plan));
    RunOpsChanges(st.chapters, TouchOps(plan.root));
  }

  /** An entry outside the targets of a run keeps its value. */
  lemma KeepsEntry(e: Entries, ops: seq<Op>, q: Path)
    requires Tree(e) && q in e && q !in AllTargets(ops)
    ensures q in RunOps(e, ops).after && RunOps(e, ops).after[q] == e[q]
  {
    RunOpsChanges(e, ops);
  }

  /** An entry survives a run, as a directory if it was one. */
  lemma Persists(e: Entries, ops: seq<Op>, q: Path)
    requires Tree(e) && q in e
    ensures q in RunOps(e, ops).after && (RunOps(e, ops).after[q] == Dir <==> e[q] == Dir)
  {
    RunOpsChanges(e, ops);
  }

  /** The same through `Then`, which may not run at all. */
  lemma PersistsThen(r: Effect, ops: seq<Op>, q: Path)
    requires Tree(r.after) && q in r.after
    ensures q in Then(r, ops).after && (Then(r, ops).after[q] == Dir <==> r.after[q] == Dir)
  {
    if r.status.Pass? {
      Persists(r.after, ops, q);
    }
  }

  /** What the scaffold's last stage may change: the abstract and the two possible copy targets. */
  lemma FixedTargets(plan: Plan)
    ensures var cd := ChaptersDir(plan.root);
      AllTargets(FixedOps(plan)) == {cd + ["abstract.tex"], cd + ["titlepage.tex"], cd + ["titlepage.tex", "titlepage.tex"]}
  {
    var cd := ChaptersDir(plan.root);
    var fixed := FixedOps(plan);
    var src := plan.cfg.tempPath + ["titlepage.tex"];
    assert src[|src| - 1] == "titlepage.tex";
    assert fixed[1] == CopyOp(src, cd + ["titlepage.tex"]);
    assert cd + ["titlepage.tex"] + ["titlepage.tex"] == cd + ["titlepage.tex", "titlepage.tex"];
    assert OpTargets(fixed[1]) == {cd + ["titlepage.tex"], cd + ["titlepage.tex", "titlepage.tex"]};
    assert fixed[1..][0] == fixed[1] && fixed[1..][1..] == [];
    assert AllTargets(fixed[1..]) == OpTargets(fixed[1]);
    assert AllTargets(fixed) == OpTargets(fixed[0]) + AllTargets(fixed[1..]);
  }

  /** Every chapter file lies directly in the chapters directory, when no chapter name has a slash. */
  lemma ChapterTargets(plan: Plan)
    requires forall c :: c in plan.cfg.chapters ==> '/' !in c
    ensures forall q :: q in AllTargets(ChapterOps(plan)) ==>
      exists k :: 0 <= k < |plan.cfg.chapters| && q == ChaptersDir(plan.root) + [plan.cfg.chapters[k] + ".tex"]
  {
    var chapterOps := ChapterOps(plan);
    WriteTargets(chapterOps);
    forall k | 0 <= k < |plan.cfg.chapters|
      ensures chapterOps[k].path == ChaptersDir(plan.root) + [plan.cfg.chapters[k] + ".tex"]
    {
      ChapterPath(plan.root, plan.cfg.chapters[k]);
    }
  }

  /** The scaffold never removes an entry or turns a directory into a file, whether it passes or not. */
  lemma ScaffoldGrows(e: Entries, plan: Plan)
    requires Tree(e)
    ensures Grows(e, Scaffold(e, plan).after)
  {
    var made := RunOps(e, FolderOps(plan));
    RunOpsChanges(e, FolderOps(plan));
    if made.status.Pass? {
      var read := ReadResult(made.after, plan.cfg.tempPath + ["main.tex"]);
      if read.Success? {
        var main := RunOps(made.after, MainOps(plan, read.value));
        RunOpsChanges(made.after, MainOps(plan, read.value));
        if main.status.Pass? {
          var chapters := RunOps(main.after, ChapterOps(plan));
          RunOpsChanges(main.after, ChapterOps(plan));
          if chapters.status.Pass? {
            var touched := RunOps(chapters.after, TouchOps(plan.root));
            RunOpsChanges(chapters.after, TouchOps(plan.root));
            if touched.status.Pass? {
              RunOpsChanges(touched.after, FixedOps(plan));
            }
          }
        }
      }
    }
  }

  /** A directory present after the folder loop is still one when the scaffold ends. */
  lemma DirStays(e: Entries, plan: Plan, q: Path)
    requires Tree(e) && RunOps(e, FolderOps(plan)).status.Pass?
    requires q in RunOps(e, FolderOps(plan)).after && RunOps(e, FolderOps(plan)).after[q] == Dir
    ensures q in Scaffold(e, plan).after && Scaffold(e, plan).after[q] == Dir
  {
    var made := RunOps(e, FolderOps(plan)).after;
    var read := ReadResult(made, plan.cfg.tempPath + ["main.tex"]);
    if read.Success? {
      RunOpsChanges(e, FolderOps(plan));
      var main := RunOps(made, MainOps(plan, read.value));
      Persists(made, MainOps(plan, read.value), q);
      RunOpsChanges(made, MainOps(plan, read.value));
      var chapters := Then(main, ChapterOps(plan));
      PersistsThen(main, ChapterOps(plan), q);
      if main.status.Pass? {
        RunOpsChanges(main.after, ChapterOps(plan));
      }
      var touched := Then(chapters, TouchOps(plan.root));
      PersistsThen(chapters, TouchOps(plan.root), q);
      if chapters.status.Pass? {
        RunOpsChanges(chapters.after, TouchOps(plan.root));
      }
      PersistsThen(touched, FixedOps(plan), q);
    }
  }

  /** Once the folder loop has passed, its folders stay, however the rest ends: nothing is rolled back. */
  lemma ScaffoldKeepsFolders(e: Entries, plan: Plan)
    requires Tree(e) && RunOps(e, FolderOps(plan)).status.Pass?
    ensures var after := Scaffold(e, plan).after;
      forall k :: 0 <= k < |plan.cfg.folders| ==>
        Join(plan.root, plan.cfg.folders[k]) in after && after[Join(plan.root, plan.cfg.folders[k])] == Dir
  {
    forall k | 0 <= k < |plan.cfg.folders|
      ensures Join(plan.root, plan.cfg.folders[k]) in Scaffold(e, plan).after
      ensures Scaffold(e, plan).after[Join(plan.root, plan.cfg.folders[k])] == Dir
    {
      RunOpsMade(e, FolderOps(plan), k);
      DirStays(e, plan, Join(plan.root, plan.cfg.folders[k]));
    }
  }

  /** The template main.tex read after the folder loop is a file that was there from the start. */
  lemma TemplateFromStart(e: Entries, plan: Plan)
    requires Tree(e) && RunOps(e, FolderOps(plan)).status.Pass?
    requires ReadResult(RunOps(e, FolderOps(plan)).after, plan.cfg.tempPath + ["main.tex"]).Success?
    ensures var tmpl := plan.cfg.tempPath + ["main.tex"];
      tmpl in e && e[tmpl] == RunOps(e, FolderOps(plan)).after[tmpl]
  {
    MkdirsAddDirs(e, FolderOps(plan));
  }

  /**
   * Without a main.tex template file the call stops after the folder loop; it fails, and
   * what the folder loop made stays as it is.
   */
  lemma MissingTemplateStops(e: Entries, plan: Plan)
    requires Tree(e)
    requires var tmpl := plan.cfg.tempPath + ["main.tex"]; tmpl !in e || e[tmpl] == Dir
    ensures var r := Scaffold(e, plan);
      && r.status.Fail?
      && (RunOps(e, FolderOps(plan)).status.Pass? ==> r.after == RunOps(e, FolderOps(plan)).after)
  {
    if RunOps(e, FolderOps(plan)).status.Pass? {
      if ReadResult(RunOps(e, FolderOps(plan)).after, plan.cfg.tempPath + ["main.tex"]).Success? {
        TemplateFromStart(e, plan);
      }
    }
  }

  /** Two configured folders that name the same directory make the call fail. */
  lemma DuplicateFolderFails(e: Entries, plan: Plan, i: nat, j: nat)
    requires Tree(e) && i < j < |plan.cfg.folders|
    requires Join(plan.root, plan.cfg.folders[i]) == Join(plan.root, plan.cfg.folders[j])
    ensures Scaffold(e, plan).status.Fail?
  {
    MkdirTwiceFails(e, FolderOps(plan), i, j);
  }

  /**
   * After the last stage has passed: the abstract holds its fixed text (the copy after it
   * does not overwrite it), the title page exists, the template's title page was a file,
   * and a title page that is not a directory holds the template's text.
   */
  lemma FixedWritten(touched: Entries, plan: Plan)
    requires Tree(touched) && RunOps(touched, FixedOps(plan)).status.Pass?
    ensures var after := RunOps(touched, FixedOps(plan)).after;
      var cd := ChaptersDir(plan.root);
      var src := plan.cfg.tempPath + ["titlepage.tex"];
      var dst := cd + ["titlepage.tex"];
      && cd + ["abstract.tex"] in after && after[cd + ["abstract.tex"]] == File(AbstractText)
      && dst in after
      && src in touched && touched[src].File?
      && (dst !in touched || touched[dst].File? ==> after[dst] == touched[src])
  {
    var fixed := FixedOps(plan);
    var cd := ChaptersDir(plan.root);
    var abs := cd + ["abstract.tex"];
    var src := plan.cfg.tempPath + ["titlepage.tex"];
    var dst := cd + ["titlepage.tex"];
    var first := Apply(touched, fixed[0]);
    ApplyChanges(touched, fixed[0]);
    WriteSpec(touched, abs, AbstractText);
    assert first.status.Pass?;
    assert fixed[1..][0] == fixed[1] && fixed[1..][1..] == [];
    assert RunOps(touched, fixed) == RunOps(first.after, fixed[1..]);
    assert RunOps(first.after, fixed[1..]).after == Apply(first.after, fixed[1]).after;
    CopySpec(first.after, src, dst);
    assert abs[|cd|] == "abstract.tex" && dst[|cd|] == "titlepage.tex";
    assert src[|src| - 1] == "titlepage.tex" && abs[|abs| - 1] == "abstract.tex";
    assert abs != dst + ["titlepage.tex"] by {
      assert |abs| != |dst + ["titlepage.tex"]|;
    }
  }

  /**
   * After a scaffold that passed: the project folder, every configured folder and the
   * chapters directory are directories, the touched files exist, the abstract holds its
   * fixed text, the title page exists, and the main.tex template was a file from the start.
   */
  lemma ScaffoldLayout(e: Entries, plan: Plan)
    requires Tree(e) && Scaffold(e, plan).status.Pass?
    ensures var after := Scaffold(e, plan).after;
      var cd := ChaptersDir(plan.root);
      var tmpl := plan.cfg.tempPath + ["main.tex"];
      && (forall k :: 0 <= k < |plan.cfg.folders| ==>
            Join(plan.root, plan.cfg.folders[k]) in after && after[Join(plan.root, plan.cfg.folders[k])] == Dir)
      && plan.root in after && after[plan.root] == Dir
      && cd in after && after[cd] == Dir
      && (forall k :: 0 <= k < |Touched| ==> plan.root + Touched[k] in after)
      && cd + ["abstract.tex"] in after && after[cd + ["abstract.tex"]] == File(AbstractText)
      && cd + ["titlepage.tex"] in after
      && tmpl in e && e[tmpl].File?
  {
    ScaffoldStages(e, plan);
    var st := StagesOf(e, plan);
    var made, template, main, chapters, touched := st.made, st.template, st.main, st.chapters, st.touched;
    var after := Scaffold(e, plan).after;
    var cd := ChaptersDir(plan.root);
    ScaffoldKeepsFolders(e, plan);
    TemplateFromStart(e, plan);
    RunOpsMade(made, MainOps(plan, template), 1);
    Persists(main, ChapterOps(plan), cd);
    Persists(chapters, TouchOps(plan.root), cd);
    Persists(touched, FixedOps(plan), cd);
    forall k | 0 <= k < |Touched| ensures plan.root + Touched[k] in after {
      RunOpsMade(chapters, TouchOps(plan.root), k);
      Persists(touched, FixedOps(plan), plan.root + Touched[k]);
    }
    RunOpsChanges(touched, FixedOps(plan));
    AncestorsAreDirs(after, cd, |plan.root|);
    assert cd[..|plan.root|] == plan.root;
    FixedWritten(touched, plan);
  }

  /** Suffixes cancel. */
  lemma SuffixCancel(a: string, b: string, s: string)
    requires a + s == b + s
    ensures a == b
  {
    assert a == (a + s)[..|a|];
    assert b == (b + s)[..|b|];
  }

  /** main.tex holds the rendered template once the first stage after the read has passed. */
  lemma MainWritten(made: Entries, plan: Plan, template: string)
    requires Tree(made) && RunOps(made, MainOps(plan, template)).status.Pass?
    ensures var mainTex := plan.root + ["main.tex"];
      mainTex in RunOps(made, MainOps(plan, template)).after
      && RunOps(made, MainOps(plan, template)).after[mainTex] == File(MainText(template, plan.cfg))
  {
    var mainOps := MainOps(plan, template);
    var w := Apply(made, mainOps[0]);
    ApplyChanges(made, mainOps[0]);
    assert RunOps(made, mainOps) == RunOps(w.after, mainOps[1..]);
    NoTargets(mainOps[1..]);
    KeepsEntry(w.after, mainOps[1..], plan.root + ["main.tex"]);
  }

  /** With slash-free names, every chapter file holds its heading once the chapter loop has passed. */
  lemma ChaptersWritten(main: Entries, plan: Plan)
    requires Tree(main) && RunOps(main, ChapterOps(plan)).status.Pass?
    requires forall c :: c in plan.cfg.chapters ==> '/' !in c
    ensures var after := RunOps(main, ChapterOps(plan)).after;
      forall k :: 0 <= k < |plan.cfg.chapters| ==>
        var path := ChaptersDir(plan.root) + [plan.cfg.chapters[k] + ".tex"];
        path in after && after[path] == File(ChapterText(plan.cfg.chapters[k]))
  {
    var chapterOps := ChapterOps(plan);
    var names := plan.cfg.chapters;
    var cd := ChaptersDir(plan.root);
    forall k | 0 <= k < |names| ensures chapterOps[k].path == cd + [names[k] + ".tex"] {
      ChapterPath(plan.root, names[k]);
    }
    forall i, j | 0 <= i < |chapterOps| && 0 <= j < |chapterOps| && chapterOps[i].path == chapterOps[j].path
      ensures chapterOps[i].text == chapterOps[j].text
    {
      assert chapterOps[i].path[|cd|] == names[i] + ".tex";
      SuffixCancel(names[i], names[j], ".tex");
    }
    WritesLand(main, chapterOps);
  }

  /** A chapter other than the abstract and the title page is not a target of the last stage. */
  lemma ChapterNotFixed(plan: Plan, c: string)
    requires c != "abstract" && c != "titlepage"
    ensures ChaptersDir(plan.root) + [c + ".tex"] !in AllTargets(FixedOps(plan))
  {
    var cd := ChaptersDir(plan.root);
    FixedTargets(plan);
    if cd + [c + ".tex"] == cd + ["abstract.tex"] {
      assert (cd + [c + ".tex"])[|cd|] == c + ".tex";
      SuffixCancel(c, "abstract", ".tex");
    }
    if cd + [c + ".tex"] == cd + ["titlepage.tex"] {
      assert (cd + [c + ".tex"])[|cd|] == c + ".tex";
      SuffixCancel(c, "titlepage", ".tex");
    }
    assert |cd + [c + ".tex"]| != |cd + ["titlepage.tex", "titlepage.tex"]|;
  }

  /**
   * After a scaffold that passed, with chapter names free of slashes: main.tex holds the
   * template rendered with the configuration, and each chapter file other than the abstract
   * and the title page holds its chapter heading.
   */
  lemma ScaffoldTexts(e: Entries, plan: Plan)
    requires Tree(e) && Scaffold(e, plan).status.Pass?
    requires forall c :: c in plan.cfg.chapters ==> '/' !in c
    ensures var after := Scaffold(e, plan).after;
      var tmpl := plan.cfg.tempPath + ["main.tex"];
      var mainTex := plan.root + ["main.tex"];
      && tmpl in e && e[tmpl].File?
      && mainTex in after && after[mainTex] == File(MainText(e[tmpl].content, plan.cfg))
      && forall c :: c in plan.cfg.chapters && c != "abstract" && c != "titlepage" ==>
           ChaptersDir(plan.root) + [c + ".tex"] in after
           && after[ChaptersDir(plan.root) + [c + ".tex"]] == File(ChapterText(c))
  {
    ScaffoldStages(e, plan);
    var st := StagesOf(e, plan);
    var made, template, main, chapters, touched := st.made, st.template, st.main, st.chapters, st.touched;
    var mainTex := plan.root + ["main.tex"];
    TemplateFromStart(e, plan);
    MainWritten(made, plan, template);
    ChapterTargets(plan);
    KeepsEntry(main, ChapterOps(plan), mainTex);
    NoTargets(TouchOps(plan.root));
    KeepsEntry(chapters, TouchOps(plan.root), mainTex);
    FixedTargets(plan);
    KeepsEntry(touched, FixedOps(plan), mainTex);
    ChaptersWritten(main, plan);
    forall c | c in plan.cfg.chapters && c != "abstract" && c != "titlepage"
      ensures ChaptersDir(plan.root) + [c + ".tex"] in Scaffold(e, plan).after
      ensures Scaffold(e, plan).after[ChaptersDir(plan.root) + [c + ".tex"]] == File(ChapterText(c))
    {
      var path := ChaptersDir(plan.root) + [c + ".tex"];
      KeepsEntry(chapters, TouchOps(plan.root), path);
      ChapterNotFixed(plan, c);
      KeepsEntry(touched, FixedOps(plan), path);
    }
  }

  /**
   * When the checks pass: the name was sanitised, the project folder is that one name below
   * the base directory, it does not exist yet, its parent is an existing writable entry, and
   * the configuration is the one `get_config` resolves.
   */
  lemma PlanRoot(e: Entries, env: Env, projName: string, projPath: Option<string>, cfgPath: Option<string>)
    requires Prepare(e, env, projName, projPath, cfgPath).Success?
    ensures var plan := Prepare(e, env, projName, projPath, cfgPath).value;
      var base := ProjectBase(projPath, env.cwd);
      && Utils.SafeNameSpec(projName).Success?
      && plan.root == base + [Utils.SafeNameSpec(projName).value]
      && ParentOf(plan.root) == base
      && plan.root !in e
      && Writable(e, env, base)
      && Config.ResolveConfig(cfgPath, env.moduleDir, env.cwd, e.Keys, env.defaults, env.user) == Success(plan.cfg)
  {
    var name := Utils.SafeNameSpec(projName).value;
    Utils.SafeNameIsClean(projName);
    assert Utils.Unsafe('/');
    assert name != "." by {
      assert name[|name| - 1] != '.';
    }
    JoinName(ProjectBase(projPath, env.cwd), name);
  }

  /**
   * The checks come before any change: a call that fails on the name, the configuration,
   * an existing target or a missing write permission leaves the filesystem as it was, and
   * the name fails exactly when it is ".".
   */
  lemma ChecksChangeNothing(e: Entries, env: Env, projName: string, projPath: Option<string>, cfgPath: Option<string>)
    ensures var r := MakeProjectSpec(e, env, projName, projPath, cfgPath);
      && (r.status.Fail? && !r.status.error.Os? ==> r.after == e)
      && (r.status.Fail? && !r.status.error.Os? <==> Prepare(e, env, projName, projPath, cfgPath).Failure?)
      && (r.status == Fail(BadName(Utils.IndexError)) <==> projName == ".")
  {
    Utils.SafeNameFailsOnlyOnDot(projName);
  }

  /**
   * A call that created a project makes the same call fail afterwards: the folder now
   * exists, and nothing further changes.
   */
  lemma SecondRunFails(e: Entries, env: Env, projName: string, projPath: Option<string>, cfgPath: Option<string>)
    requires Tree(e)
    requires MakeProjectSpec(e, env, projName, projPath, cfgPath).status.Pass?
    ensures var after := MakeProjectSpec(e, env, projName, projPath, cfgPath).after;
      var root := Prepare(e, env, projName, projPath, cfgPath).value.root;
      MakeProjectSpec(after, env, projName, projPath, cfgPath) == Run(Fail(ProjectExists(root)), after)
  {
    var plan := Prepare(e, env, projName, projPath, cfgPath).value;
    var after := Scaffold(e, plan).after;
    ScaffoldGrows(e, plan);
    ScaffoldLayout(e, plan);
    assert e.Keys <= after.Keys;
    Config.ResolveMonotone(cfgPath, env.moduleDir, env.cwd, e.Keys, after.Keys, env.defaults, env.user);
  }

  // ---------------------------------------------------------------------------
  // When a call passes

  /** A name pathlib joins as exactly one component, and not a step up. */
  predicate PlainName(f: string) {
    f != "" && f != "." && f != ".." && '/' !in f
  }

  /** `p` lies one component below `d`. */
  predicate ChildOf(p: Path, d: Path) {
    |p| == |d| + 1 && p[..|d|] == d
  }

  /**
   * What the configuration must satisfy for the scaffold to pass: at least one folder (the
   * first folder `mkdir` is what creates the project folder), distinct one-component folder
   * names other than "main.tex", chapter names without a slash, and both template files
   * present.
   */
  predicate Buildable(e: Entries, cfg: Config.Config) {
    && |cfg.folders| >= 1
    && (forall f :: f in cfg.folders ==> PlainName(f) && f != "main.tex")
    && (forall i, j :: 0 <= i < j < |cfg.folders| ==> cfg.folders[i] != cfg.folders[j])
    && (forall c :: c in cfg.chapters ==> '/' !in c)
    && cfg.tempPath + ["main.tex"] in e && e[cfg.tempPath + ["main.tex"]].File?
    && cfg.tempPath + ["titlepage.tex"] in e && e[cfg.tempPath + ["titlepage.tex"]].File?
  }

  /** Nothing at or below a missing `root` is an entry of a tree. */
  lemma BelowMissing(e: Entries, root: Path, q: Path)
    requires Tree(e) && root !in e && root <= q
    ensures q !in e
  {
    if q in e {
      PrefixOfEntry(e, root, q);
    }
  }

  /**
   * After some of the folder `mkdir`s of a project whose folder was missing in `e0`: the
   * project folder is a directory, every old entry is kept, and every new entry is a
   * directory, the project folder itself or a configured folder directly in it.
   */
  ghost predicate FolderState(e0: Entries, s: Entries, plan: Plan) {
    && Tree(s) && plan.root in s && s[plan.root] == Dir
    && (forall q :: q in e0 ==> q in s && s[q] == e0[q])
    && (forall q :: q in s && q !in e0 ==>
          s[q] == Dir && (q == plan.root || (ChildOf(q, plan.root) && q[|plan.root|] in plan.cfg.folders)))
  }

  /** The first folder `mkdir(parents=True)` creates the missing project folder and that folder. */
  lemma FirstFolder(e0: Entries, plan: Plan, f: string)
    requires Tree(e0) && plan.root !in e0 && CanCreate(e0, plan.root) && f in plan.cfg.folders
    ensures var r := MkdirStep(e0, plan.root + [f], true, false);
      && r.status.Pass?
      && r.after == e0[plan.root := Dir][plan.root + [f] := Dir]
      && FolderState(e0, r.after, plan)
  {
    var root := plan.root;
    var p := root + [f];
    BelowMissing(e0, root, p);
    forall i | 0 <= i < |p| ensures !(p[..i] in e0 && e0[p[..i]].File?) {
      if i == |root| {
        assert p[..i] == root;
      } else if i == |root| - 1 {
        assert p[..i] == Parent(root);
      } else {
        assert p[..i] == Parent(root)[..i];
        AncestorsAreDirs(e0, Parent(root), i);
      }
    }
    assert Parent(p) == root;
    assert MakeDirs(e0, root) == e0[root := Dir];
    MkdirSpec(e0, p, true, false);
  }

  /** A later folder `mkdir`, for a folder not made yet, adds just that folder. */
  lemma NextFolder(e0: Entries, s: Entries, plan: Plan, f: string)
    requires FolderState(e0, s, plan) && f in plan.cfg.folders && plan.root + [f] !in s
    ensures var r := MkdirStep(s, plan.root + [f], true, false);
      r.status.Pass? && r.after == s[plan.root + [f] := Dir] && FolderState(e0, r.after, plan)
  {
    var root := plan.root;
    var p := root + [f];
    forall i | 0 <= i < |p| ensures p[..i] in s && s[p[..i]] == Dir {
      if i == |root| {
        assert p[..i] == root;
      } else {
        assert p[..i] == root[..i];
        AncestorsAreDirs(s, root, i);
      }
    }
    assert Parent(p) == root;
    MkdirSpec(s, p, true, false);
  }

  /** The remaining folder `mkdir`s, for distinct folders not made yet, all pass. */
  lemma {:induction false} FolderRun(e0: Entries, s: Entries, plan: Plan, ops: seq<Op>, fs: seq<string>)
    requires FolderState(e0, s, plan) && |ops| == |fs|
    requires forall k :: 0 <= k < |fs| ==>
      ops[k] == MkdirOp(plan.root + [fs[k]], true, false) && fs[k] in plan.cfg.folders && plan.root + [fs[k]] !in s
    requires forall i, j :: 0 <= i < j < |fs| ==> fs[i] != fs[j]
    ensures RunOps(s, ops).status.Pass? && FolderState(e0, RunOps(s, ops).after, plan)
    decreases |ops|
  {
    if ops != [] {
      var root := plan.root;
      NextFolder(e0, s, plan, fs[0]);
      var s' := s[root + [fs[0]] := Dir];
      forall k | 0 <= k < |fs| - 1 ensures root + [fs[1..][k]] !in s' {
        assert fs[1..][k] == fs[k + 1] != fs[0];
        assert (root + [fs[k + 1]])[|root|] == fs[k + 1];
      }
      FolderRun(e0, s', plan, ops[1..], fs[1..]);
    }
  }

  /** The folder loop of a fresh, buildable project passes and makes the project folder. */
  lemma FoldersPass(e: Entries, plan: Plan)
    requires Tree(e) && plan.root !in e && CanCreate(e, plan.root) && Buildable(e, plan.cfg)
    ensures var r := RunOps(e, FolderOps(plan)); r.status.Pass? && FolderState(e, r.after, plan)
  {
    var root := plan.root;
    var fs := plan.cfg.folders;
    var ops := FolderOps(plan);
    FolderOpsPlain(plan);
    FirstFolder(e, plan, fs[0]);
    var s := e[root := Dir][root + [fs[0]] := Dir];
    assert RunOps(e, ops) == RunOps(s, ops[1..]);
    LaterFoldersMissing(e, plan);
    FolderRun(e, s, plan, ops[1..], fs[1..]);
  }

  /** With one-component folder names, each folder `mkdir` is on that name directly in the project folder. */
  lemma FolderOpsPlain(plan: Plan)
    requires forall f :: f in plan.cfg.folders ==> PlainName(f)
    ensures forall k :: 0 <= k < |plan.cfg.folders| ==>
      FolderOps(plan)[k] == MkdirOp(plan.root + [plan.cfg.folders[k]], true, false)
  {
    forall k | 0 <= k < |plan.cfg.folders|
      ensures FolderOps(plan)[k] == MkdirOp(plan.root + [plan.cfg.folders[k]], true, false)
    {
      assert plan.cfg.folders[k] in plan.cfg.folders;
      JoinName(plan.root, plan.cfg.folders[k]);
    }
  }

  /** After the first folder `mkdir`, the other folders are still missing when the names are distinct. */
  lemma LaterFoldersMissing(e: Entries, plan: Plan)
    requires Tree(e) && plan.root !in e && |plan.cfg.folders| >= 1
    requires forall i, j :: 0 <= i < j < |plan.cfg.folders| ==> plan.cfg.folders[i] != plan.cfg.folders[j]
    ensures var fs := plan.cfg.folders;
      forall k :: 0 <= k < |fs| - 1 ==> plan.root + [fs[1..][k]] !in e[plan.root := Dir][plan.root + [fs[0]] := Dir]
  {
    var root := plan.root;
    var fs := plan.cfg.folders;
    forall k | 0 <= k < |fs| - 1 ensures root + [fs[1..][k]] !in e[root := Dir][root + [fs[0]] := Dir] {
      BelowMissing(e, root, root + [fs[k + 1]]);
      assert fs[1..][k] == fs[k + 1] != fs[0];
      assert (root + [fs[k + 1]])[|root|] == fs[k + 1];
    }
  }

  /**
   * Once main.tex is written: the project folder and its chapters directory are
   * directories, every entry directly in the chapters directory is a file, and every
   * entry of `e0` is kept.
   */
  ghost predicate Ready(e0: Entries, s: Entries, root: Path) {
    && Tree(s) && root in s && s[root] == Dir && ChaptersDir(root) in s && s[ChaptersDir(root)] == Dir
    && (forall p :: p in s && ChildOf(p, ChaptersDir(root)) ==> s[p].File?)
    && (forall q :: q in e0 ==> q in s && s[q] == e0[q])
  }

  /** After the folders, writing main.tex and making the chapters directory pass. */
  lemma MainPasses(e0: Entries, made: Entries, plan: Plan, template: string)
    requires Tree(e0) && plan.root !in e0 && Buildable(e0, plan.cfg) && FolderState(e0, made, plan)
    ensures var r := RunOps(made, MainOps(plan, template)); r.status.Pass? && Ready(e0, r.after, plan.root)
  {
    var root := plan.root;
    var cd := ChaptersDir(root);
    var m := root + ["main.tex"];
    BelowMissing(e0, root, m);
    assert m[|root|] == "main.tex";
    assert m !in made;
    assert Parent(m) == root;
    WriteSpec(made, m, MainText(template, plan.cfg));
    var m1 := made[m := File(MainText(template, plan.cfg))];
    forall p | ChildOf(p, cd) ensures p !in m1 {
      assert p[..|root|] == cd[..|root|];
      BelowMissing(e0, root, p);
    }
    BelowMissing(e0, root, cd);
    forall i | 0 <= i < |cd| ensures cd[..i] in m1 && m1[cd[..i]] == Dir {
      if i == |root| {
        assert cd[..i] == root;
      } else {
        assert cd[..i] == root[..i];
        AncestorsAreDirs(m1, root, i);
      }
    }
    assert Parent(cd) == root;
    MkdirSpec(m1, cd, true, true);
    var ops := MainOps(plan, template);
    assert Apply(made, ops[0]) == Effect(Pass, m1);
    assert RunOps(made, ops) == RunOps(m1, ops[1..]);
    assert RunOps(m1, ops[1..]) == MkdirStep(m1, cd, true, true);
  }

  /** A write directly in the chapters directory passes and keeps the state ready. */
  lemma WriteReady(e0: Entries, s: Entries, root: Path, p: Path, text: string)
    requires Tree(e0) && root !in e0 && Ready(e0, s, root) && ChildOf(p, ChaptersDir(root))
    ensures var r := WriteStep(s, p, text); r.status.Pass? && Ready(e0, r.after, root)
  {
    assert Parent(p) == ChaptersDir(root);
    assert p[..|root|] == ChaptersDir(root)[..|root|];
    BelowMissing(e0, root, p);
    WriteSpec(s, p, text);
  }

  /** A touch directly in the project folder or its chapters directory passes and keeps the state ready. */
  lemma TouchReady(e0: Entries, s: Entries, root: Path, p: Path)
    requires Ready(e0, s, root) && (ChildOf(p, root) || ChildOf(p, ChaptersDir(root)))
    ensures var r := TouchStep(s, p); r.status.Pass? && Ready(e0, r.after, root)
  {
    assert Parent(p) == root || Parent(p) == ChaptersDir(root);
    TouchSpec(s, p);
  }

  /** Copying a template file into the chapters directory passes and keeps the state ready. */
  lemma CopyReady(e0: Entries, s: Entries, root: Path, src: Path, dst: Path)
    requires Tree(e0) && root !in e0 && Ready(e0, s, root) && ChildOf(dst, ChaptersDir(root))
    requires src in e0 && e0[src].File?
    ensures var r := CopyStep(s, src, dst); r.status.Pass? && Ready(e0, r.after, root)
  {
    assert dst[..|root|] == ChaptersDir(root)[..|root|];
    BelowMissing(e0, root, dst);
    assert CopyTarget(s, src, dst) == dst;
    WriteReady(e0, s, root, dst, s[src].content);
  }

  /** The operations after main.tex: writes and copies into the chapters directory, and touches. */
  predicate OpReady(e0: Entries, op: Op, root: Path) {
    match op
    case MkdirOp(_, _, _) => false
    case WriteOp(p, _) => ChildOf(p, ChaptersDir(root))
    case TouchOp(p) => ChildOf(p, root) || ChildOf(p, ChaptersDir(root))
    case CopyOp(src, dst) => ChildOf(dst, ChaptersDir(root)) && src in e0 && e0[src].File?
  }

  /** Each such operation passes on a ready state and keeps it ready. */
  lemma {:induction false} RunReady(e0: Entries, s: Entries, root: Path, ops: seq<Op>)
    requires Tree(e0) && root !in e0 && Ready(e0, s, root)
    requires forall k :: 0 <= k < |ops| ==> OpReady(e0, ops[k], root)
    ensures RunOps(s, ops).status.Pass? && Ready(e0, RunOps(s, ops).after, root)
    decreases |ops|
  {
    if ops != [] {
      assert OpReady(e0, ops[0], root);
      match ops[0] {
        case WriteOp(p, text) => WriteReady(e0, s, root, p, text);
        case TouchOp(p) => TouchReady(e0, s, root, p);
        case CopyOp(src, dst) => CopyReady(e0, s, root, src, dst);
      }
      RunReady(e0, Apply(s, ops[0]).after, root, ops[1..]);
    }
  }

  /** The chapter writes, touches and fixed files all qualify, given slash-free chapter names. */
  lemma LaterOpsReady(e0: Entries, plan: Plan)
    requires Buildable(e0, plan.cfg)
    ensures forall k :: 0 <= k < |ChapterOps(plan)| ==> OpReady(e0, ChapterOps(plan)[k], plan.root)
    ensures forall k :: 0 <= k < |TouchOps(plan.root)| ==> OpReady(e0, TouchOps(plan.root)[k], plan.root)
    ensures forall k :: 0 <= k < |FixedOps(plan)| ==> OpReady(e0, FixedOps(plan)[k], plan.root)
  {
    var root := plan.root;
    var cd := ChaptersDir(root);
    forall k | 0 <= k < |ChapterOps(plan)| ensures OpReady(e0, ChapterOps(plan)[k], root) {
      ChapterPath(root, plan.cfg.chapters[k]);
      assert (cd + [plan.cfg.chapters[k] + ".tex"])[..|cd|] == cd;
    }
    assert (root + ["pak.tex"])[..|root|] == root;
    assert (root + ["literature.bib"])[..|root|] == root;
    assert root + ["chapters", "appendix.tex"] == cd + ["appendix.tex"];
    assert (cd + ["appendix.tex"])[..|cd|] == cd;
    assert (cd + ["abstract.tex"])[..|cd|] == cd;
    assert (cd + ["titlepage.tex"])[..|cd|] == cd;
  }

  /**
   * For a missing project folder whose parent is a directory and a buildable configuration,
   * every call of the scaffold passes: every folder, main.tex, the chapters directory,
   * each chapter, the touched files, the abstract and the title page copy.
   */
  lemma ScaffoldPasses(e: Entries, plan: Plan)
    requires Tree(e) && plan.root !in e && CanCreate(e, plan.root) && Buildable(e, plan.cfg)
    ensures Scaffold(e, plan).status.Pass?
  {
    var root := plan.root;
    FoldersPass(e, plan);
    var made := RunOps(e, FolderOps(plan)).after;
    var tmpl := plan.cfg.tempPath + ["main.tex"];
    var template := e[tmpl].content;
    assert ReadResult(made, tmpl) == Success(template);
    MainPasses(e, made, plan, template);
    var started := RunOps(made, MainOps(plan, template));
    LaterOpsReady(e, plan);
    RunReady(e, started.after, root, ChapterOps(plan));
    var written := Then(started, ChapterOps(plan));
    RunReady(e, written.after, root, TouchOps(root));
    var touched := Then(written, TouchOps(root));
    RunReady(e, touched.after, root, FixedOps(plan));
  }

  /**
   * A call whose checks pass, for a target directory that is a directory and a buildable
   * configuration, creates the project: `make_project` returns normally.
   */
  lemma MakeProjectPasses(e: Entries, env: Env, projName: string, projPath: Option<string>, cfgPath: Option<string>)
    requires Tree(e)
    requires Prepare(e, env, projName, projPath, cfgPath).Success?
    requires ProjectBase(projPath, env.cwd) in e && e[ProjectBase(projPath, env.cwd)] == Dir
    requires Buildable(e, Prepare(e, env, projName, projPath, cfgPath).value.cfg)
    ensures MakeProjectSpec(e, env, projName, projPath, cfgPath).status.Pass?
  {
    var plan := Prepare(e, env, projName, projPath, cfgPath).value;
    PlanRoot(e, env, projName, projPath, cfgPath);
    assert Parent(plan.root) == ProjectBase(projPath, env.cwd);
    ScaffoldPasses(e, plan);
  }

  /**
   * With no folders configured nothing creates the project folder, so writing main.tex
   * fails with FileNotFoundError, and the run stops there with nothing changed.
   */
  lemma NoFoldersFail(e: Entries, plan: Plan)
    requires Tree(e) && plan.root !in e && CanCreate(e, plan.root) && plan.cfg.folders == []
    requires plan.cfg.tempPath + ["main.tex"] in e && e[plan.cfg.tempPath + ["main.tex"]].File?
    ensures Scaffold(e, plan) == Effect(Fail(FileNotFound(plan.root + ["main.tex"])), e)
  {
    var root := plan.root;
    var m := root + ["main.tex"];
    BelowMissing(e, root, m);
    assert Parent(m) == root;
    forall i | 0 <= i < |m| ensures !(m[..i] in e && e[m[..i]].File?) {
      if i == |root| {
        assert m[..i] == root;
      } else if i == |root| - 1 {
        assert m[..i] == Parent(root);
      } else {
        assert m[..i] == Parent(root)[..i];
        AncestorsAreDirs(e, Parent(root), i);
      }
    }
    assert FolderOps(plan) == [];
  }

  /** Every entry added or changed since `e0` lies in or below `root`. */
  ghost predicate Inside(e0: Entries, e: Entries, root: Path) {
    forall q :: q in e && (q !in e0 || e[q] != e0[q]) ==> root <= q
  }

  /** The path an operation creates or writes lies in or below `root`. */
  predicate OpWithin(op: Op, root: Path) {
    match op
    case MkdirOp(p, _, _) => root <= p
    case WriteOp(p, _) => root <= p
    case TouchOp(p) => root <= p
    case CopyOp(_, dst) => root <= dst
  }

  /**
   * An operation on a path below `root`, whose parent exists, changes nothing outside
   * `root`: even `mkdir(parents=True)` stops at the existing parent.
   */
  lemma ApplyInside(e0: Entries, e: Entries, op: Op, root: Path)
    requires Tree(e) && Inside(e0, e, root) && OpWithin(op, root) && root != [] && ParentOf(root) in e
    ensures Inside(e0, Apply(e, op).after, root)
  {
    var after := Apply(e, op).after;
    match op
    case MkdirOp(p, parents, existOk) =>
      MkdirSpec(e, p, parents, existOk);
      forall q | q in after && q !in e ensures root <= q {
        if |q| < |root| {
          assert q == ParentOf(root)[..|q|];
          PrefixOfEntry(e, q, ParentOf(root));
        }
      }
    case WriteOp(p, text) => WriteSpec(e, p, text);
    case TouchOp(p) => TouchSpec(e, p);
    case CopyOp(src, dst) => CopySpec(e, src, dst);
  }

  /** A run of operations below `root` changes nothing outside it. */
  lemma {:induction false} RunInside(e0: Entries, e: Entries, ops: seq<Op>, root: Path)
    requires Tree(e) && Inside(e0, e, root) && root != [] && ParentOf(root) in e
    requires forall k :: 0 <= k < |ops| ==> OpWithin(ops[k], root)
    ensures Inside(e0, RunOps(e, ops).after, root)
    decreases |ops|
  {
    if ops != [] {
      ApplyInside(e0, e, ops[0], root);
      ApplyChanges(e, ops[0]);
      var first := Apply(e, ops[0]);
      if first.status.Pass? {
        RunInside(e0, first.after, ops[1..], root);
      }
    }
  }

  /** A stage below `root` that may not run at all keeps what is outside `root`. */
  lemma ThenInside(e0: Entries, r: Effect, ops: seq<Op>, root: Path)
    requires Tree(r.after) && Inside(e0, r.after, root) && root != [] && ParentOf(root) in r.after
    requires forall k :: 0 <= k < |ops| ==> OpWithin(ops[k], root)
    ensures var r' := Then(r, ops).after; Tree(r') && Inside(e0, r', root) && ParentOf(root) in r'
  {
    if r.status.Pass? {
      RunInside(e0, r.after, ops, root);
      RunOpsChanges(r.after, ops);
    }
  }

  /** A text that does not start with a slash still does not once ".tex" is appended. */
  lemma TexRelative(c: string)
    requires !IsAbsolute(c)
    ensures !IsAbsolute(c + ".tex")
  {
    if c != "" {
      assert (c + ".tex")[0] == c[0];
    }
  }

  /**
   * With relative folder and chapter names that never step up with "..", the scaffold
   * changes nothing outside the project folder, whether it passes or not.
   */
  lemma ScaffoldInside(e: Entries, plan: Plan)
    requires Tree(e) && plan.root != [] && ParentOf(plan.root) in e
    requires forall f :: f in plan.cfg.folders ==> !IsAbsolute(f) && ".." !in Parts(f)
    requires forall c :: c in plan.cfg.chapters ==> !IsAbsolute(c) && ".." !in Parts(c + ".tex")
    ensures Inside(e, Scaffold(e, plan).after, plan.root)
  {
    var root := plan.root;
    var folderOps := FolderOps(plan);
    forall k | 0 <= k < |folderOps| ensures OpWithin(folderOps[k], root) {
      assert folderOps[k].path == root + Parts(plan.cfg.folders[k]);
    }
    RunInside(e, e, folderOps, root);
    RunOpsChanges(e, folderOps);
    var made := RunOps(e, folderOps);
    if made.status.Pass? {
      var read := ReadResult(made.after, plan.cfg.tempPath + ["main.tex"]);
      if read.Success? {
        FilesInside(e, made.after, plan, read.value);
      }
    }
  }

  /**
   * The stages after the template read, from `made` on, keep what is outside the project
   * folder when no chapter name steps up with "..".
   */
  lemma FilesInside(e: Entries, made: Entries, plan: Plan, template: string)
    requires Tree(made) && Inside(e, made, plan.root) && plan.root != [] && ParentOf(plan.root) in made
    requires forall c :: c in plan.cfg.chapters ==> !IsAbsolute(c) && ".." !in Parts(c + ".tex")
    ensures var started := RunOps(made, MainOps(plan, template));
      Inside(e, Then(Then(Then(started, ChapterOps(plan)), TouchOps(plan.root)), FixedOps(plan)).after, plan.root)
  {
    var root := plan.root;
    var mainOps := MainOps(plan, template);
    RunInside(e, made, mainOps, root);
    RunOpsChanges(made, mainOps);
    var started := RunOps(made, mainOps);
    var chapterOps := ChapterOps(plan);
    forall k | 0 <= k < |chapterOps| ensures OpWithin(chapterOps[k], root) {
      TexRelative(plan.cfg.chapters[k]);
      assert chapterOps[k].path == ChaptersDir(root) + Parts(plan.cfg.chapters[k] + ".tex");
    }
    ThenInside(e, started, chapterOps, root);
    var written := Then(started, chapterOps);
    ThenInside(e, written, TouchOps(root), root);
    ThenInside(e, Then(written, TouchOps(root)), FixedOps(plan), root);
  }

  /**
   * With relative folder and chapter names in the configuration that never step up with
   * "..", `make_project` changes nothing outside the new project folder, however it ends.
   */
  lemma MakeProjectInside(e: Entries, env: Env, projName: string, projPath: Option<string>, cfgPath: Option<string>)
    requires Tree(e)
    requires Prepare(e, env, projName, projPath, cfgPath).Success?
    requires var cfg := Prepare(e, env, projName, projPath, cfgPath).value.cfg;
      && (forall f :: f in cfg.folders ==> !IsAbsolute(f) && ".." !in Parts(f))
      && (forall c :: c in cfg.chapters ==> !IsAbsolute(c) && ".." !in Parts(c + ".tex"))
    ensures var root := Prepare(e, env, projName, projPath, cfgPath).value.root;
      Inside(e, MakeProjectSpec(e, env, projName, projPath, cfgPath).after, root)
  {
    PlanRoot(e, env, projName, projPath, cfgPath);
    ScaffoldInside(e, Prepare(e, env, projName, projPath, cfgPath).value);
  }
}
