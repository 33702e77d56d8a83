/**
 * The filesystem the scaffolder works on, as a map from absolute paths to directories
 * and files, with the pathlib and shutil operations the core calls. Each operation is
 * given by a pure step function on the map; the `FileSystem` class applies it in place.
 */
module FileSystem {
  import opened Wrappers
  import Strings

  /** An absolute path as its components; "/" is the empty sequence. */
  type Path = seq<string>

  /** pathlib's `is_absolute()` on a POSIX path string. */
  predicate IsAbsolute(s: string) {
    |s| > 0 && s[0] == '/'
  }

  /** The pieces pathlib keeps as components: empty pieces and "." pieces are dropped. */
  function Components(pieces: seq<string>): (r: seq<string>)
    ensures forall k :: 0 <= k < |r| ==> r[k] in pieces && r[k] != "" && r[k] != "."
  {
    if pieces == [] then []
    else (if pieces[0] == "" || pieces[0] == "." then [] else [pieces[0]]) + Components(pieces[1..])
  }

  /** The components of a path string. */
  function Parts(s: string): (r: seq<string>)
    ensures forall k :: 0 <= k < |r| ==> '/' !in r[k] && r[k] != "" && r[k] != "."
  {
    Components(Strings.Split(s, '/'))
  }

  /** pathlib's `base / s`: an absolute `s` replaces the base, a relative one is appended to it. */
  function Join(base: Path, s: string): Path {
    if IsAbsolute(s) then Parts(s) else base + Parts(s)
  }

  /** A name without a slash, other than "" and ".", is one component. */
  lemma JoinName(base: Path, s: string)
    requires '/' !in s && s != "" && s != "."
    ensures Join(base, s) == base + [s]
  {
    Strings.NoneCounted(s, '/');
    var pieces := Strings.Split(s, '/');
    assert pieces == [s];
    assert Components(pieces[1..]) == [];
  }

  /** Two names joined with a slash are two components. */
  lemma JoinTwoNames(base: Path, a: string, b: string)
    requires '/' !in a && a != "" && a != "."
    requires '/' !in b && b != "" && b != "."
    ensures Join(base, a + "/" + b) == base + [a, b]
  {
    assert Strings.JoinWith([a, b], "/") == a + "/" + b by {
      assert [a, b][1..] == [b];
    }
    Strings.SplitOfJoin([a, b], '/');
    var pieces := Strings.Split(a + "/" + b, '/');
    assert pieces == [a, b];
    assert Components(pieces[1..][1..]) == [];
    assert Components(pieces[1..]) == [b];
    assert Parts(a + "/" + b) == [a, b];
    assert !IsAbsolute(a + "/" + b) by { assert (a + "/" + b)[0] == a[0]; }
  }

  datatype Node = Dir | File(content: string)

  /** The OSError subclasses the operations raise, each with the path it names. */
  datatype OsError =
    | FileNotFound(path: Path)
    | FileExists(path: Path)
    | NotADirectory(path: Path)
    | IsADirectory(path: Path)
    | SameFile(path: Path)

  type Entries = map<Path, Node>

  function Parent(p: Path): Path
    requires p != []
  {
    p[..|p| - 1]
  }

  /** The entries form a tree: "/" is a directory and every other entry sits in a directory entry. */
  ghost predicate Tree(e: Entries) {
    && [] in e && e[[]] == Dir
    && forall p {:trigger Parent(p)} :: p in e && p != [] ==> Parent(p) in e && e[Parent(p)] == Dir
  }

  /** Nothing is removed, and no entry changes between directory and file. */
  ghost predicate Grows(e: Entries, e': Entries) {
    forall q :: q in e ==> q in e' && (e'[q] == Dir <==> e[q] == Dir)
  }

  /** Outside `w`, every entry is unchanged and every new entry is a directory or an empty file. */
  ghost predicate ChangesOnly(e: Entries, e': Entries, w: set<Path>) {
    forall q :: q in e' && q !in w ==> if q in e then e'[q] == e[q] else e'[q] == Dir || e'[q] == File("")
  }

  /** Two changes in a row change at most what either changes. */
  lemma ChangesCompose(e: Entries, e1: Entries, e2: Entries, w1: set<Path>, w2: set<Path>)
    requires Grows(e, e1) && ChangesOnly(e, e1, w1)
    requires Grows(e1, e2) && ChangesOnly(e1, e2, w2)
    ensures Grows(e, e2) && ChangesOnly(e, e2, w1 + w2)
  {
  }

  /** Some proper ancestor of `p` is a file, so the OS cannot resolve `p` (ENOTDIR). */
  predicate Blocked(e: Entries, p: Path) {
    exists i | 0 <= i < |p| :: p[..i] in e && e[p[..i]].File?
  }

  /** The error for a path that is not an entry: ENOTDIR when an ancestor is a file, else ENOENT. */
  function Missing(e: Entries, p: Path): OsError {
    if Blocked(e, p) then NotADirectory(p) else FileNotFound(p)
  }

  /** A new entry `p` can be created: it has a parent, and that parent is a directory. */
  predicate CanCreate(e: Entries, p: Path) {
    p != [] && Parent(p) in e && e[Parent(p)] == Dir
  }

  /** In a tree, every proper prefix of an entry is a directory entry. */
  lemma {:induction false} AncestorsAreDirs(e: Entries, p: Path, i: nat)
    requires Tree(e) && p in e && i < |p|
    ensures p[..i] in e && e[p[..i]] == Dir
    decreases |p|
  {
    if i < |p| - 1 {
      AncestorsAreDirs(e, Parent(p), i);
      assert Parent(p)[..i] == p[..i];
    } else {
      assert p[..i] == Parent(p);
    }
  }

  /** In a tree, every prefix of an entry is an entry. */
  lemma PrefixOfEntry(e: Entries, q: Path, p: Path)
    requires Tree(e) && p in e && q <= p
    ensures q in e
  {
    if q != p {
      assert q == p[..|q|];
      AncestorsAreDirs(e, p, |q|);
    }
  }

  /** Joined outcome and new entries of one operation. */
  datatype Effect = Effect(status: Outcome<OsError>, after: Entries)

  /**
   * `p` and its missing ancestors added as directories. ("/" is always present in a tree,
   * so the first branch only completes the definition.)
   */
  function MakeDirs(e: Entries, p: Path): Entries
    decreases |p|
  {
    if p == [] then e[p := Dir]
    else
      var up := Parent(p);
      (if up in e then e else MakeDirs(e, up))[p := Dir]
  }

  /**
   * In a tree, when `p` is missing and no ancestor is a file, `MakeDirs` keeps the tree,
   * keeps every entry, and adds only directories on the way to `p`.
   */
  lemma {:induction false} MakeDirsSpec(e: Entries, p: Path)
    requires Tree(e) && p !in e && !Blocked(e, p)
    ensures var r := MakeDirs(e, p);
      && Tree(r) && p in r && r[p] == Dir
      && (forall q :: q in e ==> q in r && r[q] == e[q])
      && (forall q :: q in r && q !in e ==> r[q] == Dir && q <= p)
    decreases |p|
  {
    var up := Parent(p);
    assert up == p[..|p| - 1];
    assert forall i :: 0 <= i < |up| ==> up[..i] == p[..i];
    if up !in e {
      MakeDirsSpec(e, up);
    }
    var below := if up in e then e else MakeDirs(e, up);
    assert forall q :: q in below && q !in e ==> q <= p;
  }

  /**
   * pathlib's `p.mkdir(parents=..., exist_ok=...)`. An existing entry is an error unless
   * `exist_ok` holds and it is a directory; with `parents`, every missing ancestor is made.
   */
  function MkdirStep(e: Entries, p: Path, parents: bool, existOk: bool): Effect {
    if p in e then
      Effect(if existOk && e[p] == Dir then Pass else Fail(FileExists(p)), e)
    else if Blocked(e, p) || (!parents && !CanCreate(e, p)) then
      Effect(Fail(Missing(e, p)), e)
    else
      Effect(Pass, MakeDirs(e, p))
  }

  /**
   * `mkdir` keeps the tree and every entry, adds only directories on the way to `p` (only
   * `p` itself without `parents`), and fails exactly as pathlib does: FileExistsError for an
   * existing path unless `exist_ok` finds a directory, NotADirectoryError under a file,
   * FileNotFoundError for a missing parent without `parents`.
   */
  lemma MkdirSpec(e: Entries, p: Path, parents: bool, existOk: bool)
    requires Tree(e)
    ensures var r := MkdirStep(e, p, parents, existOk);
      && Tree(r.after) && Grows(e, r.after) && ChangesOnly(e, r.after, {})
      && (r.status.Fail? || p in e ==> r.after == e)
      && (r.status.Pass? ==> p in r.after && r.after[p] == Dir)
      && (forall q :: q in r.after && q !in e ==> r.after[q] == Dir && q <= p)
      && (!parents ==> forall q :: q in r.after && q !in e ==> q == p)
      && (p in e ==> (r.status.Pass? <==> existOk && e[p] == Dir))
      && (p in e && r.status.Fail? ==> r.status.error == FileExists(p))
      && (p !in e && Blocked(e, p) ==> r.status == Fail(NotADirectory(p)))
      && (p !in e && !Blocked(e, p) ==> (r.status.Pass? <==> parents || CanCreate(e, p)))
  {
    if p !in e && !Blocked(e, p) && (parents || CanCreate(e, p)) {
      MakeDirsSpec(e, p);
    }
  }

  /**
   * pathlib's `p.write_text(text)`: a file is created or overwritten; a directory, a
   * missing parent or a file on the way is an error.
   */
  function WriteStep(e: Entries, p: Path, text: string): Effect {
    if p in e then
      if e[p] == Dir then Effect(Fail(IsADirectory(p)), e) else Effect(Pass, e[p := File(text)])
    else if !CanCreate(e, p) then Effect(Fail(Missing(e, p)), e)
    else Effect(Pass, e[p := File(text)])
  }

  /** A write succeeds on a file or in a directory, sets that one file, and keeps the tree. */
  lemma WriteSpec(e: Entries, p: Path, text: string)
    requires Tree(e)
    ensures var r := WriteStep(e, p, text);
      && Tree(r.after) && Grows(e, r.after) && ChangesOnly(e, r.after, {p})
      && (r.status.Pass? <==> if p in e then e[p].File? else CanCreate(e, p))
      && (r.status.Fail? ==> r.after == e)
      && (r.status.Pass? ==> r.after == e[p := File(text)])
  {
  }

  /** pathlib's `p.touch()`: an existing entry is left as it is, else an empty file is created. */
  function TouchStep(e: Entries, p: Path): Effect {
    if p in e then Effect(Pass, e)
    else if !CanCreate(e, p) then Effect(Fail(Missing(e, p)), e)
    else Effect(Pass, e[p := File("")])
  }

  /** `touch` never changes an existing entry; it adds an empty file when it can. */
  lemma TouchSpec(e: Entries, p: Path)
    requires Tree(e)
    ensures var r := TouchStep(e, p);
      && Tree(r.after) && Grows(e, r.after) && ChangesOnly(e, r.after, {})
      && (r.status.Pass? <==> p in e || CanCreate(e, p))
      && (r.status.Fail? ==> r.after == e)
      && (r.status.Pass? ==> r.after == if p in e then e else e[p := File("")])
  {
  }

  /**
   * Where `shutil.copy(src, dst)` writes: into a directory `dst`, under the source's last
   * component ("/" has none, and then the target is `dst` itself).
   */
  function CopyTarget(e: Entries, src: Path, dst: Path): Path {
    if dst in e && e[dst] == Dir && src != [] then dst + [src[|src| - 1]] else dst
  }

  /**
   * `shutil.copy(src, dst)`: the source file's text is written to the target; copying a
   * file onto itself, a missing source and a directory source are errors.
   */
  function CopyStep(e: Entries, src: Path, dst: Path): Effect {
    var target := CopyTarget(e, src, dst);
    if src in e && src == target then Effect(Fail(SameFile(src)), e)
    else if src !in e then Effect(Fail(Missing(e, src)), e)
    else if e[src] == Dir then Effect(Fail(IsADirectory(src)), e)
    else WriteStep(e, target, e[src].content)
  }

  /**
   * A copy passes exactly when the source is a file other than the target and the target
   * can be written; it then puts the source file's text at the target and changes nothing
   * else. Copying a file onto itself, a missing source and a directory source fail with
   * their own errors.
   */
  lemma CopySpec(e: Entries, src: Path, dst: Path)
    requires Tree(e)
    ensures var r := CopyStep(e, src, dst); var t := CopyTarget(e, src, dst);
      && Tree(r.after) && Grows(e, r.after) && ChangesOnly(e, r.after, {t})
      && (r.status.Fail? ==> r.after == e)
      && (r.status.Pass? <==>
            src in e && e[src].File? && src != t && if t in e then e[t].File? else CanCreate(e, t))
      && (src in e && src == t ==> r.status == Fail(SameFile(src)))
      && (src !in e ==> r.status == Fail(Missing(e, src)))
      && (src in e && src != t && e[src] == Dir ==> r.status == Fail(IsADirectory(src)))
      && (r.status.Pass? ==> r.after == e[t := e[src]])
  {
    if src in e && src != CopyTarget(e, src, dst) && e[src].File? {
      WriteSpec(e, CopyTarget(e, src, dst), e[src].content);
    }
  }

  /** pathlib's `p.read_text()`. */
  function ReadResult(e: Entries, p: Path): (r: Result<string, OsError>)
    ensures r.Success? <==> p in e && e[p].File?
    ensures r.Success? ==> e[p] == File(r.value)
  {
    if p !in e then Failure(Missing(e, p))
    else if e[p] == Dir then Failure(IsADirectory(p))
    else Success(e[p].content)
  }

  /** The filesystem, updated in place by the operations the scaffolder calls. */
  class FileSystem {
    var entries: Entries

    ghost predicate Valid()
      reads this
    {
      Tree(entries)
    }

    constructor (initial: Entries)
      requires Tree(initial)
      ensures Valid() && entries == initial
    {
      entries := initial;
    }

    /** pathlib's `p.exists()`. */
    predicate Exists(p: Path)
      reads this
    {
      p in entries
    }

    method ReadText(p: Path) returns (r: Result<string, OsError>)
      ensures r.Success? <==> p in entries && entries[p].File?
      ensures r.Success? ==> entries[p] == File(r.value)
      ensures r.Failure? ==> r.error == if p in entries then IsADirectory(p) else Missing(entries, p)
    {
      r := ReadResult(entries, p);
    }

    method Mkdir(p: Path, parents: bool, existOk: bool) returns (status: Outcome<OsError>)
      requires Valid()
      modifies this
      ensures Valid()
      ensures Effect(status, entries) == MkdirStep(old(entries), p, parents, existOk)
    {
      MkdirSpec(entries, p, parents, existOk);
      var r := MkdirStep(entries, p, parents, existOk);
      status, entries := r.status, r.after;
    }

    method WriteText(p: Path, text: string) returns (status: Outcome<OsError>)
      requires Valid()
      modifies this
      ensures Valid()
      ensures Effect(status, entries) == WriteStep(old(entries), p, text)
    {
      WriteSpec(entries, p, text);
      var r := WriteStep(entries, p, text);
      status, entries := r.status, r.after;
    }

    method Touch(p: Path) returns (status: Outcome<OsError>)
      requires Valid()
      modifies this
      ensures Valid()
      ensures Effect(status, entries) == TouchStep(old(entries), p)
    {
      TouchSpec(entries, p);
      var r := TouchStep(entries, p);
      status, entries := r.status, r.after;
    }

    method Copy(src: Path, dst: Path) returns (status: Outcome<OsError>)
      requires Valid()
      modifies this
      ensures Valid()
      ensures Effect(status, entries) == CopyStep(old(entries), src, dst)
    {
      CopySpec(entries, src, dst);
      var r := CopyStep(entries, src, dst);
      status, entries := r.status, r.after;
    }
  }
}
