# beauti-tex scaffolder, modelled in Dafny

beauti-tex creates the skeleton of a LaTeX paper: a project folder with configured
sub-folders, a `main.tex` rendered from a template, one `.tex` file per chapter, a few empty
files, an abstract, and a title page copied from the templates. This project models the
three parts of the package that do this work, and proves what they promise:

- `safe_name` (module `Utils`, `utils.dfy`): the user's project name becomes one folder name.
  Forbidden characters and blanks become `_`, one leading dot is dropped, and a trailing dot
  becomes `_`.
- `get_config` (module `Config`, `config.dfy`): the settings come from `default.ini` next to
  the package. A user INI file overrides them option by option. The result is the `Config`
  record: folder and chapter lists, style, template directory, size, class and packages.
- `make_project` (module `ProjBuilder`, `proj_builder.dfy`): the name is sanitised, the
  configuration resolved, the target checked (it must not exist, and its parent must be
  writable), and then the filesystem operations run in the source's order. The first error
  stops the run and leaves everything made so far.

Supporting modules:

- `Wrappers` (`wrappers.dfy`): `Option`, `Result` and a pass/fail `Outcome`.
- `Strings` (`strings.dfy`): the Python `str` operations the core relies on: `replace`,
  `split(',')`, `strip()`, `join`, `capitalize()`, `int()` and `f"{n}"`.
- `FileSystem` (`filesystem.dfy`): the filesystem as a map from absolute paths (component
  sequences) to directories and files.
  - Each pathlib or shutil call the core makes is a pure step function on that map: `mkdir`
    with `parents`/`exist_ok`, `write_text`, `touch`, `read_text`, `shutil.copy`.
  - A lemma states each step's full effect and error cases.
  - The `FileSystem` class holds the map and applies the steps in place.

The imperative code is modelled as methods, and each method is proved equal to a specification
function:
- `Utils.SafeName` matches `SafeNameSpec`.
- `Config.GetConfig` matches `ResolveConfig`.
- `ProjBuilder.MakeProject` matches `MakeProjectSpec`.

The lemmas then state the properties of those functions: the error cases, what the
scaffold leaves on disk, that nothing is written outside the new project, and that a second
run fails.

## Model

| member | source | states |
|---|---|---|
| Strings.Split | src/beauti_tex/config.py:75-76 | `split(',')` gives one more piece than there are commas, no piece holds a comma, and joining the pieces with commas gives back the input |
| Strings.SplitOfJoin | src/beauti_tex/config.py:75-76 | splitting a comma-joined list of comma-free items gives back the items |
| Strings.SplitAppend | src/beauti_tex/config.py:75-76 | splitting `x + sep + y`, with `x` free of the separator, gives `x` followed by the pieces of `y` |
| Strings.Strip | src/beauti_tex/config.py:75-76 | `strip()` leaves no whitespace at either end of its result |
| Strings.StripIsCore | src/beauti_tex/config.py:75-76 | for any whitespace-only prefix and suffix around a core with non-blank ends (or an empty core), `strip()` returns exactly that core |
| Strings.ReplaceAbsent | src/beauti_tex/proj_builder.py:71-75 | `replace` leaves a text in which the pattern does not occur unchanged |
| Strings.ReplaceChar | src/beauti_tex/utils.py:42-45 | replacing one character by another keeps the length and changes exactly the positions holding that character |
| Strings.ReplaceSkip | src/beauti_tex/proj_builder.py:71-75 | a prefix without the pattern's first character is copied unchanged and the scan continues after it |
| Strings.LowerAll | src/beauti_tex/proj_builder.py:81 | lower-casing keeps the length and lower-cases every position |
| Strings.CapitalizeIdempotent | src/beauti_tex/proj_builder.py:81 | `capitalize()` keeps the length and applying it twice is the same as once |
| Strings.ShowNat | src/beauti_tex/proj_builder.py:71 | `f"{n}"` of a natural number is a non-empty string of decimal digits |
| Strings.ShowNatValue | src/beauti_tex/proj_builder.py:71 | the digits `f"{n}"` prints denote `n` |
| Strings.DropUnderscores | src/beauti_tex/config.py:83 | removing the `_` separators `int()` accepts leaves only digits, and leaves a string without `_` unchanged |
| Strings.ShowIntStripped | src/beauti_tex/config.py:83 | a printed integer has no surrounding whitespace |
| Strings.ShowNatParses | src/beauti_tex/config.py:83 | the digit parser reads the printed form of a natural number back as that number |
| Strings.ParseShowInt | src/beauti_tex/config.py:83 | `int(f"{n}") == n` for every integer, negative ones included: the size read by `getint` round-trips with the size printed into main.tex |
| Strings.ParseSignedShowNat | src/beauti_tex/config.py:83 | an unsigned printed number parses back to itself |
| Strings.ParseSignedShowNegative | src/beauti_tex/config.py:83 | a printed negative number parses back to itself |
| FileSystem.Parts | src/beauti_tex/config.py:78 | `Path(s)` keeps only non-empty, non-"." components, none containing `/` |
| FileSystem.JoinName | src/beauti_tex/proj_builder.py:66 | `p / name` for a single plain name appends that one component |
| FileSystem.JoinTwoNames | src/beauti_tex/proj_builder.py:84-86 | `p / "a/b"` appends the two components `a` and `b` |
| FileSystem.AncestorsAreDirs | src/beauti_tex/proj_builder.py:65-67 | in a well-formed tree every proper prefix of an entry is a directory |
| FileSystem.MakeDirsSpec | src/beauti_tex/proj_builder.py:67 | `mkdir(parents=True)` on a missing, unblocked path adds it and its missing ancestors as directories, keeps every old entry and adds nothing outside the path's prefixes |
| FileSystem.MkdirSpec | src/beauti_tex/proj_builder.py:67 | `mkdir` keeps the tree well formed and never changes an existing entry. An existing path is accepted only with `exist_ok` and only if it is a directory, otherwise FileExistsError. A file on the way gives NotADirectoryError. Otherwise a missing path is made exactly when `parents=True` is given or its parent is a directory. On failure nothing changes; without `parents` only the path itself is added |
| FileSystem.WriteSpec | src/beauti_tex/proj_builder.py:76 | `write_text` succeeds exactly when the path is a file, or is missing with a directory as parent; then it sets that file's content and changes nothing else; on failure nothing changes |
| FileSystem.TouchSpec | src/beauti_tex/proj_builder.py:86 | `touch` succeeds exactly when the path exists or can be created; an existing entry keeps its content, a new one is an empty file |
| FileSystem.CopySpec | src/beauti_tex/proj_builder.py:89 | `shutil.copy` passes exactly when the source is a file other than the target (the destination, or the source's name inside a directory destination) and the target is a file or can be created; onto itself it fails with `SameFileError`, on a missing source with `FileNotFoundError`, on a directory source with `IsADirectoryError`, changing nothing; on success only the target changes, to the source file's content |
| FileSystem.ReadResult | src/beauti_tex/proj_builder.py:70 | `read_text` succeeds exactly on a file and returns its content |
| FileSystem.FileSystem.ReadText | src/beauti_tex/proj_builder.py:70 | `read_text` succeeds exactly on a file and returns its content; on a directory it fails with `IsADirectoryError`, on a missing path with `FileNotFoundError` or, below a file, `NotADirectoryError` |
| FileSystem.FileSystem.Mkdir | src/beauti_tex/proj_builder.py:67 | the object's entries and status after `mkdir` are those of the `mkdir` step, and the tree stays well formed |
| FileSystem.FileSystem.WriteText | src/beauti_tex/proj_builder.py:76 | the object's entries and status after `write_text` are those of the write step |
| FileSystem.FileSystem.Touch | src/beauti_tex/proj_builder.py:86 | the object's entries and status after `touch` are those of the touch step |
| FileSystem.FileSystem.Copy | src/beauti_tex/proj_builder.py:89 | the object's entries and status after `shutil.copy` are those of the copy step |
| Config.Overlay | src/beauti_tex/config.py:74 | reading another file keeps every section and takes each option from the newer file when it has one, from the older otherwise |
| Config.OverlayOnEmpty | src/beauti_tex/config.py:62-66 | reading one file into a fresh parser gives exactly that file |
| Config.ConfigParser.constructor | src/beauti_tex/config.py:62 | a new parser holds no sections |
| Config.ConfigParser.Read | src/beauti_tex/config.py:66 | `read` layers the file over what the parser holds |
| Config.Get | src/beauti_tex/config.py:77 | `config[section][option]` succeeds exactly when both exist, with that value |
| Config.ParseListItems | src/beauti_tex/config.py:75-76 | no list item holds a comma or has whitespace at either end |
| Config.ParseListEmpty | src/beauti_tex/config.py:75 | an empty option gives the one-item list `[""]`, not an empty list |
| Config.ParseListOfJoin | src/beauti_tex/config.py:75-76 | comma-joining already-stripped, comma-free items and reading them back gives the items |
| Config.LayeredIni | src/beauti_tex/config.py:66-74 | after the reads, each option comes from the user file when it is used and holds it, else from the defaults |
| Config.GetConfig | src/beauti_tex/config.py:44-86 | the method returns exactly `ResolveConfig`, with its order of checks and its errors |
| Config.FilesCheckedFirst | src/beauti_tex/config.py:63-73 | a missing `default.ini`, then a missing user file, is reported before any option is read, whatever the files hold |
| Config.EmptyPathIsNoPath | src/beauti_tex/config.py:68-70 | the path `""` behaves exactly like no path and never reports a missing user file |
| Config.ReadFieldsValues | src/beauti_tex/config.py:75-86 | every field of a successful read comes from its option: parsed lists, strings as written, templates joined to the package directory and existing, the size parsed as an integer, packages exactly the `[packages]` options |
| Config.ReadFieldsTemplates | src/beauti_tex/config.py:78-82 | the template path of a successful read is the `templates` option joined to the package directory, and it exists |
| Config.ResolvedFields | src/beauti_tex/config.py:62-86 | each field of a resolved configuration comes from the user file's option when the user file is used and holds it, else from the default |
| Config.ResolvedTemplates | src/beauti_tex/config.py:78-82 | the template directory is the layered `templates` option, taken as is when absolute and under the package directory otherwise, and it exists |
| Config.TemplatesBeforeSize | src/beauti_tex/config.py:78-83 | a missing template directory is reported before the size is parsed, and a malformed size after it |
| Config.ResolveMonotone | src/beauti_tex/config.py:44-86 | a configuration that resolves still resolves to the same value when more paths exist |
| Utils.SafeName | src/beauti_tex/utils.py:21-52 | the method with its replace loop returns exactly `SafeNameSpec(name)` |
| Utils.SafeNameFailsOnlyOnDot | src/beauti_tex/utils.py:48-51 | `safe_name` fails (IndexError at `name[-1]`) exactly on the name "." |
| Utils.SafeNameIsClean | src/beauti_tex/utils.py:38-52 | a result is non-empty, holds no forbidden character or blank, and does not end with a dot |
| Utils.SafeNameShape | src/beauti_tex/utils.py:41-51 | position by position, each character is kept or becomes `_`, except that one leading dot is dropped and a trailing dot becomes `_` |
| Utils.SafeNameKeepsSafe | src/beauti_tex/utils.py:38-52 | a name that is already safe comes back unchanged |
| Utils.SafeNameStable | src/beauti_tex/utils.py:47-51 | sanitising a result again changes nothing, unless the result starts with a dot |
| Utils.SafeNameExampleValid | tests/test_utils.py:24-25 | "ValidName" and "valid_name" come back unchanged |
| Utils.SafeNameExampleBlank | tests/test_utils.py:26 | "valid name" becomes "valid_name" |
| Utils.SafeNameExampleAngles | tests/test_utils.py:27 | "valid<name>" becomes "valid_name_" |
| Utils.SafeNameExampleColon | tests/test_utils.py:28 | "valid:name" becomes "valid_name" |
| Utils.SafeNameExampleEmpty | tests/test_utils.py:29 | "" becomes "empty" |
| Utils.SafeNameExampleTrailingDot | tests/test_utils.py:30 | "validname." becomes "validname_" |
| Utils.SafeNameExampleLeadingDot | tests/test_utils.py:31 | ".validname" becomes "validname", and "..x" keeps its second dot |
| Utils.SafeNameExampleBrackets | src/beauti_tex/utils.py:41 | the raw literal holds `[` and `]`, so "[a]" becomes "_a_" |
| ProjBuilder.InputLinesSplit | src/beauti_tex/proj_builder.py:73-74 | the chapter block has one line per chapter, in order, each the chapter's `\input{chapters/...}` |
| ProjBuilder.MainTextPlain | src/beauti_tex/proj_builder.py:71-75 | a template without the three tags is written to main.tex as is |
| ProjBuilder.ReplaceTagHit | src/beauti_tex/proj_builder.py:71-75 | a tag after text free of the tag's first character is replaced, and the scan continues after it |
| ProjBuilder.ReplaceKeepsTag | src/beauti_tex/proj_builder.py:71-75 | a different `<<...>>` tag is not touched by the replacement of another tag |
| ProjBuilder.ReplaceTagMiss | src/beauti_tex/proj_builder.py:71-75 | a different tag after text without `<` is kept, and the scan continues after it |
| ProjBuilder.TagShapes | src/beauti_tex/proj_builder.py:71-75 | the three tags open with `<<`, hold no other `<`, and none is a prefix of another |
| ProjBuilder.SizeFilled | src/beauti_tex/proj_builder.py:71 | the size replaces its tag and leaves the class and chapters tags in place |
| ProjBuilder.ClassFilled | src/beauti_tex/proj_builder.py:72 | the class replaces its tag and leaves the chapters tag in place |
| ProjBuilder.ChaptersFilled | src/beauti_tex/proj_builder.py:75 | the chapter lines replace the chapters tag |
| ProjBuilder.ShowIntPlain | src/beauti_tex/proj_builder.py:71 | a printed size holds no `<`, so it cannot form a tag |
| ProjBuilder.MainTextOfTags | src/beauti_tex/proj_builder.py:70-75 | in a template with the class, size and chapters tags in that order, each value lands where its tag was |
| ProjBuilder.MainTextSample | tests/test_proj_builder.py:24-26 | the test's template renders to the class, " document class, size ", the size, a newline and the chapter lines |
| ProjBuilder.ApplyChanges | src/beauti_tex/proj_builder.py:65-89 | every operation keeps the tree well formed, never removes an entry, changes an existing entry only at its written or copied target, and changes nothing when it fails |
| ProjBuilder.RunOpsChanges | src/beauti_tex/proj_builder.py:65-89 | a sequence of operations keeps the tree well formed, never removes an entry and changes existing entries only at the sequence's targets |
| ProjBuilder.AllTargetsAppend | src/beauti_tex/proj_builder.py:65-89 | the targets of two sequences run one after the other are the union of their targets |
| ProjBuilder.RunOpsAppend | src/beauti_tex/proj_builder.py:65-89 | running two sequences one after the other is running the first, and the second only if the first passed |
| ProjBuilder.MkdirsAddDirs | src/beauti_tex/proj_builder.py:65-67 | the folder loop adds only directories and keeps every old entry as it was |
| ProjBuilder.RunOpsMade | src/beauti_tex/proj_builder.py:65-67 | after a passing run, every created or touched path exists, and every created folder is a directory |
| ProjBuilder.NoTargets | src/beauti_tex/proj_builder.py:84-86 | `mkdir` and `touch` steps change no existing entry |
| ProjBuilder.MkdirExistingFails | src/beauti_tex/proj_builder.py:65-67 | a folder that already exists makes the run fail, since `exist_ok` is not given |
| ProjBuilder.MkdirTwiceFails | src/beauti_tex/proj_builder.py:65-67 | the same folder created twice without `exist_ok` makes the run fail |
| ProjBuilder.WriteTargets | src/beauti_tex/proj_builder.py:80-81 | the targets of a run of writes are the written paths |
| ProjBuilder.WritesLand | src/beauti_tex/proj_builder.py:80-81 | after a passing run of writes that agree on their shared paths, every path holds its text |
| ProjBuilder.FixedNameAppends | src/beauti_tex/proj_builder.py:76-89 | joining any of the fixed one-component names appends that one component |
| ProjBuilder.AppendixName | src/beauti_tex/proj_builder.py:84-86 | "chapters/appendix.tex" is joined as two components |
| ProjBuilder.CreateFolders | src/beauti_tex/proj_builder.py:65-67 | the folder loop leaves the entries and status of running one `mkdir(parents=True)` per configured folder, in order |
| ProjBuilder.WriteChapters | src/beauti_tex/proj_builder.py:80-81 | the chapter loop leaves the entries and status of writing each chapter's `\chapter{Capitalised}` file, in order |
| ProjBuilder.TouchFiles | src/beauti_tex/proj_builder.py:84-86 | the touch loop leaves the entries and status of touching pak.tex, literature.bib and chapters/appendix.tex |
| ProjBuilder.RenderMain | src/beauti_tex/proj_builder.py:70-75 | the rendered main.tex is `MainText`: size, then class, then chapter lines substituted |
| ProjBuilder.WriteMain | src/beauti_tex/proj_builder.py:76-79 | main.tex is written, then the chapters directory is made with `exist_ok` |
| ProjBuilder.WriteFixed | src/beauti_tex/proj_builder.py:88-89 | the abstract is written, then the title page copied |
| ProjBuilder.WriteFiles | src/beauti_tex/proj_builder.py:70-89 | the template is read first (failing with nothing written if it cannot be), then main.tex, chapters, touched files and fixed files follow, stopping at the first error |
| ProjBuilder.MakeProject | src/beauti_tex/proj_builder.py:29-90 | the method leaves exactly the outcome and entries of `MakeProjectSpec`, and the tree stays well formed |
| ProjBuilder.ChapterPath | src/beauti_tex/proj_builder.py:81 | a chapter file without `/` in its name is one component under the chapters directory |
| ProjBuilder.ScaffoldStages | src/beauti_tex/proj_builder.py:65-89 | a passing scaffold runs through the folders, the template read, main.tex, the chapters, the touched files and the fixed files, each stage passing |
| ProjBuilder.KeepsEntry | src/beauti_tex/proj_builder.py:65-89 | an entry that no step targets keeps its value |
| ProjBuilder.Persists | src/beauti_tex/proj_builder.py:65-89 | an existing entry survives any run and stays a directory exactly if it was one |
| ProjBuilder.PersistsThen | src/beauti_tex/proj_builder.py:65-89 | the same holds when continuing after an earlier result |
| ProjBuilder.FixedTargets | src/beauti_tex/proj_builder.py:88-89 | the abstract and title-page steps can change only the abstract, the title page, or a file inside a title-page directory |
| ProjBuilder.ChapterTargets | src/beauti_tex/proj_builder.py:80-81 | the chapter loop can change only the configured chapter files |
| ProjBuilder.ScaffoldGrows | src/beauti_tex/proj_builder.py:65-89 | whatever happens, no entry is removed and no directory turns into a file |
| ProjBuilder.DirStays | src/beauti_tex/proj_builder.py:65-89 | a directory made by the folder loop is still a directory at the end |
| ProjBuilder.ScaffoldKeepsFolders | src/beauti_tex/proj_builder.py:65-67 | once the folder loop passes, every configured folder is a directory at the end, even if a later step fails |
| ProjBuilder.TemplateFromStart | src/beauti_tex/proj_builder.py:70 | the template read is the one that existed before the run |
| ProjBuilder.MissingTemplateStops | src/beauti_tex/proj_builder.py:70 | a missing template main.tex makes the run fail after the folders are made, with nothing further written |
| ProjBuilder.DuplicateFolderFails | src/beauti_tex/proj_builder.py:65-67 | two configured folders naming the same path make the run fail |
| ProjBuilder.FixedWritten | src/beauti_tex/proj_builder.py:88-89 | after the fixed steps, the abstract holds its fixed text, the title page exists, the source title page was a template file, and unless a title-page directory is in the way the copy holds its content |
| ProjBuilder.ScaffoldLayout | tests/test_proj_builder.py:60-80 | a passing run leaves the root, every configured folder and the chapters directory as directories, the touched files, the abstract with its text and the title page, and the template main.tex was a file |
| ProjBuilder.SuffixCancel | src/beauti_tex/proj_builder.py:81 | two names equal after appending the same suffix are equal |
| ProjBuilder.MainWritten | src/beauti_tex/proj_builder.py:70-76 | after the main stage, main.tex holds the rendered template |
| ProjBuilder.ChaptersWritten | src/beauti_tex/proj_builder.py:80-81 | after the chapter loop, each configured chapter's file holds `\chapter{...}` with its capitalised name |
| ProjBuilder.ChapterNotFixed | src/beauti_tex/proj_builder.py:88-89 | a chapter not named "abstract" or "titlepage" is not overwritten by the fixed steps |
| ProjBuilder.ScaffoldTexts | tests/test_proj_builder.py:67-76 | a passing run leaves main.tex as the rendered template, and each chapter other than abstract/titlepage with its `\chapter{...}` text |
| ProjBuilder.PlanRoot | src/beauti_tex/proj_builder.py:51-64 | a run that passes its checks has a sanitised name, the root is that name under the base directory, the root did not exist, its parent is writable, and the configuration is the resolved one |
| ProjBuilder.ChecksChangeNothing | src/beauti_tex/proj_builder.py:51-64 | a failure other than an OS error happens exactly when a check fails, and leaves the filesystem untouched; the name "." is the one name that fails |
| ProjBuilder.SecondRunFails | src/beauti_tex/proj_builder.py:61-62 | running again with the same arguments after a successful run fails with FileExistsError on the root and changes nothing |
| ProjBuilder.FolderOpsPlain | src/beauti_tex/proj_builder.py:65-67 | for one-component folder names, `proj_path/folder` is that name directly in the project folder, made with `parents=True` and without `exist_ok` |
| ProjBuilder.LaterFoldersMissing | src/beauti_tex/proj_builder.py:65-67 | once the first folder is made, every other configured folder is still missing when the names are distinct |
| ProjBuilder.FirstFolder | src/beauti_tex/proj_builder.py:65-67 | the first `mkdir(parents=True)` of a fresh project passes and creates exactly the project folder and that folder |
| ProjBuilder.NextFolder | src/beauti_tex/proj_builder.py:65-67 | a later folder `mkdir` for a folder not made yet passes and adds exactly that folder |
| ProjBuilder.FolderRun | src/beauti_tex/proj_builder.py:65-67 | the remaining `mkdir`s for distinct folders not made yet all pass, keep every old entry and add only configured folders |
| ProjBuilder.FoldersPass | src/beauti_tex/proj_builder.py:65-67 | for a missing project folder with a directory parent and distinct one-component folder names, the whole folder loop passes |
| ProjBuilder.MainPasses | src/beauti_tex/proj_builder.py:76-79 | after the folders, writing main.tex and `mkdir(parents=True, exist_ok=True)` of the chapters directory pass when no folder is named main.tex |
| ProjBuilder.WriteReady | src/beauti_tex/proj_builder.py:80-88 | a write directly in the chapters directory passes and keeps every old entry |
| ProjBuilder.TouchReady | src/beauti_tex/proj_builder.py:84-86 | a touch directly in the project folder or the chapters directory passes |
| ProjBuilder.CopyReady | src/beauti_tex/proj_builder.py:89 | copying a template file into the chapters directory passes, since the target is not the source and is a file or can be created |
| ProjBuilder.RunReady | src/beauti_tex/proj_builder.py:80-89 | a run of such writes, touches and copies all pass |
| ProjBuilder.LaterOpsReady | src/beauti_tex/proj_builder.py:80-89 | the chapter files, the touched files, the abstract and the title page all lie directly in the project folder or its chapters directory |
| ProjBuilder.ScaffoldPasses | src/beauti_tex/proj_builder.py:65-89 | for a missing project folder whose parent is a directory, distinct one-component folder names other than main.tex, slash-free chapter names and both template files present, every filesystem call passes |
| ProjBuilder.MakeProjectPasses | tests/test_proj_builder.py:47-80 | `make_project` returns normally when its checks pass, the target directory is a directory and the configuration is buildable, as for the fixture's fresh directory |
| ProjBuilder.NoFoldersFail | src/beauti_tex/proj_builder.py:65-76 | with no folders configured nothing creates the project folder, so writing main.tex fails with `FileNotFoundError` and nothing changes |
| ProjBuilder.BelowMissing | src/beauti_tex/proj_builder.py:61-62 | nothing at or below a project folder that does not exist is an entry |
| ProjBuilder.ApplyInside | src/beauti_tex/proj_builder.py:65-89 | an operation within the root changes nothing outside it |
| ProjBuilder.RunInside | src/beauti_tex/proj_builder.py:65-89 | a run of operations within the root changes nothing outside it |
| ProjBuilder.ThenInside | src/beauti_tex/proj_builder.py:65-89 | continuing with operations within the root keeps every change inside it |
| ProjBuilder.TexRelative | src/beauti_tex/proj_builder.py:81 | a relative chapter name stays relative with ".tex" appended |
| ProjBuilder.ScaffoldInside | src/beauti_tex/proj_builder.py:65-89 | with relative folder and chapter names, the scaffold adds or changes entries only at or below the root |
| ProjBuilder.FilesInside | src/beauti_tex/proj_builder.py:70-89 | the file stages add or change entries only at or below the root |
| ProjBuilder.MakeProjectInside | src/beauti_tex/proj_builder.py:55-89 | with relative folder and chapter names, `make_project` adds or changes entries only at or below the new project root |

## Left out

- INI syntax: `configparser` parsing, interpolation, `DEFAULT` sections and option-name
  case folding are not modelled. Files are given already parsed, as maps from section to
  option to value.
- `Path` objects passed as `path`, `proj_path` or `cfg_path`: only strings and `None` are
  modelled, so a `Path("")`, which is truthy, is not covered.
- Characters: text is `seq<char>`. `capitalize()`, `strip()` and `int()` are modelled for
  ASCII letters, ASCII whitespace and ASCII digits; Unicode case mapping, Unicode whitespace
  and non-ASCII digits are not.
- Paths: "..", symlinks, permissions beyond one set of writable directories, and files
  appearing or vanishing during a run are not modelled. `os.access(p, os.W_OK)` is true
  exactly when `p` exists and is in that set.
- `Path.cwd()` and the package directory behind `__file__` are parameters. So are the
  content of `default.ini` and of the user file.
- The final `print` of `make_project` is left out, since it has no effect on the filesystem.
- `cli.py`, `projBuilder.py` and `__init__.py` are not part of this model.
- ProjBuilder.FixedWritten: the title page's content is stated only when no directory named
  `titlepage.tex` is in the way. Then `shutil.copy` writes into that directory instead, and
  the model states only which path is written.
- ProjBuilder.ScaffoldInside: confinement is stated only for relative folder and chapter
  names without a ".." component. An absolute name in the configuration makes the source
  write outside the project, and the model does the same. A ".." component is kept as an
  ordinary name, because paths are not resolved, while the operating system would step up
  out of the project.
- ProjBuilder.FilesInside: confinement is stated only for chapter names without a ".."
  component, for the same reason.
- ProjBuilder.MakeProjectInside: confinement is stated only for folder and chapter names
  without a ".." component, for the same reason.
- ProjBuilder.ScaffoldPasses: success is stated only for one-component folder names,
  chapter names without a slash and a project folder whose parent exists. Nested folder
  names such as "figures/raw" can also succeed in the source.

Where the docstrings of the source and its code disagree, the model follows the code:

- `safe_name` is not total. The name "." becomes "" after the leading dot is dropped, and
  `name[-1]` then raises IndexError; `SafeNameSpec` returns `Failure(IndexError)`.
- Only one leading dot is dropped, so "..x" gives ".x".
- The forbidden set is the raw literal `[<>:"/\\|?*]` taken character by character. So `[`
  and `]` are replaced too, and the backslash is listed twice.
- In `get_config`, the `ValueError` for an empty string can never be raised: the empty string
  is falsy, so the `if path:` guard skips it, and the model treats `""` as no path.
- `os.access` on a parent that does not exist returns False, so a missing base directory gives
  the PermissionError branch. The model has it as `NoWritePermission`.
