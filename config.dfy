/**
 * `get_config`: the project settings, read from `default.ini` next to the package and
 * optionally overridden by a user INI file. INI files are given already parsed, as maps
 * from section to option to value; which paths exist is given as a set.
 */
module Config {
  import opened Wrappers
  import opened Strings
  import opened FileSystem

  type Section = map<string, string>
  type Ini = map<string, Section>

  /** The value of `option` in `section`, if both are present. */
  function Lookup(ini: Ini, section: string, option: string): Option<string> {
    if section in ini && option in ini[section] then Some(ini[section][option]) else None
  }

  /**
   * What one more `read` of a file leaves in the parser: the sections of both, and within
   * a section the file's options over the ones held before.
   */
  function Overlay(base: Ini, top: Ini): (r: Ini)
    ensures r.Keys == base.Keys + top.Keys
    ensures forall s, o :: Lookup(r, s, o) == if Lookup(top, s, o).Some? then Lookup(top, s, o) else Lookup(base, s, o)
  {
    map s | s in base.Keys + top.Keys ::
      (if s in base then base[s] else map[]) + (if s in top then top[s] else map[])
  }

  /** Reading one file into an empty parser gives that file. */
  lemma OverlayOnEmpty(top: Ini)
    ensures Overlay(map[], top) == top
  {
    forall s | s in top ensures Overlay(map[], top)[s] == top[s] {
      assert Overlay(map[], top)[s] == map[] + top[s];
      assert map[] + top[s] == top[s];
    }
  }

  /** configparser's `ConfigParser`, holding the sections read so far. */
  class ConfigParser {
    var sections: Ini

    constructor ()
      ensures sections == map[]
    {
      sections := map[];
    }

    /** `read` of a file whose parsed content is `file`. */
    method Read(file: Ini)
      modifies this
      ensures sections == Overlay(old(sections), file)
    {
      sections := Overlay(sections, file);
    }
  }

  /** The exceptions `get_config` raises, in terms of what is missing or malformed. */
  datatype ConfigError =
    | DefaultsMissing(path: Path)
    | UserConfigMissing(path: Path)
    | NoSection(section: string)
    | NoOption(section: string, option: string)
    | TemplatesMissing(path: Path)
    | NotAnInteger(value: string)

  /** The settings of a LaTeX project. */
  datatype Config = Config(
    folders: seq<string>,
    chapters: seq<string>,
    style: string,
    tempPath: Path,
    size: int,
    clas: string,
    packages: map<string, string>)

  const DefaultFile: string := "default.ini"

  /** `config[section][option]`: a missing section or option is an error. */
  function Get(ini: Ini, section: string, option: string): (r: Result<string, ConfigError>)
    ensures r.Success? <==> Lookup(ini, section, option).Some?
    ensures r.Success? ==> Some(r.value) == Lookup(ini, section, option)
  {
    if section !in ini then Failure(NoSection(section))
    else if option !in ini[section] then Failure(NoOption(section, option))
    else Success(ini[section][option])
  }

  /** `[x.strip() for x in value.split(',')]`. */
  function ParseList(value: string): (r: seq<string>)
    ensures |r| == Count(value, ',') + 1
    ensures forall k :: 0 <= k < |r| ==> r[k] == Strip(Split(value, ',')[k])
  {
    var pieces := Split(value, ',');
    seq(|pieces|, k requires 0 <= k < |pieces| => Strip(pieces[k]))
  }

  /** The items of a parsed list hold no comma and no whitespace at either end. */
  lemma ParseListItems(value: string)
    ensures forall k :: 0 <= k < |ParseList(value)| ==>
      var item := ParseList(value)[k];
      && ',' !in item
      && (item == [] || (!IsSpace(item[0]) && !IsSpace(item[|item| - 1])))
  {
    var pieces := Split(value, ',');
    forall k | 0 <= k < |pieces| ensures ',' !in Strip(pieces[k]) {
      StripIsInfix(pieces[k]);
    }
  }

  /** `Strip` keeps a contiguous run of the characters it is given. */
  lemma StripIsInfix(s: string)
    ensures forall c :: c in Strip(s) ==> c in s
  {
    var i := CoreStart(s, 0);
    var j := CoreEnd(s, |s|);
    if i < j {
      assert forall c :: c in s[i..j] ==> c in s;
    }
  }

  /** An empty value is one empty item, not an empty list. */
  lemma ParseListEmpty()
    ensures ParseList("") == [""]
  {
    assert Split("", ',') == [""];
    assert Strip("") == "";
  }

  /** Items that need no trimming, joined with commas, are parsed back. */
  lemma ParseListOfJoin(items: seq<string>)
    requires |items| >= 1
    requires forall k :: 0 <= k < |items| ==> ',' !in items[k]
    requires forall k :: 0 <= k < |items| ==>
      items[k] == [] || (!IsSpace(items[k][0]) && !IsSpace(items[k][|items[k]| - 1]))
    ensures ParseList(JoinWith(items, ",")) == items
  {
    SplitOfJoin(items, ',');
    forall k | 0 <= k < |items| ensures Strip(items[k]) == items[k] {
      StripIsCore(items[k], 0, |items[k]|);
    }
  }

  /**
   * The project fields, read in the source's order: the four strings, then the template
   * directory, which must exist, then the integer size, the class and the packages.
   */
  function ReadFields(ini: Ini, moduleDir: Path, existing: set<Path>): Result<Config, ConfigError>
  {
    var folders :- Get(ini, "project", "folders");
    var chapters :- Get(ini, "project", "chapters");
    var style :- Get(ini, "project", "style");
    var templates :- Get(ini, "project", "templates");
    var tempPath := Join(moduleDir, templates);
    if tempPath !in existing then Failure(TemplatesMissing(tempPath))
    else
      var sizeText :- Get(ini, "project", "size");
      var size :- match ParseInt(sizeText)
                  case Some(n) => Success(n)
                  case None => Failure(NotAnInteger(sizeText));
      var clas :- Get(ini, "project", "clas");
      if "packages" !in ini then Failure(NoSection("packages"))
      else Success(Config(ParseList(folders), ParseList(chapters), style, tempPath, size, clas, ini["packages"]))
  }

  /** A user path is used when it is given and is not the empty string. */
  predicate UsesUserFile(path: Option<string>) {
    path.Some? && path.value != ""
  }

  /**
   * What `get_config(path)` returns: the defaults must exist, then a user path that is
   * used must exist, then the fields are read from the layered sections.
   */
  function ResolveConfig(path: Option<string>, moduleDir: Path, cwd: Path, existing: set<Path>,
                         defaults: Ini, user: Ini): Result<Config, ConfigError>
  {
    var defFile := moduleDir + [DefaultFile];
    if defFile !in existing then Failure(DefaultsMissing(defFile))
    else if UsesUserFile(path) && Join(cwd, path.value) !in existing then
      Failure(UserConfigMissing(Join(cwd, path.value)))
    else
      ReadFields(LayeredIni(path, defaults, user), moduleDir, existing)
  }

  /** The option a setting comes from: the user file's when it is used and has one, else the default. */
  function Layered(path: Option<string>, defaults: Ini, user: Ini, section: string, option: string): Option<string> {
    if UsesUserFile(path) && Lookup(user, section, option).Some? then Lookup(user, section, option)
    else Lookup(defaults, section, option)
  }

  /** The sections the parser holds once the files are read. */
  function LayeredIni(path: Option<string>, defaults: Ini, user: Ini): (r: Ini)
    ensures forall s, o :: Lookup(r, s, o) == Layered(path, defaults, user, s, o)
  {
    if UsesUserFile(path) then Overlay(defaults, user) else defaults
  }

  /**
   * `get_config` as the source runs it: one parser, read from the defaults and then from
   * the user file, with the existence checks before each read.
   */
  method GetConfig(path: Option<string>, moduleDir: Path, cwd: Path, existing: set<Path>,
                   defaults: Ini, user: Ini) returns (r: Result<Config, ConfigError>)
    ensures r == ResolveConfig(path, moduleDir, cwd, existing, defaults, user)
  {
    var parser := new ConfigParser();
    var defFile := moduleDir + [DefaultFile];
    if defFile !in existing {
      return Failure(DefaultsMissing(defFile));
    }
    parser.Read(defaults);
    OverlayOnEmpty(defaults);
    if path.Some? && path.value != "" {
      var userFile := Join(cwd, path.value);
      if userFile !in existing {
        return Failure(UserConfigMissing(userFile));
      }
      parser.Read(user);
    }
    r := ReadFields(parser.sections, moduleDir, existing);
  }

  /** The two file checks come before any option is looked at, whatever the files hold. */
  lemma FilesCheckedFirst(path: Option<string>, moduleDir: Path, cwd: Path, existing: set<Path>,
                          defaults: Ini, user: Ini)
    ensures moduleDir + [DefaultFile] !in existing ==>
      ResolveConfig(path, moduleDir, cwd, existing, defaults, user) == Failure(DefaultsMissing(moduleDir + [DefaultFile]))
    ensures moduleDir + [DefaultFile] in existing && UsesUserFile(path) && Join(cwd, path.value) !in existing ==>
      ResolveConfig(path, moduleDir, cwd, existing, defaults, user) == Failure(UserConfigMissing(Join(cwd, path.value)))
  {
  }

  /** An empty path behaves as no path at all; the source's empty-path error cannot arise. */
  lemma EmptyPathIsNoPath(moduleDir: Path, cwd: Path, existing: set<Path>, defaults: Ini, user: Ini)
    ensures ResolveConfig(Some(""), moduleDir, cwd, existing, defaults, user)
         == ResolveConfig(None, moduleDir, cwd, existing, defaults, user)
    ensures var r := ResolveConfig(Some(""), moduleDir, cwd, existing, defaults, user);
      r.Failure? ==> !r.error.UserConfigMissing?
  {
  }

  /** Every field of a configuration read from `ini` is the option of the same name. */
  lemma ReadFieldsValues(ini: Ini, moduleDir: Path, existing: set<Path>)
    requires ReadFields(ini, moduleDir, existing).Success?
    ensures var cfg := ReadFields(ini, moduleDir, existing).value;
      && Lookup(ini, "project", "folders").Some?
      && cfg.folders == ParseList(Lookup(ini, "project", "folders").value)
      && Lookup(ini, "project", "chapters").Some?
      && cfg.chapters == ParseList(Lookup(ini, "project", "chapters").value)
      && Lookup(ini, "project", "style") == Some(cfg.style)
      && Lookup(ini, "project", "templates").Some?
      && cfg.tempPath == Join(moduleDir, Lookup(ini, "project", "templates").value)
      && cfg.tempPath in existing
      && Lookup(ini, "project", "size").Some?
      && ParseInt(Lookup(ini, "project", "size").value) == Some(cfg.size)
      && Lookup(ini, "project", "clas") == Some(cfg.clas)
      && (forall o :: o in cfg.packages <==> Lookup(ini, "packages", o).Some?)
      && (forall o :: o in cfg.packages ==> Lookup(ini, "packages", o) == Some(cfg.packages[o]))
  {
    var folders := Get(ini, "project", "folders");
    var chapters := Get(ini, "project", "chapters");
    var style := Get(ini, "project", "style");
    var templates := Get(ini, "project", "templates");
    assert folders.Success? && chapters.Success? && style.Success? && templates.Success?;
    var tempPath := Join(moduleDir, templates.value);
    assert tempPath in existing;
    var sizeText := Get(ini, "project", "size");
    assert sizeText.Success?;
    var size := ParseInt(sizeText.value);
    assert size.Some?;
    var clas := Get(ini, "project", "clas");
    assert clas.Success? && "packages" in ini;
    assert ReadFields(ini, moduleDir, existing).value
        == Config(ParseList(folders.value), ParseList(chapters.value), style.value, tempPath,
                  size.value, clas.value, ini["packages"]);
  }

  /**
   * Every field of a resolved configuration comes from the layered options, option by
   * option: the user file wins where it sets an option, the defaults fill in the rest.
   */
  lemma ResolvedFields(path: Option<string>, moduleDir: Path, cwd: Path, existing: set<Path>,
                       defaults: Ini, user: Ini)
    requires ResolveConfig(path, moduleDir, cwd, existing, defaults, user).Success?
    ensures var cfg := ResolveConfig(path, moduleDir, cwd, existing, defaults, user).value;
      && Layered(path, defaults, user, "project", "folders").Some?
      && cfg.folders == ParseList(Layered(path, defaults, user, "project", "folders").value)
      && cfg.chapters == ParseList(Layered(path, defaults, user, "project", "chapters").value)
      && Layered(path, defaults, user, "project", "style") == Some(cfg.style)
      && Layered(path, defaults, user, "project", "clas") == Some(cfg.clas)
      && Layered(path, defaults, user, "project", "size").Some?
      && ParseInt(Layered(path, defaults, user, "project", "size").value) == Some(cfg.size)
      && (forall o :: o in cfg.packages <==> Layered(path, defaults, user, "packages", o).Some?)
      && (forall o :: o in cfg.packages ==> Layered(path, defaults, user, "packages", o) == Some(cfg.packages[o]))
  {
    var ini := LayeredIni(path, defaults, user);
    assert ResolveConfig(path, moduleDir, cwd, existing, defaults, user) == ReadFields(ini, moduleDir, existing);
    ReadFieldsValues(ini, moduleDir, existing);
    forall o ensures Lookup(ini, "packages", o) == Layered(path, defaults, user, "packages", o) {
    }
  }

  /**
   * The template directory: a relative `templates` value is taken from the module
   * directory, an absolute one as it is; it exists whenever a configuration is returned.
   */
  lemma ResolvedTemplates(path: Option<string>, moduleDir: Path, cwd: Path, existing: set<Path>,
                          defaults: Ini, user: Ini)
    requires ResolveConfig(path, moduleDir, cwd, existing, defaults, user).Success?
    ensures var cfg := ResolveConfig(path, moduleDir, cwd, existing, defaults, user).value;
      var t := Layered(path, defaults, user, "project", "templates");
      && t.Some?
      && cfg.tempPath == (if IsAbsolute(t.value) then Parts(t.value) else moduleDir + Parts(t.value))
      && cfg.tempPath in existing
  {
    var ini := LayeredIni(path, defaults, user);
    assert ResolveConfig(path, moduleDir, cwd, existing, defaults, user) == ReadFields(ini, moduleDir, existing);
    ReadFieldsTemplates(ini, moduleDir, existing);
    assert Lookup(ini, "project", "templates") == Layered(path, defaults, user, "project", "templates");
  }

  /** The template directory of a configuration read from `ini` is its `templates` option joined on. */
  lemma ReadFieldsTemplates(ini: Ini, moduleDir: Path, existing: set<Path>)
    requires ReadFields(ini, moduleDir, existing).Success?
    ensures var cfg := ReadFields(ini, moduleDir, existing).value;
      && Lookup(ini, "project", "templates").Some?
      && cfg.tempPath == Join(moduleDir, Lookup(ini, "project", "templates").value)
      && cfg.tempPath in existing
  {
    var folders := Get(ini, "project", "folders");
    var chapters := Get(ini, "project", "chapters");
    var style := Get(ini, "project", "style");
    var templates := Get(ini, "project", "templates");
    assert folders.Success? && chapters.Success? && style.Success? && templates.Success?;
    var tempPath := Join(moduleDir, templates.value);
    assert tempPath in existing;
    assert ReadFields(ini, moduleDir, existing).value.tempPath == tempPath;
  }

  /**
   * A missing template directory is reported whatever `size` holds, and a `size` that is
   * not an integer is reported once the template directory exists.
   */
  lemma TemplatesBeforeSize(ini: Ini, moduleDir: Path, existing: set<Path>)
    requires Lookup(ini, "project", "folders").Some? && Lookup(ini, "project", "chapters").Some?
    requires Lookup(ini, "project", "style").Some? && Lookup(ini, "project", "templates").Some?
    ensures var tempPath := Join(moduleDir, ini["project"]["templates"]);
      && (tempPath !in existing ==> ReadFields(ini, moduleDir, existing) == Failure(TemplatesMissing(tempPath)))
      && (tempPath in existing && Lookup(ini, "project", "size").Some? && ParseInt(ini["project"]["size"]).None? ==>
            ReadFields(ini, moduleDir, existing) == Failure(NotAnInteger(ini["project"]["size"])))
  {
  }

  /** More existing paths never turn a resolved configuration into an error or change it. */
  lemma ResolveMonotone(path: Option<string>, moduleDir: Path, cwd: Path, existing: set<Path>,
                        more: set<Path>, defaults: Ini, user: Ini)
    requires existing <= more
    requires ResolveConfig(path, moduleDir, cwd, existing, defaults, user).Success?
    ensures ResolveConfig(path, moduleDir, cwd, more, defaults, user)
         == ResolveConfig(path, moduleDir, cwd, existing, defaults, user)
  {
  }
}
