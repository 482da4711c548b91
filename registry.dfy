/**
 * The registry a build script fills before calling cbrew_build: the handler's array of
 * projects, each with appendable lists of wildcards, include directories, defines,
 * flags, links and configurations, each configuration with its own defines and flags.
 *
 * The C code hands out pointers into the arrays; the model hands out indices (a project
 * index, and a project index with a config index), and every operation is a method on
 * the Registry object that rewrites the affected entry in place.
 */
module Registry {
  import opened Text
  import opened Paths

  /** CbrewProjectType is a uint8_t. */
  newtype u8 = x: int | 0 <= x < 256

  const APP: u8 := 0
  const STATIC_LIB: u8 := 1
  const DYNAMIC_LIB: u8 := 2
  /** One past the last valid project type. */
  const TYPE_SIZE: u8 := 3

  datatype Config = Config(
    name: string,
    targetDir: string,
    objDir: string,
    defines: seq<string>,
    flags: seq<string>)

  datatype Project = Project(
    name: string,
    kind: u8,
    wildcards: seq<string>,
    includeDirs: seq<string>,
    defines: seq<string>,
    flags: seq<string>,
    links: seq<string>,
    configs: seq<Config>)

  /** The zeroed entry memset gives a new project, with its name and type filled in. */
  function NewProject(name: string, kind: u8): Project
  {
    Project(name, kind, [], [], [], [], [], [])
  }

  /** The zeroed entry of a new config; both directories are stored normalised. */
  function NewConfig(name: string, targetDir: string, objDir: string, sep: char): Config
  {
    Config(name, Path(targetDir, sep), Path(objDir, sep), [], [])
  }

  function ProjectNames(ps: seq<Project>): seq<string>
  {
    seq(|ps|, i requires 0 <= i < |ps| => ps[i].name)
  }

  function ConfigNames(cs: seq<Config>): seq<string>
  {
    seq(|cs|, i requires 0 <= i < |cs| => cs[i].name)
  }

  predicate Unique(names: seq<string>)
  {
    forall i, j :: 0 <= i < j < |names| ==> names[i] != names[j]
  }

  /** A stored path is one cbrew_path leaves as it is. */
  predicate Normalised(s: string, sep: char)
  {
    Path(s, sep) == s
  }

  predicate AllNormalised(xs: seq<string>, sep: char)
  {
    forall i :: 0 <= i < |xs| ==> Normalised(xs[i], sep)
  }

  predicate ConfigOk(c: Config, sep: char)
  {
    Normalised(c.targetDir, sep) && Normalised(c.objDir, sep)
  }

  /** What every project entry satisfies: normalised paths, and config names that are unique. */
  predicate ProjectOk(p: Project, sep: char)
  {
    && AllNormalised(p.wildcards, sep)
    && AllNormalised(p.includeDirs, sep)
    && AllNormalised(p.links, sep)
    && Unique(ConfigNames(p.configs))
    && forall c :: 0 <= c < |p.configs| ==> ConfigOk(p.configs[c], sep)
  }

  /** The registry invariant: unique project names and well-formed entries. */
  predicate RegistryOk(ps: seq<Project>, sep: char)
  {
    Unique(ProjectNames(ps)) && forall i :: 0 <= i < |ps| ==> ProjectOk(ps[i], sep)
  }

  /** The projects after cbrew_project_create: unchanged when the name exists, else one entry more. */
  function WithProject(ps: seq<Project>, name: string, kind: u8): seq<Project>
  {
    if name in ProjectNames(ps) then ps else ps + [NewProject(name, kind)]
  }

  /** The configs after cbrew_project_config_create. */
  function WithConfig(cs: seq<Config>, name: string, targetDir: string, objDir: string, sep: char): seq<Config>
  {
    if name in ConfigNames(cs) then cs else cs + [NewConfig(name, targetDir, objDir, sep)]
  }

  /** Replacing one project's configurations by a well-formed list keeps the registry invariant. */
  lemma ConfigsReplaced(ps: seq<Project>, p: nat, cs: seq<Config>, sep: char)
    requires RegistryOk(ps, sep) && p < |ps|
    requires Unique(ConfigNames(cs)) && forall c :: 0 <= c < |cs| ==> ConfigOk(cs[c], sep)
    ensures RegistryOk(ps[p := ps[p].(configs := cs)], sep)
  {
    assert ProjectNames(ps[p := ps[p].(configs := cs)]) == ProjectNames(ps);
  }

  /**
   * Creating a project keeps the registry invariant, keeps every existing entry, finds
   * the entry under the name afterwards, and a second create with the same name (of any
   * type) changes nothing more.
   */
  lemma WithProjectProperties(ps: seq<Project>, name: string, kind: u8, kind': u8, sep: char)
    requires RegistryOk(ps, sep)
    ensures var ps' := WithProject(ps, name, kind);
      && RegistryOk(ps', sep)
      && ps <= ps'
      && |ps'| <= |ps| + 1
      && name in ProjectNames(ps')
      && WithProject(ps', name, kind') == ps'
  {
    var ps' := WithProject(ps, name, kind);
    if name !in ProjectNames(ps) {
      assert ProjectNames(ps') == ProjectNames(ps) + [name];
    }
  }

  /** The same for configs within a project. */
  lemma WithConfigProperties(cs: seq<Config>, name: string, targetDir: string, objDir: string,
                             targetDir': string, objDir': string, sep: char)
    requires Unique(ConfigNames(cs)) && forall c :: 0 <= c < |cs| ==> ConfigOk(cs[c], sep)
    ensures var cs' := WithConfig(cs, name, targetDir, objDir, sep);
      && Unique(ConfigNames(cs'))
      && (forall c :: 0 <= c < |cs'| ==> ConfigOk(cs'[c], sep))
      && cs <= cs'
      && |cs'| <= |cs| + 1
      && name in ConfigNames(cs')
      && WithConfig(cs', name, targetDir', objDir', sep) == cs'
  {
    var cs' := WithConfig(cs, name, targetDir, objDir, sep);
    if name !in ConfigNames(cs) {
      assert ConfigNames(cs') == ConfigNames(cs) + [name];
      PathIdempotent(targetDir, sep);
      PathIdempotent(objDir, sep);
    }
  }

  /** The handler: every registered project, in registration order. */
  class Registry {
    const platform: Platform
    var projects: seq<Project>

    ghost predicate Valid()
      reads this
    {
      RegistryOk(projects, platform.Sep())
    }

    constructor(platform: Platform)
      ensures this.platform == platform && projects == []
      ensures Valid()
    {
      this.platform := platform;
      projects := [];
    }

    /** cbrew_project_create: a linear search by name, then an append of a zeroed entry. */
    method CreateProject(name: string, kind: u8) returns (p: nat)
      requires Valid()
      modifies this
      ensures Valid()
      ensures projects == WithProject(old(projects), name, kind)
      ensures IndexOf(ProjectNames(projects), name) == Some(p)
    {
      var i := 0;
      while i < |projects|
        invariant i <= |projects|
        invariant name !in ProjectNames(projects)[..i]
      {
        if projects[i].name == name {
          assert ProjectNames(projects)[i] == name;
          return i;
        }
        i := i + 1;
      }
      assert ProjectNames(projects)[..i] == ProjectNames(projects);
      WithProjectProperties(projects, name, kind, kind, platform.Sep());
      projects := projects + [NewProject(name, kind)];
      p := |projects| - 1;
      assert ProjectNames(projects) == ProjectNames(old(projects)) + [name];
    }

    /** cbrew_project_add_files: the wildcard is stored normalised. */
    method AddFiles(p: nat, wildcard: string)
      requires Valid() && p < |projects|
      modifies this
      ensures Valid()
      ensures var old' := old(projects[p]);
        projects == old(projects)[p := old'.(wildcards := old'.wildcards + [Path(wildcard, platform.Sep())])]
    {
      var pr := projects[p];
      PathIdempotent(wildcard, platform.Sep());
      projects := projects[p := pr.(wildcards := pr.wildcards + [Path(wildcard, platform.Sep())])];
      assert ProjectNames(projects) == ProjectNames(old(projects));
    }

    /** cbrew_project_add_include_dir: the directory is stored normalised. */
    method AddIncludeDir(p: nat, includeDir: string)
      requires Valid() && p < |projects|
      modifies this
      ensures Valid()
      ensures var old' := old(projects[p]);
        projects == old(projects)[p := old'.(includeDirs := old'.includeDirs + [Path(includeDir, platform.Sep())])]
    {
      var pr := projects[p];
      PathIdempotent(includeDir, platform.Sep());
      projects := projects[p := pr.(includeDirs := pr.includeDirs + [Path(includeDir, platform.Sep())])];
      assert ProjectNames(projects) == ProjectNames(old(projects));
    }

    /** cbrew_project_add_link: the link is stored normalised. */
    method AddLink(p: nat, link: string)
      requires Valid() && p < |projects|
      modifies this
      ensures Valid()
      ensures var old' := old(projects[p]);
        projects == old(projects)[p := old'.(links := old'.links + [Path(link, platform.Sep())])]
    {
      var pr := projects[p];
      PathIdempotent(link, platform.Sep());
      projects := projects[p := pr.(links := pr.links + [Path(link, platform.Sep())])];
      assert ProjectNames(projects) == ProjectNames(old(projects));
    }

    /** cbrew_project_add_define: stored verbatim. */
    method AddDefine(p: nat, define: string)
      requires Valid() && p < |projects|
      modifies this
      ensures Valid()
      ensures var old' := old(projects[p]);
        projects == old(projects)[p := old'.(defines := old'.defines + [define])]
    {
      var pr := projects[p];
      projects := projects[p := pr.(defines := pr.defines + [define])];
      assert ProjectNames(projects) == ProjectNames(old(projects));
    }

    /** cbrew_project_add_flag: stored verbatim. */
    method AddFlag(p: nat, flag: string)
      requires Valid() && p < |projects|
      modifies this
      ensures Valid()
      ensures var old' := old(projects[p]);
        projects == old(projects)[p := old'.(flags := old'.flags + [flag])]
    {
      var pr := projects[p];
      projects := projects[p := pr.(flags := pr.flags + [flag])];
      assert ProjectNames(projects) == ProjectNames(old(projects));
    }

    /** cbrew_project_config_create: a search by name within the project, then an append. */
    method CreateConfig(p: nat, name: string, targetDir: string, objDir: string) returns (c: nat)
      requires Valid() && p < |projects|
      modifies this
      ensures Valid()
      ensures var old' := old(projects[p]);
        projects == old(projects)[p := old'.(configs := WithConfig(old'.configs, name, targetDir, objDir, platform.Sep()))]
      ensures IndexOf(ConfigNames(projects[p].configs), name) == Some(c)
    {
      hide IndexOf;
      var pr := projects[p];
      ghost var names := ConfigNames(pr.configs);
      var i := 0;
      while i < |pr.configs|
        invariant i <= |pr.configs|
        invariant name !in names[..i]
      {
        if pr.configs[i].name == name {
          IndexOfFirst(names, name, i);
          return i;
        }
        i := i + 1;
      }
      assert names[..i] == names;
      var sep := platform.Sep();
      WithConfigProperties(pr.configs, name, targetDir, objDir, targetDir, objDir, sep);
      var cs := pr.configs + [NewConfig(name, targetDir, objDir, sep)];
      ConfigsReplaced(projects, p, cs, sep);
      projects := projects[p := pr.(configs := cs)];
      c := |cs| - 1;
      assert ConfigNames(cs) == names + [name];
      IndexOfFirst(ConfigNames(cs), name, c);
    }

    /** cbrew_config_add_define: stored verbatim. */
    method AddConfigDefine(p: nat, c: nat, define: string)
      requires Valid() && p < |projects| && c < |projects[p].configs|
      modifies this
      ensures Valid()
      ensures var pr := old(projects[p]); var cf := pr.configs[c];
        projects == old(projects)[p := pr.(configs := pr.configs[c := cf.(defines := cf.defines + [define])])]
    {
      var pr := projects[p];
      var cf := pr.configs[c];
      var cs := pr.configs[c := cf.(defines := cf.defines + [define])];
      assert ConfigNames(cs) == ConfigNames(pr.configs);
      projects := projects[p := pr.(configs := cs)];
      assert ProjectNames(projects) == ProjectNames(old(projects));
    }

    /** cbrew_config_add_flag: stored verbatim. */
    method AddConfigFlag(p: nat, c: nat, flag: string)
      requires Valid() && p < |projects| && c < |projects[p].configs|
      modifies this
      ensures Valid()
      ensures var pr := old(projects[p]); var cf := pr.configs[c];
        projects == old(projects)[p := pr.(configs := pr.configs[c := cf.(flags := cf.flags + [flag])])]
    {
      var pr := projects[p];
      var cf := pr.configs[c];
      var cs := pr.configs[c := cf.(flags := cf.flags + [flag])];
      assert ConfigNames(cs) == ConfigNames(pr.configs);
      projects := projects[p := pr.(configs := cs)];
      assert ProjectNames(projects) == ProjectNames(old(projects));
    }
  }
}
