/** `load`, the properties files and `_show_context` of
    `jst/resources/context.py`.

    The file system is the map from each existing properties file to its
    parsed contents, together with the set of existing directories; copying
    a file copies its contents. */
module Context {
  import opened Results
  import opened ConfigStore
  import opened Resolver
  import opened Text

  type Files = map<string, Store>

  /** What `load` takes from the process: the home directory
      (`expanduser("~")`), the current directory (`os.getcwd()`) and the
      directory of the module, which holds the bundled templates. */
  datatype Env = Env(home: string, cwd: string, resources: string)

  /** The file system after `load`, and the resolved store. */
  datatype Loaded = Loaded(files: Files, ctx: Store)

  /** `_ensure_file_present(file, default)`: a missing file becomes a copy of
      the template; an existing file is never touched. `shutil.copy` opens
      the template first, so a missing template is reported before a missing
      target directory. */
  function EnsureFilePresent(fs: Files, dirs: set<string>, file: string, template: string): (r: Result<Files>)
    ensures r.Ok? <==> file in fs || (template in fs && Dirname(file) in dirs)
    ensures r.Ok? ==> r.value.Keys == fs.Keys + {file}
    ensures r.Ok? ==> forall f :: f in fs ==> r.value[f] == fs[f]
    ensures r.Ok? && file !in fs ==> template in fs && r.value[file] == fs[template]
    ensures r.Err? ==> r.error == (if template in fs then NoSuchFile(file) else NoSuchFile(template))
  {
    if file in fs then Ok(fs)
    else if template !in fs then Err(NoSuchFile(template))
    else if Dirname(file) !in dirs then Err(NoSuchFile(file))
    else Ok(fs[file := fs[template]])
  }

  /** `_load_properties(file, ctx)`: a missing file fails; an existing one is
      read into the store, its keys overriding those already there. */
  function LoadProperties(fs: Files, file: string, c: Store): (r: Result<Store>)
    ensures r.Ok? <==> file in fs
    ensures r.Ok? ==> r.value.Keys == c.Keys + fs[file].Keys
    ensures r.Ok? ==> forall s, p :: Lookup(r.value, s, p) ==
                                  (if Lookup(fs[file], s, p).Some? then Lookup(fs[file], s, p) else Lookup(c, s, p))
    ensures r.Err? ==> r.error == PropertiesNotFound(file)
    ensures r.Err? ==> Message(r.error) == "Cannot find properties file: " + file
  {
    if file !in fs then Err(PropertiesNotFound(file)) else Ok(Read(c, fs[file]))
  }

  /** Line 19: the store `load` starts from holds only `core.data_dir`. */
  function Seed(env: Env): (r: Store)
    ensures forall s, p :: Lookup(r, s, p) ==
                           (if s == "core" && p == "data_dir" then Some(env.home + "/." + AppName) else None)
  {
    EnsureProperty(map[], "core", "data_dir", Some(env.home + "/." + AppName)).value
  }

  /** The properties file a directory holds. */
  function PropertiesIn(dir: string): (r: string)
    ensures r == dir + "/jst.properties"
    ensures Dirname(r) == dir
  {
    PropertiesPath(dir);
    dir + "/" + AppName + ".properties"
  }

  /** The file name the properties files share, joined to a directory. */
  lemma PropertiesPath(dir: string)
    ensures dir + "/" + AppName + ".properties" == dir + "/jst.properties"
    ensures Dirname(dir + "/jst.properties") == dir
  {
    var name := "jst.properties";
    assert dir + "/" + AppName + ".properties" == dir + "/" + name by {
      assert AppName + ".properties" == name;
      AppendAssoc(dir + "/", AppName, ".properties");
    }
    assert dir + "/" + name == dir + "/jst.properties" by {
      assert "/" + name == "/jst.properties";
      AppendAssoc(dir, "/", name);
    }
    assert Dirname(dir + "/" + name) == dir by {
      PlainName();
      DirnameJoin(dir, name);
    }
  }

  lemma PlainName()
    ensures '/' !in "jst.properties"
  {
  }

  /** The user file lies in the data directory the seed names. */
  function UserFile(env: Env): (r: string)
    ensures r == env.home + "/.jst/jst.properties"
    ensures Dirname(r) == env.home + "/.jst"
  {
    DataDirShape(env.home);
    PropertiesIn(env.home + "/." + AppName)
  }

  /** The data directory and the user file as literal paths. */
  lemma DataDirShape(home: string)
    ensures home + "/." + AppName == home + "/.jst"
    ensures (home + "/." + AppName) + "/jst.properties" == home + "/.jst/jst.properties"
  {
    assert "/." + AppName == "/.jst";
    AppendAssoc(home, "/.", AppName);
    AppendAssoc(home, "/.jst", "/jst.properties");
  }

  /** The workspace file lies in the current directory. */
  function WorkspaceFile(env: Env): (r: string)
    ensures Dirname(r) == env.cwd
  {
    PropertiesIn(env.cwd)
  }

  function UserTemplate(env: Env): string {
    env.resources + "/default.user.properties"
  }

  function WorkspaceTemplate(env: Env): string {
    env.resources + "/default.workspace.properties"
  }

  /** `load(args)`: seed, make sure the user file exists and read it, make
      sure the workspace file exists and read it, then resolve every default.
      It fails only on a file it cannot create, and otherwise every key
      `_ensure_all_properties` lists holds a non-empty value. */
  function Load(env: Env, fs: Files, dirs: set<string>): (r: Result<Loaded>)
    ensures r.Err? ==> r.error.NoSuchFile?
    ensures r.Ok? ==> Resolved(r.value.ctx)
  {
    var seed := Seed(env);
    var fs1 :- EnsureFilePresent(fs, dirs, UserFile(env), UserTemplate(env));
    var c1 := LoadProperties(fs1, UserFile(env), seed).value;
    var fs2 :- EnsureFilePresent(fs1, dirs, WorkspaceFile(env), WorkspaceTemplate(env));
    var c2 := LoadProperties(fs2, WorkspaceFile(env), c1).value;
    SeedKept(env, fs1[UserFile(env)], fs2[WorkspaceFile(env)]);
    EnsureAllResolved(c2, env.cwd);
    Ok(Loaded(fs2, EnsureAllProperties(c2, env.cwd)))
  }

  lemma SeedKept(env: Env, user: Store, workspace: Store)
    ensures Has(Read(Read(Seed(env), user), workspace), "core", "data_dir")
  {
    assert Lookup(Seed(env), "core", "data_dir").Some?;
    ReadKeeps(Seed(env), user, "core", "data_dir");
    ReadKeeps(Read(Seed(env), user), workspace, "core", "data_dir");
  }

  // ---------------------------------------------------------------------------
  // What `load` promises

  /** The file-system half of `load`: the two `_ensure_file_present` calls.
      Reading the user file between them changes no file. */
  function PrepareFiles(env: Env, fs: Files, dirs: set<string>): (r: Result<Files>)
    ensures r.Ok? ==> r.value.Keys == fs.Keys + {UserFile(env), WorkspaceFile(env)}
    ensures r.Ok? ==> forall f :: f in fs ==> r.value[f] == fs[f]
  {
    var fs1 :- EnsureFilePresent(fs, dirs, UserFile(env), UserTemplate(env));
    EnsureFilePresent(fs1, dirs, WorkspaceFile(env), WorkspaceTemplate(env))
  }

  /** `load` fails exactly when preparing its files fails, with the same
      error, and otherwise leaves the prepared files behind. */
  lemma LoadPrepares(env: Env, fs: Files, dirs: set<string>)
    ensures Load(env, fs, dirs).Ok? <==> PrepareFiles(env, fs, dirs).Ok?
    ensures Load(env, fs, dirs).Ok? ==> Load(env, fs, dirs).value.files == PrepareFiles(env, fs, dirs).value
    ensures Load(env, fs, dirs).Err? ==> Load(env, fs, dirs).error == PrepareFiles(env, fs, dirs).error
  {
    var e1 := EnsureFilePresent(fs, dirs, UserFile(env), UserTemplate(env));
    if e1.Ok? {
      var e2 := EnsureFilePresent(e1.value, dirs, WorkspaceFile(env), WorkspaceTemplate(env));
      assert PrepareFiles(env, fs, dirs) == e2;
    }
  }

  /** `load` step by step: the two copies, then the two reads. */
  lemma LoadSteps(env: Env, fs: Files, dirs: set<string>)
    ensures var e1 := EnsureFilePresent(fs, dirs, UserFile(env), UserTemplate(env));
      && (e1.Err? ==> Load(env, fs, dirs) == Err(e1.error))
      && (e1.Ok? ==>
           var e2 := EnsureFilePresent(e1.value, dirs, WorkspaceFile(env), WorkspaceTemplate(env));
           && (e2.Err? ==> Load(env, fs, dirs) == Err(e2.error))
           && (e2.Ok? ==>
                && UserFile(env) in e2.value && WorkspaceFile(env) in e2.value
                && e2.value[UserFile(env)] == e1.value[UserFile(env)]
                && Has(Read(Read(Seed(env), e2.value[UserFile(env)]), e2.value[WorkspaceFile(env)]), "core", "data_dir")
                && Load(env, fs, dirs) == Ok(Loaded(e2.value, EnsureAllProperties(
                     Read(Read(Seed(env), e2.value[UserFile(env)]), e2.value[WorkspaceFile(env)]), env.cwd)))))
  {
    var e1 := EnsureFilePresent(fs, dirs, UserFile(env), UserTemplate(env));
    if e1.Ok? {
      var e2 := EnsureFilePresent(e1.value, dirs, WorkspaceFile(env), WorkspaceTemplate(env));
      if e2.Ok? {
        SeedKept(env, e2.value[UserFile(env)], e2.value[WorkspaceFile(env)]);
      }
    }
  }

  /** `load` creates the user and the workspace files when they are missing
      and leaves every existing file as it was. */
  lemma LoadFiles(env: Env, fs: Files, dirs: set<string>)
    requires Load(env, fs, dirs).Ok?
    ensures Load(env, fs, dirs).value.files.Keys == fs.Keys + {UserFile(env), WorkspaceFile(env)}
    ensures forall f :: f in fs ==> Load(env, fs, dirs).value.files[f] == fs[f]
  {
    LoadPrepares(env, fs, dirs);
  }

  /** `load` fails exactly when a file can be neither found nor copied: its
      template is missing, or its directory is. The user file is checked
      first, so its failure hides the workspace's. */
  lemma LoadFailure(env: Env, fs: Files, dirs: set<string>)
    ensures UserFile(env) !in fs && UserTemplate(env) !in fs ==>
      Load(env, fs, dirs) == Err(NoSuchFile(UserTemplate(env)))
    ensures UserFile(env) !in fs && UserTemplate(env) in fs && env.home + "/.jst" !in dirs ==>
      Load(env, fs, dirs) == Err(NoSuchFile(UserFile(env)))
    ensures (UserFile(env) in fs || (UserTemplate(env) in fs && env.home + "/.jst" in dirs)) ==>
      (Load(env, fs, dirs).Err? <==>
         && WorkspaceFile(env) !in fs && WorkspaceFile(env) != UserFile(env)
         && ((WorkspaceTemplate(env) !in fs && WorkspaceTemplate(env) != UserFile(env)) || env.cwd !in dirs))
    ensures Load(env, fs, dirs).Err? ==>
      Load(env, fs, dirs).error in {NoSuchFile(UserTemplate(env)), NoSuchFile(UserFile(env)),
                                    NoSuchFile(WorkspaceTemplate(env)), NoSuchFile(WorkspaceFile(env))}
  {
    LoadPrepares(env, fs, dirs);
  }

  /** The store `load` resolves is the seed with the user file and then the
      workspace file read over it, as they are on disk after `load`. */
  lemma LoadLayers(env: Env, fs: Files, dirs: set<string>)
    requires Load(env, fs, dirs).Ok?
    ensures UserFile(env) in Load(env, fs, dirs).value.files
    ensures WorkspaceFile(env) in Load(env, fs, dirs).value.files
    ensures Has(ReadAll(Seed(env), Layers(env, Load(env, fs, dirs).value.files)), "core", "data_dir")
    ensures Load(env, fs, dirs).value.ctx ==
      EnsureAllProperties(ReadAll(Seed(env), Layers(env, Load(env, fs, dirs).value.files)), env.cwd)
  {
    LoadSteps(env, fs, dirs);
    var files := Load(env, fs, dirs).value.files;
    ReadAllPair(Seed(env), files[UserFile(env)], files[WorkspaceFile(env)]);
  }

  /** The two properties files `load` reads, in the order it reads them. */
  function Layers(env: Env, files: Files): seq<Store>
    requires UserFile(env) in files && WorkspaceFile(env) in files
  {
    [files[UserFile(env)], files[WorkspaceFile(env)]]
  }

  /** The value a key has after reading both files, before any default. */
  function FileValue(env: Env, files: Files, section: string, prop: string): Option<string>
    requires UserFile(env) in files && WorkspaceFile(env) in files
  {
    LastDefined(Seed(env), Layers(env, files), section, prop)
  }

  /** A key that the files (or the seed) give a non-empty value keeps it:
      file values beat built-in defaults. */
  lemma LoadKeepsFileValue(env: Env, fs: Files, dirs: set<string>, section: string, prop: string)
    requires Load(env, fs, dirs).Ok?
    ensures UserFile(env) in Load(env, fs, dirs).value.files && WorkspaceFile(env) in Load(env, fs, dirs).value.files
    ensures var v := FileValue(env, Load(env, fs, dirs).value.files, section, prop);
      v.Some? && v.value != "" ==> Lookup(Load(env, fs, dirs).value.ctx, section, prop) == v
  {
    LoadLayers(env, fs, dirs);
    var files := Load(env, fs, dirs).value.files;
    var c := ReadAll(Seed(env), Layers(env, files));
    ReadAllLastWins(Seed(env), Layers(env, files), section, prop);
  }

  /** A key `_ensure_all_properties` does not list reads after `load` as the
      files left it, even when that is empty. */
  lemma LoadUnlisted(env: Env, fs: Files, dirs: set<string>, section: string, prop: string)
    requires Load(env, fs, dirs).Ok?
    requires !Listed(section, prop)
    ensures UserFile(env) in Load(env, fs, dirs).value.files && WorkspaceFile(env) in Load(env, fs, dirs).value.files
    ensures Lookup(Load(env, fs, dirs).value.ctx, section, prop) == FileValue(env, Load(env, fs, dirs).value.files, section, prop)
  {
    LoadLayers(env, fs, dirs);
    var files := Load(env, fs, dirs).value.files;
    ReadAllLastWins(Seed(env), Layers(env, files), section, prop);
    EnsureAllUnlisted(ReadAll(Seed(env), Layers(env, files)), env.cwd, section, prop);
  }

  /** Each `src` primitive after `load` is the file value when that is
      non-empty and the hardcoded default otherwise; an empty value in the
      workspace file therefore hides a user-file value. */
  lemma LoadPrimitive(env: Env, fs: Files, dirs: set<string>, i: nat)
    requires Load(env, fs, dirs).Ok?
    requires i < |SrcPrimitives|
    ensures UserFile(env) in Load(env, fs, dirs).value.files && WorkspaceFile(env) in Load(env, fs, dirs).value.files
    ensures Lookup(Load(env, fs, dirs).value.ctx, SrcPrimitives[i].section, SrcPrimitives[i].prop)
         == Settle(FileValue(env, Load(env, fs, dirs).value.files, SrcPrimitives[i].section, SrcPrimitives[i].prop),
                   SrcPrimitives[i].value)
  {
    LoadLayers(env, fs, dirs);
    var files := Load(env, fs, dirs).value.files;
    var d := SrcPrimitives[i];
    ReadAllLastWins(Seed(env), Layers(env, files), d.section, d.prop);
    EnsureAllPrimitive(ReadAll(Seed(env), Layers(env, files)), env.cwd, i);
  }

  /** The layer order: a key the workspace file sets to a non-empty value takes
      that value, and a key only the user file sets keeps the user's value. */
  lemma LoadPrecedence(env: Env, fs: Files, dirs: set<string>, section: string, prop: string)
    requires Load(env, fs, dirs).Ok?
    ensures UserFile(env) in Load(env, fs, dirs).value.files && WorkspaceFile(env) in Load(env, fs, dirs).value.files
    ensures var files := Load(env, fs, dirs).value.files;
      var w := Lookup(files[WorkspaceFile(env)], section, prop);
      w.Some? && w.value != "" ==> Lookup(Load(env, fs, dirs).value.ctx, section, prop) == w
    ensures var files := Load(env, fs, dirs).value.files;
      var w := Lookup(files[WorkspaceFile(env)], section, prop);
      var u := Lookup(files[UserFile(env)], section, prop);
      w.None? && u.Some? && u.value != "" ==> Lookup(Load(env, fs, dirs).value.ctx, section, prop) == u
  {
    var files := Load(env, fs, dirs).value.files;
    LoadKeepsFileValue(env, fs, dirs, section, prop);
    LastDefinedPair(Seed(env), files[UserFile(env)], files[WorkspaceFile(env)], section, prop);
  }

  /** Loading again on the files the first load left behind copies nothing
      and gives the same store. */
  lemma LoadRerun(env: Env, fs: Files, dirs: set<string>)
    requires Load(env, fs, dirs).Ok?
    ensures Load(env, Load(env, fs, dirs).value.files, dirs) == Load(env, fs, dirs)
  {
    LoadSteps(env, fs, dirs);
    LoadSteps(env, Load(env, fs, dirs).value.files, dirs);
  }

  // ---------------------------------------------------------------------------
  // `_show_context` and `execute`

  /** The keys `_show_context` prints, in order, with the label before each. */
  const ShowTable: seq<(string, string, string)> := [
    ("src", "url_ce", "src.url_ce  = "),
    ("src", "url_pro", "src.url_pro = "),
    ("src", "working_copy_ce", "src.working_copy_ce  = "),
    ("src", "working_copy_pro", "src.working_copy_pro = "),
    ("tc", "home", "tc.home = "),
    ("tc", "distribution", "tc.distribution = "),
    ("tc", "catalina_opts", "tc.catalina_opts = "),
    ("tc", "java_opts", "tc.java_opts = ")
  ]

  /** Every key `_show_context` indexes is there (it raises `KeyError` otherwise). */
  predicate Showable(c: Store) {
    forall i :: 0 <= i < |ShowTable| ==> Has(c, ShowTable[i].0, ShowTable[i].1)
  }

  /** `_show_context(ctx)`: the lines it prints. */
  function ShowContext(c: Store): (r: seq<string>)
    requires Showable(c)
    ensures |r| == |ShowTable|
    ensures forall i :: 0 <= i < |r| ==> r[i] == ShowTable[i].2 + Get(c, ShowTable[i].0, ShowTable[i].1)
  {
    assert Has(c, "src", "url_ce") && Has(c, "src", "url_pro") by {
      assert ShowTable[0].1 == "url_ce" && ShowTable[1].1 == "url_pro";
    }
    assert Has(c, "src", "working_copy_ce") && Has(c, "src", "working_copy_pro") by {
      assert ShowTable[2].1 == "working_copy_ce" && ShowTable[3].1 == "working_copy_pro";
    }
    assert Has(c, "tc", "home") && Has(c, "tc", "distribution") by {
      assert ShowTable[4].1 == "home" && ShowTable[5].1 == "distribution";
    }
    assert Has(c, "tc", "catalina_opts") && Has(c, "tc", "java_opts") by {
      assert ShowTable[6].1 == "catalina_opts" && ShowTable[7].1 == "java_opts";
    }
    [ "src.url_ce  = " + c["src"]["url_ce"],
      "src.url_pro = " + c["src"]["url_pro"],
      "src.working_copy_ce  = " + c["src"]["working_copy_ce"],
      "src.working_copy_pro = " + c["src"]["working_copy_pro"],
      "tc.home = " + c["tc"]["home"],
      "tc.distribution = " + c["tc"]["distribution"],
      "tc.catalina_opts = " + c["tc"]["catalina_opts"],
      "tc.java_opts = " + c["tc"]["java_opts"] ]
  }

  /** A store `load` returns can always be shown. */
  lemma ResolvedShowable(c: Store)
    requires Resolved(c)
    ensures Showable(c)
  {
    forall i | 0 <= i < |ShowTable| ensures Has(c, ShowTable[i].0, ShowTable[i].1) {
      assert Listed(ShowTable[i].0, ShowTable[i].1);
    }
  }

  /** A store whose listed keys are all set shows a value after every label. */
  lemma ResolvedShowsValues(c: Store)
    requires Resolved(c)
    ensures Showable(c)
    ensures forall i :: 0 <= i < |ShowTable| ==> |ShowContext(c)[i]| > |ShowTable[i].2|
  {
    ResolvedShowable(c);
    forall i | 0 <= i < |ShowTable| ensures |ShowContext(c)[i]| > |ShowTable[i].2| {
      assert Listed(ShowTable[i].0, ShowTable[i].1);
    }
  }

  /** After `load`, `show` prints every label followed by a non-empty value. */
  lemma ShowAfterLoad(env: Env, fs: Files, dirs: set<string>)
    requires Load(env, fs, dirs).Ok?
    ensures Showable(Load(env, fs, dirs).value.ctx)
    ensures forall i :: 0 <= i < |ShowTable| ==>
      |ShowContext(Load(env, fs, dirs).value.ctx)[i]| > |ShowTable[i].2|
  {
    ResolvedShowsValues(Load(env, fs, dirs).value.ctx);
  }

  /** `execute(action, args, ctx)`: "show" prints the context; any other
      action prints nothing. */
  function Execute(action: string, c: Store): (r: seq<string>)
    requires action == "show" ==> Showable(c)
    ensures action == "show" ==> |r| == |ShowTable|
    ensures action == "show" ==>
      forall i :: 0 <= i < |r| ==> r[i] == ShowTable[i].2 + Get(c, ShowTable[i].0, ShowTable[i].1)
    ensures action != "show" ==> r == []
  {
    if action == "show" then ShowContext(c) else []
  }
}
