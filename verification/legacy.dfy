/** The earlier resolver of `jst/common/context.py`.

    It needs both files to exist up front, copies nothing, and derives its
    keys by overwriting them unconditionally: the svn URLs are built from the
    global file's user and server and the workspace's branch, the working
    copies and the tomcat home are fixed under the current directory, and the
    tomcat distribution is taken from the global file. Everything else in the
    workspace file passes through untouched. */
module LegacyContext {
  import opened Results
  import opened ConfigStore
  import opened Effects
  import Context

  /** The global file, under the home directory. */
  function GlobalFile(home: string): string {
    home + "/.jst/jst.properties"
  }

  /** The workspace file, in the current directory. */
  function WorkspaceFile(cwd: string): string {
    cwd + "/jstcontext.properties"
  }

  /** The URL the legacy resolver writes for one edition: the global file's
      `url_<edition>` is a host, not a URL. */
  function LegacyUrl(user: string, host: string, branch: string): string {
    "svn+ssh://" + user + "@" + host + "/" + branch
  }

  /** Lines 27-28: the two URLs, each right-hand side evaluated before the
      assignment, in Python's left-to-right order. The step succeeds exactly
      when the global user and both hosts and the workspace's two branches
      are there; otherwise it fails on a missing key or section. */
  function DeriveUrls(global: Store, ws: Store): (r: Result<Store>)
    ensures r.Ok? <==>
      Has(global, "src", "user") && Has(global, "src", "url_ce") && Has(global, "src", "url_pro")
      && Has(ws, "src", "branch_ce") && Has(ws, "src", "branch_pro")
    ensures r.Err? ==> r.error.MissingSection? || r.error.MissingKey?
  {
    var user :- Item(global, "src", "user");
    var hostCe :- Item(global, "src", "url_ce");
    var branchCe :- Item(ws, "src", "branch_ce");
    var c1 := Put(ws, "src", "url_ce", LegacyUrl(user, hostCe, branchCe));
    assert Lookup(c1, "src", "branch_pro") == Lookup(ws, "src", "branch_pro");
    var hostPro :- Item(global, "src", "url_pro");
    var branchPro :- Item(c1, "src", "branch_pro");
    Ok(Put(c1, "src", "url_pro", LegacyUrl(user, hostPro, branchPro)))
  }

  /** Lines 30-34: the working copies, the distribution and the tomcat home.
      The step succeeds exactly when the global file has the distribution and
      the store has a `tc` section to assign into. */
  function DerivePaths(global: Store, c: Store, cwd: string): (r: Result<Store>)
    ensures r.Ok? <==> Has(global, "tc", "distribution") && "tc" in c
    ensures r.Err? ==> r.error in {MissingSection("tc"), MissingKey("tc", "distribution")}
  {
    var c1 := Put(Put(c, "src", "working_copy_ce", cwd + "/ce"), "src", "working_copy_pro", cwd + "/pro");
    var dist :- Item(global, "tc", "distribution");
    if "tc" !in c1 then Err(MissingSection("tc"))
    else Ok(Put(Put(c1, "tc", "distribution", dist), "tc", "home", cwd + "/tc"))
  }

  /** `load()`: the global file is checked before the workspace file, both are
      read into fresh parsers, and the six derived keys are written over the
      workspace store. A fresh parser that reads a file holds exactly the
      file's contents (`ReadFresh`). It succeeds exactly on loadable
      inputs. */
  function Load(home: string, cwd: string, fs: map<string, Store>): (r: Result<Store>)
    ensures r.Ok? <==>
      GlobalFile(home) in fs && WorkspaceFile(cwd) in fs && Loadable(fs[GlobalFile(home)], fs[WorkspaceFile(cwd)])
  {
    if GlobalFile(home) !in fs then Err(FileNotFound(GlobalFile(home)))
    else if WorkspaceFile(cwd) !in fs then Err(FileNotFound(WorkspaceFile(cwd)))
    else
      var global, ws := fs[GlobalFile(home)], fs[WorkspaceFile(cwd)];
      DeriveUrlsFrame(global, ws);
      var c :- DeriveUrls(global, ws);
      DerivePaths(global, c, cwd)
  }

  // ---------------------------------------------------------------------------
  // What `load` promises

  /** The six keys `load` writes. */
  predicate Written(section: string, prop: string) {
    || (section == "src" && prop in {"url_ce", "url_pro", "working_copy_ce", "working_copy_pro"})
    || (section == "tc" && prop in {"distribution", "home"})
  }

  /** Exactly which inputs make `load` succeed: both files, the four global
      keys, the two workspace branches and a workspace `tc` section. */
  predicate Loadable(global: Store, ws: Store) {
    && Has(global, "src", "user") && Has(global, "src", "url_ce") && Has(global, "src", "url_pro")
    && Has(global, "tc", "distribution")
    && Has(ws, "src", "branch_ce") && Has(ws, "src", "branch_pro")
    && "tc" in ws
  }

  /** `ConfigParser().read(file)` yields the file's contents. */
  lemma ReadFresh(layer: Store)
    ensures Read(map[], layer) == layer
  {
    StoreEquality(Read(map[], layer), layer);
  }

  /** A missing global file is reported first, whatever the workspace. */
  lemma LoadMissingFiles(home: string, cwd: string, fs: map<string, Store>)
    ensures GlobalFile(home) !in fs ==> Load(home, cwd, fs) == Err(FileNotFound(GlobalFile(home)))
    ensures GlobalFile(home) in fs && WorkspaceFile(cwd) !in fs ==>
      Load(home, cwd, fs) == Err(FileNotFound(WorkspaceFile(cwd)))
    ensures Load(home, cwd, fs).Err? && Load(home, cwd, fs).error.FileNotFound? ==>
      Message(Load(home, cwd, fs).error) in {GlobalFile(home), WorkspaceFile(cwd)}
  {
  }

  /** The URL step changes only the two URLs, and no section. */
  lemma DeriveUrlsFrame(global: Store, ws: Store)
    ensures DeriveUrls(global, ws).Ok? ==> forall s, p :: s != "src" || (p != "url_ce" && p != "url_pro") ==>
      Lookup(DeriveUrls(global, ws).value, s, p) == Lookup(ws, s, p)
    ensures DeriveUrls(global, ws).Ok? ==> DeriveUrls(global, ws).value.Keys == ws.Keys
  {
    if Has(global, "src", "user") && Has(global, "src", "url_ce") && Has(ws, "src", "branch_ce") {
      var c1 := Put(ws, "src", "url_ce", LegacyUrl(Get(global, "src", "user"), Get(global, "src", "url_ce"), Get(ws, "src", "branch_ce")));
      assert Lookup(c1, "src", "branch_pro") == Lookup(ws, "src", "branch_pro");
    }
  }

  /** The path step changes only the six written keys, and adds at most the
      `src` section. */
  lemma DerivePathsFrame(global: Store, c: Store, cwd: string)
    ensures DerivePaths(global, c, cwd).Ok? ==> forall s, p :: !Written(s, p) ==>
      Lookup(DerivePaths(global, c, cwd).value, s, p) == Lookup(c, s, p)
    ensures DerivePaths(global, c, cwd).Ok? ==> DerivePaths(global, c, cwd).value.Keys == c.Keys + {"src"}
  {
    WrittenKeysDistinct();
  }

  /** The six written keys and their sections have pairwise different
      lengths, so they are pairwise different. */
  lemma WrittenKeysDistinct()
    ensures |"src"| == 3 && |"tc"| == 2
    ensures |"url_ce"| == 6 && |"url_pro"| == 7
    ensures |"working_copy_ce"| == 15 && |"working_copy_pro"| == 16
    ensures |"distribution"| == 12 && |"home"| == 4
  {
  }

  /** Every workspace key other than the six written passes through unchanged,
      and no section is added. */
  lemma LoadPassThrough(home: string, cwd: string, fs: map<string, Store>, section: string, prop: string)
    requires Load(home, cwd, fs).Ok?
    requires !Written(section, prop)
    ensures WorkspaceFile(cwd) in fs
    ensures Lookup(Load(home, cwd, fs).value, section, prop) == Lookup(fs[WorkspaceFile(cwd)], section, prop)
    ensures Load(home, cwd, fs).value.Keys == fs[WorkspaceFile(cwd)].Keys
  {
    var global, ws := fs[GlobalFile(home)], fs[WorkspaceFile(cwd)];
    DeriveUrlsFrame(global, ws);
    var c := DeriveUrls(global, ws).value;
    DerivePathsFrame(global, c, cwd);
    assert "src" in ws;
  }

  /** The six written keys, whatever the workspace said about them: URLs from
      the global user and host and the workspace branch, working copies and
      tomcat home under the current directory, the distribution from the
      global file. */
  lemma LoadWritten(home: string, cwd: string, fs: map<string, Store>)
    requires Load(home, cwd, fs).Ok?
    ensures GlobalFile(home) in fs && WorkspaceFile(cwd) in fs
    ensures Loadable(fs[GlobalFile(home)], fs[WorkspaceFile(cwd)])
    ensures var global, ws, r := fs[GlobalFile(home)], fs[WorkspaceFile(cwd)], Load(home, cwd, fs).value;
      && Lookup(r, "src", "url_ce") ==
           Some(LegacyUrl(Get(global, "src", "user"), Get(global, "src", "url_ce"), Get(ws, "src", "branch_ce")))
      && Lookup(r, "src", "url_pro") ==
           Some(LegacyUrl(Get(global, "src", "user"), Get(global, "src", "url_pro"), Get(ws, "src", "branch_pro")))
      && Lookup(r, "src", "working_copy_ce") == Some(cwd + "/ce")
      && Lookup(r, "src", "working_copy_pro") == Some(cwd + "/pro")
      && Lookup(r, "tc", "distribution") == Some(Get(global, "tc", "distribution"))
      && Lookup(r, "tc", "home") == Some(cwd + "/tc")
  {
    var global, ws := fs[GlobalFile(home)], fs[WorkspaceFile(cwd)];
    DeriveUrlsFrame(global, ws);
    DeriveUrlsWritten(global, ws);
    var c := DeriveUrls(global, ws).value;
    DerivePathsFrame(global, c, cwd);
    DerivePathsWritten(global, c, cwd);
  }

  /** The two URLs `DeriveUrls` writes. */
  lemma DeriveUrlsWritten(global: Store, ws: Store)
    requires DeriveUrls(global, ws).Ok?
    ensures var r := DeriveUrls(global, ws).value;
      && Has(global, "src", "user") && Has(global, "src", "url_ce") && Has(global, "src", "url_pro")
      && Has(ws, "src", "branch_ce") && Has(ws, "src", "branch_pro")
      && Lookup(r, "src", "url_ce") ==
           Some(LegacyUrl(Get(global, "src", "user"), Get(global, "src", "url_ce"), Get(ws, "src", "branch_ce")))
      && Lookup(r, "src", "url_pro") ==
           Some(LegacyUrl(Get(global, "src", "user"), Get(global, "src", "url_pro"), Get(ws, "src", "branch_pro")))
  {
    DeriveUrlsFrame(global, ws);
    var c1 := Put(ws, "src", "url_ce", LegacyUrl(Get(global, "src", "user"), Get(global, "src", "url_ce"), Get(ws, "src", "branch_ce")));
    assert Lookup(c1, "src", "branch_pro") == Lookup(ws, "src", "branch_pro");
  }

  /** The four paths `DerivePaths` writes; the URLs stay as they were. */
  lemma DerivePathsWritten(global: Store, c: Store, cwd: string)
    requires DerivePaths(global, c, cwd).Ok?
    ensures var r := DerivePaths(global, c, cwd).value;
      && Has(global, "tc", "distribution")
      && Lookup(r, "src", "url_ce") == Lookup(c, "src", "url_ce")
      && Lookup(r, "src", "url_pro") == Lookup(c, "src", "url_pro")
      && Lookup(r, "src", "working_copy_ce") == Some(cwd + "/ce")
      && Lookup(r, "src", "working_copy_pro") == Some(cwd + "/pro")
      && Lookup(r, "tc", "distribution") == Some(Get(global, "tc", "distribution"))
      && Lookup(r, "tc", "home") == Some(cwd + "/tc")
  {
    WrittenKeysDistinct();
    var c1 := Put(c, "src", "working_copy_ce", cwd + "/ce");
    var c2 := Put(c1, "src", "working_copy_pro", cwd + "/pro");
    var c3 := Put(c2, "tc", "distribution", Get(global, "tc", "distribution"));
    var r := Put(c3, "tc", "home", cwd + "/tc");
    assert DerivePaths(global, c, cwd).value == r;
    assert Lookup(c3, "src", "url_ce") == Lookup(c, "src", "url_ce");
    assert Lookup(c3, "src", "url_pro") == Lookup(c, "src", "url_pro");
    assert Lookup(c3, "src", "working_copy_ce") == Some(cwd + "/ce");
    assert Lookup(c3, "src", "working_copy_pro") == Some(cwd + "/pro");
  }

  // ---------------------------------------------------------------------------
  // `show`

  /** `show(ctx)` over `rows` of section, key and label: it prints each
      label and value in order, and stops with the `KeyError` of the first
      section or key that is missing, after printing the lines before it. */
  function ShowRows(c: Store, rows: seq<(string, string, string)>): (r: Run)
    ensures |r.trace| <= |rows|
    ensures forall k :: 0 <= k < |r.trace| ==>
      && Has(c, rows[k].0, rows[k].1)
      && r.trace[k] == Print(rows[k].2 + Get(c, rows[k].0, rows[k].1) + "\n")
    ensures r.failure.None? <==> |r.trace| == |rows|
    ensures r.failure.Some? ==> Item(c, rows[|r.trace|].0, rows[|r.trace|].1) == Err(r.failure.value)
    decreases |rows|
  {
    if |rows| == 0 then Done([])
    else
      var (section, prop, caption) := rows[0];
      match Item(c, section, prop)
      case Err(e) => Run([], Some(e))
      case Ok(v) =>
        var rest := ShowRows(c, rows[1..]);
        var out := Run([Print(caption + v + "\n")] + rest.trace, rest.failure);
        assert forall k :: 1 <= k < |out.trace| ==> out.trace[k] == rest.trace[k - 1] && rows[1..][k - 1] == rows[k];
        out
  }

  /** `show(ctx)`: every line when the eight keys are there; otherwise the
      lines before the first missing one, then its `KeyError`. */
  function Show(c: Store): (r: Run)
    ensures |r.trace| <= |Context.ShowTable|
    ensures r.failure.None? <==> Context.Showable(c)
    ensures r.failure.None? ==> |r.trace| == |Context.ShowTable|
    ensures forall k :: 0 <= k < |r.trace| ==>
      && Has(c, Context.ShowTable[k].0, Context.ShowTable[k].1)
      && r.trace[k] == Print(Context.ShowTable[k].2 + Get(c, Context.ShowTable[k].0, Context.ShowTable[k].1) + "\n")
    ensures r.failure.Some? ==>
      && |r.trace| < |Context.ShowTable|
      && Item(c, Context.ShowTable[|r.trace|].0, Context.ShowTable[|r.trace|].1) == Err(r.failure.value)
  {
    ShowRows(c, Context.ShowTable)
  }

  lemma WrittenPresent(home: string, cwd: string, fs: map<string, Store>)
    requires Load(home, cwd, fs).Ok?
    ensures var r := Load(home, cwd, fs).value;
      && Has(r, "src", "url_ce") && Has(r, "src", "url_pro")
      && Has(r, "src", "working_copy_ce") && Has(r, "src", "working_copy_pro")
      && Has(r, "tc", "home") && Has(r, "tc", "distribution")
  {
    LoadWritten(home, cwd, fs);
  }

  /** The section and key of each line `show` prints. */
  lemma ShowTableKeys()
    ensures Context.ShowTable[0].0 == "src" && Context.ShowTable[0].1 == "url_ce"
    ensures Context.ShowTable[1].0 == "src" && Context.ShowTable[1].1 == "url_pro"
    ensures Context.ShowTable[2].0 == "src" && Context.ShowTable[2].1 == "working_copy_ce"
    ensures Context.ShowTable[3].0 == "src" && Context.ShowTable[3].1 == "working_copy_pro"
    ensures Context.ShowTable[4].0 == "tc" && Context.ShowTable[4].1 == "home"
    ensures Context.ShowTable[5].0 == "tc" && Context.ShowTable[5].1 == "distribution"
    ensures Context.ShowTable[6].0 == "tc" && Context.ShowTable[6].1 == "catalina_opts"
    ensures Context.ShowTable[7].0 == "tc" && Context.ShowTable[7].1 == "java_opts"
  {
  }

  /** With the six keys `load` writes in place, `show` prints six lines and
      raises `KeyError` when `tc.catalina_opts` is missing, seven when only
      `tc.java_opts` is, and all eight otherwise. */
  lemma ShowOnceWritten(r: Store)
    requires Has(r, "src", "url_ce") && Has(r, "src", "url_pro")
    requires Has(r, "src", "working_copy_ce") && Has(r, "src", "working_copy_pro")
    requires Has(r, "tc", "home") && Has(r, "tc", "distribution")
    ensures Lookup(r, "tc", "catalina_opts").None? ==>
      |Show(r).trace| == 6 && Show(r).failure == Some(MissingKey("tc", "catalina_opts"))
    ensures Lookup(r, "tc", "catalina_opts").Some? && Lookup(r, "tc", "java_opts").None? ==>
      |Show(r).trace| == 7 && Show(r).failure == Some(MissingKey("tc", "java_opts"))
    ensures Show(r).failure.None? <==>
      Lookup(r, "tc", "catalina_opts").Some? && Lookup(r, "tc", "java_opts").Some?
  {
    var out := Show(r);
    ShowTableKeys();
    forall j | 0 <= j < 6
      ensures Has(r, Context.ShowTable[j].0, Context.ShowTable[j].1)
    {
    }
    if Lookup(r, "tc", "catalina_opts").None? {
      assert !Has(r, Context.ShowTable[6].0, Context.ShowTable[6].1);
    } else if Lookup(r, "tc", "java_opts").None? {
      assert !Has(r, Context.ShowTable[7].0, Context.ShowTable[7].1);
    }
  }

  lemma OptionsNotWritten()
    ensures !Written("tc", "catalina_opts") && !Written("tc", "java_opts")
  {
    assert |"catalina_opts"| == 13 && |"java_opts"| == 9;
  }

  /** After `load`, `show` prints all eight lines exactly when the workspace
      file gave both JVM option keys; without `tc.catalina_opts` it prints
      six lines and raises `KeyError`. */
  lemma LoadShowable(home: string, cwd: string, fs: map<string, Store>)
    requires Load(home, cwd, fs).Ok?
    ensures WorkspaceFile(cwd) in fs
    ensures Show(Load(home, cwd, fs).value).failure.None? <==>
      Lookup(fs[WorkspaceFile(cwd)], "tc", "catalina_opts").Some? && Lookup(fs[WorkspaceFile(cwd)], "tc", "java_opts").Some?
    ensures Lookup(fs[WorkspaceFile(cwd)], "tc", "catalina_opts").None? ==>
      |Show(Load(home, cwd, fs).value).trace| == 6
      && Show(Load(home, cwd, fs).value).failure == Some(MissingKey("tc", "catalina_opts"))
  {
    var r := Load(home, cwd, fs).value;
    OptionsNotWritten();
    LoadPassThrough(home, cwd, fs, "tc", "catalina_opts");
    LoadPassThrough(home, cwd, fs, "tc", "java_opts");
    var ws := fs[WorkspaceFile(cwd)];
    assert Lookup(r, "tc", "catalina_opts") == Lookup(ws, "tc", "catalina_opts");
    assert Lookup(r, "tc", "java_opts") == Lookup(ws, "tc", "java_opts");
    WrittenPresent(home, cwd, fs);
    ShowOnceWritten(r);
  }

  /** When the eight keys are there, `show` prints the same lines as the
      later `_show_context`, each ended by a line break. */
  lemma ShowMatchesLater(c: Store)
    requires Context.Showable(c)
    ensures Show(c).failure.None?
    ensures |Show(c).trace| == |Context.ShowContext(c)|
    ensures forall k :: 0 <= k < |Context.ShowContext(c)| ==>
      Show(c).trace[k] == Print(Context.ShowContext(c)[k] + "\n")
  {
  }
}
