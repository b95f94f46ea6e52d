/** The layered configuration resolver of `jst/resources/context.py`.

    `Load` seeds `core.data_dir`, makes sure the user and the workspace
    properties files exist (copying a bundled template when one is missing),
    reads the user file and then the workspace file into the store, and finally
    fills every key that is still absent or empty with its default, in a fixed
    order in which derived defaults are built from keys resolved before them. */
module Resolver {
  import opened Results
  import opened ConfigStore

  const AppName: string := "jst"

  // ---------------------------------------------------------------------------
  // The single rule: `_ensure_property`

  /** The value a key ends up with under the rule: the value it had when that
      was present and non-empty, the default otherwise. */
  function Settle(v: Option<string>, default: string): Option<string> {
    if v.Some? && v.value != "" then v else Some(default)
  }

  /** `_ensure_property(ctx, section, prop, default)`: a present, non-empty
      value is kept; otherwise a non-empty default is written (creating the
      section when needed); otherwise the property is mandatory and the call
      fails, leaving the store as it was. */
  function EnsureProperty(c: Store, section: string, prop: string, default: Option<string>): (r: Result<Store>)
    ensures IsSet(c, section, prop) ==> r == Ok(c)
    ensures default.Some? && default.value != "" ==>
      && r.Ok?
      && (forall s, p :: Lookup(r.value, s, p) ==
            if s == section && p == prop then Settle(Lookup(c, s, p), default.value) else Lookup(c, s, p))
      && r.value.Keys == c.Keys + {section}
    ensures !IsSet(c, section, prop) && (default.None? || default.value == "") ==>
      r == Err(Mandatory(section, prop))
    ensures r.Err? ==> Message(r.error) == "Property " + section + "." + prop + " is mandatory"
  {
    if IsSet(c, section, prop) then Ok(c)
    else if default.Some? && default.value != "" then Ok(Put(c, section, prop, default.value))
    else Err(Mandatory(section, prop))
  }

  /** A second application of the rule with the same arguments changes nothing. */
  lemma EnsurePropertyIdempotent(c: Store, section: string, prop: string, default: Option<string>)
    requires EnsureProperty(c, section, prop, default).Ok?
    ensures EnsureProperty(EnsureProperty(c, section, prop, default).value, section, prop, default)
            == EnsureProperty(c, section, prop, default)
  {
    var r := EnsureProperty(c, section, prop, default).value;
    assert Lookup(r, section, prop).Some?;
  }

  // ---------------------------------------------------------------------------
  // The defaults: `_ensure_all_properties`

  /** One `_ensure_property` call with a default. */
  datatype Default = Default(section: string, prop: string, value: string)

  /** The calls of a table never fall through to the mandatory error. */
  predicate NonEmptyDefaults(ds: seq<Default>) {
    forall i :: 0 <= i < |ds| ==> ds[i].value != ""
  }

  /** The key `section.prop` is not one that the table defaults. */
  predicate Untouched(ds: seq<Default>, section: string, prop: string) {
    forall i :: 0 <= i < |ds| ==> ds[i].section != section || ds[i].prop != prop
  }

  /** No key is defaulted twice in one table. */
  predicate Distinct(ds: seq<Default>) {
    forall i, j :: 0 <= i < j < |ds| ==> ds[i].section != ds[j].section || ds[i].prop != ds[j].prop
  }

  /** After resolution the key of `d` holds the value it had before when that
      was non-empty, and the default of `d` otherwise. */
  ghost predicate Resolves(before: Store, after: Store, d: Default) {
    Lookup(after, d.section, d.prop) == Settle(Lookup(before, d.section, d.prop), d.value)
  }

  /** A run of `_ensure_property` calls, first to last. A key that already
      holds a non-empty value keeps it, whatever the table. */
  function EnsureEach(c: Store, ds: seq<Default>): (r: Store)
    requires NonEmptyDefaults(ds)
    ensures forall s, p :: IsSet(c, s, p) ==> Lookup(r, s, p) == Lookup(c, s, p)
    decreases |ds|
  {
    if |ds| == 0 then c
    else EnsureEach(EnsureProperty(c, ds[0].section, ds[0].prop, Some(ds[0].value)).value, ds[1..])
  }

  /** A key the table does not mention keeps its value. */
  lemma {:induction false} EnsureEachFrame(c: Store, ds: seq<Default>, section: string, prop: string)
    requires NonEmptyDefaults(ds)
    requires Untouched(ds, section, prop)
    ensures Lookup(EnsureEach(c, ds), section, prop) == Lookup(c, section, prop)
    decreases |ds|
  {
    if |ds| > 0 {
      var c1 := EnsureProperty(c, ds[0].section, ds[0].prop, Some(ds[0].value)).value;
      assert Lookup(c1, section, prop) == Lookup(c, section, prop);
      assert Untouched(ds[1..], section, prop) by {
        forall i | 0 <= i < |ds[1..]|
          ensures ds[1..][i].section != section || ds[1..][i].prop != prop
        {
          assert ds[1..][i] == ds[i + 1];
        }
      }
      EnsureEachFrame(c1, ds[1..], section, prop);
    }
  }

  /** Every key the table mentions ends up resolved against its default. */
  lemma {:induction false} EnsureEachResolves(c: Store, ds: seq<Default>, i: nat)
    requires NonEmptyDefaults(ds) && Distinct(ds)
    requires i < |ds|
    ensures Resolves(c, EnsureEach(c, ds), ds[i])
    decreases |ds|
  {
    var c1 := EnsureProperty(c, ds[0].section, ds[0].prop, Some(ds[0].value)).value;
    var rest := ds[1..];
    assert forall k :: 0 <= k < |rest| ==> rest[k] == ds[k + 1];
    if i == 0 {
      EnsureEachFrame(c1, rest, ds[0].section, ds[0].prop);
    } else {
      EnsureEachResolves(c1, rest, i - 1);
      assert Lookup(c1, ds[i].section, ds[i].prop) == Lookup(c, ds[i].section, ds[i].prop);
    }
  }

  /** A store in which every key of the table is already set is left as it is. */
  lemma {:induction false} EnsureEachSettled(c: Store, ds: seq<Default>)
    requires NonEmptyDefaults(ds)
    requires forall i :: 0 <= i < |ds| ==> IsSet(c, ds[i].section, ds[i].prop)
    ensures EnsureEach(c, ds) == c
    decreases |ds|
  {
    if |ds| > 0 {
      assert IsSet(c, ds[0].section, ds[0].prop);
      assert forall i :: 0 <= i < |ds[1..]| ==> ds[1..][i] == ds[i + 1];
      EnsureEachSettled(c, ds[1..]);
    }
  }

  /** Ensuring a table creates exactly the sections it mentions. */
  lemma {:induction false} EnsureEachSections(c: Store, ds: seq<Default>)
    requires NonEmptyDefaults(ds)
    ensures EnsureEach(c, ds).Keys == c.Keys + set i | 0 <= i < |ds| :: ds[i].section
    decreases |ds|
  {
    if |ds| > 0 {
      var c1 := EnsureProperty(c, ds[0].section, ds[0].prop, Some(ds[0].value)).value;
      EnsureEachSections(c1, ds[1..]);
      var all := set i | 0 <= i < |ds| :: ds[i].section;
      var later := set i | 0 <= i < |ds[1..]| :: ds[1..][i].section;
      assert all == {ds[0].section} + later by {
        forall x | x in all ensures x in {ds[0].section} + later {
          var i :| 0 <= i < |ds| && ds[i].section == x;
          if i > 0 {
            assert ds[1..][i - 1].section == x;
          }
        }
        forall x | x in later ensures x in all {
          var i :| 0 <= i < |ds[1..]| && ds[1..][i].section == x;
          assert ds[i + 1].section == x;
        }
      }
    }
  }

  /** Lines 65-73: the `src` primitives and their hardcoded defaults. */
  const SrcPrimitives: seq<Default> := [
    Default("src", "user", "anonymous"),
    Default("src", "server", "falcon.jaspersoft.com"),
    Default("src", "repo_ce", "jasperserver"),
    Default("src", "repo_pro", "jasperserver-pro"),
    Default("src", "branch_ce", "trunk"),
    Default("src", "branch_pro", "trunk")
  ]

  /** The keys the URLs are built from are there (line 75 raises `KeyError` otherwise). */
  predicate PrimitivesPresent(c: Store) {
    && Has(c, "src", "user") && Has(c, "src", "server")
    && Has(c, "src", "repo_ce") && Has(c, "src", "repo_pro")
    && Has(c, "src", "branch_ce") && Has(c, "src", "branch_pro")
  }

  /** The svn+ssh repository URL the resolver derives for one edition. */
  function SvnUrl(user: string, server: string, repo: string, branch: string): string {
    "svn+ssh://" + user + "@" + server + "/" + repo + "/" + branch
  }

  /** Lines 75-78: both URLs are computed from the store in which the
      primitives are already resolved, before either URL is ensured. */
  function UrlDefaults(c: Store): seq<Default>
    requires PrimitivesPresent(c)
  {
    [ Default("src", "url_ce", SvnUrl(Get(c, "src", "user"), Get(c, "src", "server"),
                                      Get(c, "src", "repo_ce"), Get(c, "src", "branch_ce"))),
      Default("src", "url_pro", SvnUrl(Get(c, "src", "user"), Get(c, "src", "server"),
                                       Get(c, "src", "repo_pro"), Get(c, "src", "branch_pro"))) ]
  }

  /** Line 88: tomcat's JVM options, which fix its HTTP port (8080 by
      default) together with the AJP and shutdown ports. */
  function JavaOpts(httpPort: string): string {
    "-Dport.http=" + httpPort + " -Dport.ajp=8009 -Dport.shutdown=8005"
  }

  /** Line 89: the options of the catalina process: a JDWP debugging agent
      listening at address 1044, then the fixed XML factory, network, heap
      and collector settings. */
  const DefaultCatalinaOpts: string :=
    "-agentlib:jdwp=transport=dt_socket,address=1044,server=y,suspend=n"
    + " -Djavax.xml.soap.SOAPFactory=org.apache.axis.soap.SOAPFactoryImpl"
    + " -Djavax.xml.transform.TransformerFactory=org.apache.xalan.processor.TransformerFactoryImpl"
    + " -Djavax.xml.soap.SOAPConnectionFactory=org.apache.axis.soap.SOAPConnectionFactoryImpl"
    + " -Djavax.xml.soap.MessageFactory=org.apache.axis.soap.MessageFactoryImpl"
    + " -Djava.net.preferIPv4Stack=true"
    + " -Xms1024m"
    + " -Xmx2048m"
    + " -XX:PermSize=32m"
    + " -XX:MaxPermSize=512m"
    + " -Xss2m"
    + " -XX:+UseConcMarkSweepGC"
    + " -XX:+CMSClassUnloadingEnabled"

  /** Lines 80-89: working copies and the tomcat home under the current
      directory, the distribution under the data directory, and the JVM options. */
  function PathDefaults(cwd: string, dataDir: string): seq<Default> {
    [ Default("src", "working_copy_ce", cwd + "/ce"),
      Default("src", "working_copy_pro", cwd + "/pro"),
      Default("tc", "home", cwd + "/tomcat"),
      Default("tc", "distribution", dataDir + "/lib/tomcat"),
      Default("tc", "java_opts", JavaOpts("8080")),
      Default("tc", "catalina_opts", DefaultCatalinaOpts) ]
  }

  /** The primitives phase cannot fail, leaves every primitive present for
      the URLs, and does not touch `core`. */
  lemma PrimitivesPhase(c: Store)
    ensures NonEmptyDefaults(SrcPrimitives) && Distinct(SrcPrimitives)
    ensures PrimitivesPresent(EnsureEach(c, SrcPrimitives))
    ensures forall p :: Lookup(EnsureEach(c, SrcPrimitives), "core", p) == Lookup(c, "core", p)
  {
    PrimitivesTable();
    PrimitivesPresentAfter(c);
    forall p ensures Lookup(EnsureEach(c, SrcPrimitives), "core", p) == Lookup(c, "core", p) {
      UnlistedUntouchedByPrimitives("core", p);
      EnsureEachFrame(c, SrcPrimitives, "core", p);
    }
  }

  lemma PrimitivesPresentAfter(c: Store)
    requires NonEmptyDefaults(SrcPrimitives) && Distinct(SrcPrimitives)
    ensures PrimitivesPresent(EnsureEach(c, SrcPrimitives))
  {
    var c1 := EnsureEach(c, SrcPrimitives);
    EnsureEachPresent(c, SrcPrimitives);
    assert Has(c1, SrcPrimitives[0].section, SrcPrimitives[0].prop);
    assert Has(c1, SrcPrimitives[1].section, SrcPrimitives[1].prop);
    assert Has(c1, SrcPrimitives[2].section, SrcPrimitives[2].prop);
    assert Has(c1, SrcPrimitives[3].section, SrcPrimitives[3].prop);
    assert Has(c1, SrcPrimitives[4].section, SrcPrimitives[4].prop);
    assert Has(c1, SrcPrimitives[5].section, SrcPrimitives[5].prop);
  }

  /** Every key a table defaults is present afterwards. */
  lemma EnsureEachPresent(c: Store, ds: seq<Default>)
    requires NonEmptyDefaults(ds) && Distinct(ds)
    ensures forall i :: 0 <= i < |ds| ==> Has(EnsureEach(c, ds), ds[i].section, ds[i].prop)
  {
    forall i | 0 <= i < |ds| ensures Has(EnsureEach(c, ds), ds[i].section, ds[i].prop) {
      EnsureEachResolves(c, ds, i);
    }
  }

  lemma PrimitivesTable()
    ensures NonEmptyDefaults(SrcPrimitives) && Distinct(SrcPrimitives)
  {
  }

  /** The URL phase cannot fail and does not touch `core`. */
  lemma UrlPhase(c: Store)
    requires PrimitivesPresent(c)
    ensures NonEmptyDefaults(UrlDefaults(c)) && Distinct(UrlDefaults(c))
    ensures forall p :: Lookup(EnsureEach(c, UrlDefaults(c)), "core", p) == Lookup(c, "core", p)
  {
    forall p ensures Lookup(EnsureEach(c, UrlDefaults(c)), "core", p) == Lookup(c, "core", p) {
      UnlistedUntouchedByUrls(c, "core", p);
      EnsureEachFrame(c, UrlDefaults(c), "core", p);
    }
  }

  /** The path phase cannot fail: no default of it is empty. */
  lemma PathPhase(cwd: string, dataDir: string)
    ensures NonEmptyDefaults(PathDefaults(cwd, dataDir)) && Distinct(PathDefaults(cwd, dataDir))
  {
  }

  const SrcKeys: set<string> := {"user", "server", "repo_ce", "repo_pro", "branch_ce", "branch_pro",
                                 "url_ce", "url_pro", "working_copy_ce", "working_copy_pro"}
  const TcKeys: set<string> := {"home", "distribution", "java_opts", "catalina_opts"}

  /** The keys `_ensure_all_properties` guarantees. */
  predicate Listed(section: string, prop: string) {
    (section == "src" && prop in SrcKeys) || (section == "tc" && prop in TcKeys)
  }

  /** Every key `_ensure_all_properties` lists holds a non-empty value. */
  predicate Resolved(c: Store) {
    && (forall p :: p in SrcKeys ==> IsSet(c, "src", p))
    && (forall p :: p in TcKeys ==> IsSet(c, "tc", p))
  }

  /** `_ensure_all_properties`: fills every listed key that is absent or empty,
      primitives first, then the URLs derived from them, then the paths. A
      key that holds a non-empty value before, from a file or from the seed,
      keeps it: file values beat built-in defaults. */
  function EnsureAllProperties(c: Store, cwd: string): (r: Store)
    requires Has(c, "core", "data_dir")
    ensures forall s, p :: IsSet(c, s, p) ==> Lookup(r, s, p) == Lookup(c, s, p)
  {
    PrimitivesPhase(c);
    var c1 := EnsureEach(c, SrcPrimitives);
    UrlPhase(c1);
    var c2 := EnsureEach(c1, UrlDefaults(c1));
    assert Lookup(c2, "core", "data_dir") == Lookup(c, "core", "data_dir");
    PathPhase(cwd, Get(c2, "core", "data_dir"));
    var r := EnsureEach(c2, PathDefaults(cwd, Get(c2, "core", "data_dir")));
    KeepsSetThrough(c, c1, c2, r);
    r
  }

  /** Keeping every set key is preserved along a chain of stores. */
  lemma KeepsSetThrough(c: Store, c1: Store, c2: Store, c3: Store)
    requires forall s, p :: IsSet(c, s, p) ==> Lookup(c1, s, p) == Lookup(c, s, p)
    requires forall s, p :: IsSet(c1, s, p) ==> Lookup(c2, s, p) == Lookup(c1, s, p)
    requires forall s, p :: IsSet(c2, s, p) ==> Lookup(c3, s, p) == Lookup(c2, s, p)
    ensures forall s, p :: IsSet(c, s, p) ==> Lookup(c3, s, p) == Lookup(c, s, p)
  {
  }

  // ---------------------------------------------------------------------------
  // What `_ensure_all_properties` promises

  /** The store after the primitives and after the URLs, as
      `EnsureAllProperties` builds them. */
  function AfterPrimitives(c: Store): Store {
    PrimitivesTable();
    EnsureEach(c, SrcPrimitives)
  }

  function AfterUrls(c: Store): Store {
    var c1 := AfterPrimitives(c);
    PrimitivesPhase(c);
    UrlPhase(c1);
    EnsureEach(c1, UrlDefaults(c1))
  }

  lemma Phases(c: Store, cwd: string)
    requires Has(c, "core", "data_dir")
    ensures PrimitivesPresent(AfterPrimitives(c))
    ensures Lookup(AfterUrls(c), "core", "data_dir") == Lookup(c, "core", "data_dir")
    ensures NonEmptyDefaults(UrlDefaults(AfterPrimitives(c))) && Distinct(UrlDefaults(AfterPrimitives(c)))
    ensures NonEmptyDefaults(PathDefaults(cwd, Get(c, "core", "data_dir")))
    ensures Distinct(PathDefaults(cwd, Get(c, "core", "data_dir")))
    ensures EnsureAllProperties(c, cwd) == EnsureEach(AfterUrls(c), PathDefaults(cwd, Get(c, "core", "data_dir")))
  {
    PrimitivesTable();
    PrimitivesPresentAfter(c);
    UrlTable(c);
    DataDirAfterUrls(c);
    PathPhase(cwd, Get(c, "core", "data_dir"));
    AllPhases(c, cwd);
  }

  lemma UrlTable(c: Store)
    ensures PrimitivesPresent(AfterPrimitives(c))
    ensures NonEmptyDefaults(UrlDefaults(AfterPrimitives(c))) && Distinct(UrlDefaults(AfterPrimitives(c)))
  {
    PrimitivesTable();
    PrimitivesPresentAfter(c);
    UrlPhase(AfterPrimitives(c));
  }

  /** Neither the primitives nor the URLs touch the data directory. */
  lemma DataDirAfterUrls(c: Store)
    ensures Lookup(AfterUrls(c), "core", "data_dir") == Lookup(c, "core", "data_dir")
  {
    UnlistedAfterUrls(c, "core", "data_dir");
  }

  lemma AllPhases(c: Store, cwd: string)
    requires Has(c, "core", "data_dir")
    ensures NonEmptyDefaults(PathDefaults(cwd, Get(c, "core", "data_dir")))
    ensures EnsureAllProperties(c, cwd) == EnsureEach(AfterUrls(c), PathDefaults(cwd, Get(c, "core", "data_dir")))
  {
    PathPhase(cwd, Get(c, "core", "data_dir"));
    DataDirAfterUrls(c);
  }

  lemma UnlistedUntouchedByPrimitives(section: string, prop: string)
    requires !Listed(section, prop)
    ensures Untouched(SrcPrimitives, section, prop)
  {
  }

  lemma UnlistedUntouchedByUrls(c: Store, section: string, prop: string)
    requires PrimitivesPresent(c)
    requires !Listed(section, prop)
    ensures Untouched(UrlDefaults(c), section, prop)
  {
  }

  lemma UnlistedUntouchedByPaths(cwd: string, dataDir: string, section: string, prop: string)
    requires !Listed(section, prop)
    ensures Untouched(PathDefaults(cwd, dataDir), section, prop)
  {
  }

  /** A key `_ensure_all_properties` does not list is never touched. */
  lemma EnsureAllUnlisted(c: Store, cwd: string, section: string, prop: string)
    requires Has(c, "core", "data_dir")
    requires !Listed(section, prop)
    ensures Lookup(EnsureAllProperties(c, cwd), section, prop) == Lookup(c, section, prop)
  {
    Phases(c, cwd);
    UnlistedAfterUrls(c, section, prop);
    UnlistedUntouchedByPaths(cwd, Get(c, "core", "data_dir"), section, prop);
    EnsureEachFrame(AfterUrls(c), PathDefaults(cwd, Get(c, "core", "data_dir")), section, prop);
  }

  lemma UnlistedAfterUrls(c: Store, section: string, prop: string)
    requires !Listed(section, prop)
    ensures Lookup(AfterUrls(c), section, prop) == Lookup(c, section, prop)
  {
    PrimitivesTable();
    PrimitivesPresentAfter(c);
    var c1 := AfterPrimitives(c);
    UrlPhase(c1);
    UnlistedUntouchedByPrimitives(section, prop);
    UnlistedUntouchedByUrls(c1, section, prop);
    FrameTwo(c, SrcPrimitives, UrlDefaults(c1), section, prop);
  }

  /** A key two tables in a row leave alone keeps its value. */
  lemma FrameTwo(c: Store, ds1: seq<Default>, ds2: seq<Default>, section: string, prop: string)
    requires NonEmptyDefaults(ds1) && NonEmptyDefaults(ds2)
    requires Untouched(ds1, section, prop) && Untouched(ds2, section, prop)
    ensures Lookup(EnsureEach(EnsureEach(c, ds1), ds2), section, prop) == Lookup(c, section, prop)
  {
    EnsureEachFrame(c, ds1, section, prop);
    EnsureEachFrame(EnsureEach(c, ds1), ds2, section, prop);
  }

  lemma PrimitiveKeysUntouchedLater(c: Store, cwd: string, dataDir: string, i: nat)
    requires PrimitivesPresent(c)
    requires i < |SrcPrimitives|
    ensures Untouched(UrlDefaults(c), SrcPrimitives[i].section, SrcPrimitives[i].prop)
    ensures Untouched(PathDefaults(cwd, dataDir), SrcPrimitives[i].section, SrcPrimitives[i].prop)
  {
  }

  lemma PathKeysUntouchedEarlier(c: Store, cwd: string, dataDir: string, i: nat)
    requires PrimitivesPresent(c)
    requires i < |PathDefaults(cwd, dataDir)|
    ensures Untouched(SrcPrimitives, PathDefaults(cwd, dataDir)[i].section, PathDefaults(cwd, dataDir)[i].prop)
    ensures Untouched(UrlDefaults(c), PathDefaults(cwd, dataDir)[i].section, PathDefaults(cwd, dataDir)[i].prop)
  {
  }

  /** A key the URL and path tables leave alone reads after resolution as it
      did after the primitives. */
  lemma LaterPhasesFrame(c: Store, cwd: string, section: string, prop: string)
    requires Has(c, "core", "data_dir")
    requires PrimitivesPresent(AfterPrimitives(c))
    requires Untouched(UrlDefaults(AfterPrimitives(c)), section, prop)
    requires Untouched(PathDefaults(cwd, Get(c, "core", "data_dir")), section, prop)
    ensures Lookup(EnsureAllProperties(c, cwd), section, prop) == Lookup(AfterPrimitives(c), section, prop)
  {
    Phases(c, cwd);
    var c1 := AfterPrimitives(c);
    EnsureEachFrame(c1, UrlDefaults(c1), section, prop);
    EnsureEachFrame(AfterUrls(c), PathDefaults(cwd, Get(c, "core", "data_dir")), section, prop);
  }

  /** Each primitive ends up as it was when non-empty, and as its hardcoded
      default otherwise. */
  lemma EnsureAllPrimitive(c: Store, cwd: string, i: nat)
    requires Has(c, "core", "data_dir")
    requires i < |SrcPrimitives|
    ensures Resolves(c, EnsureAllProperties(c, cwd), SrcPrimitives[i])
  {
    PrimitivesPhase(c);
    var d := SrcPrimitives[i];
    EnsureEachResolves(c, SrcPrimitives, i);
    PrimitiveKeysUntouchedLater(AfterPrimitives(c), cwd, Get(c, "core", "data_dir"), i);
    LaterPhasesFrame(c, cwd, d.section, d.prop);
  }

  /** Each working-copy, tomcat and JVM key ends up as it was when non-empty,
      and as its default under the current directory or the data directory
      otherwise. */
  lemma EnsureAllPath(c: Store, cwd: string, i: nat)
    requires Has(c, "core", "data_dir")
    requires i < |PathDefaults(cwd, Get(c, "core", "data_dir"))|
    ensures Resolves(c, EnsureAllProperties(c, cwd), PathDefaults(cwd, Get(c, "core", "data_dir"))[i])
  {
    Phases(c, cwd);
    var ds := PathDefaults(cwd, Get(c, "core", "data_dir"));
    PathKeyAfterUrls(c, cwd, Get(c, "core", "data_dir"), i);
    EnsureEachResolves(AfterUrls(c), ds, i);
  }

  lemma PathKeyAfterUrls(c: Store, cwd: string, dataDir: string, i: nat)
    requires i < |PathDefaults(cwd, dataDir)|
    ensures var d := PathDefaults(cwd, dataDir)[i];
      Lookup(AfterUrls(c), d.section, d.prop) == Lookup(c, d.section, d.prop)
  {
    PrimitivesTable();
    PrimitivesPresentAfter(c);
    var c1 := AfterPrimitives(c);
    UrlPhase(c1);
    var d := PathDefaults(cwd, dataDir)[i];
    PathKeysUntouchedEarlier(c1, cwd, dataDir, i);
    FrameTwo(c, SrcPrimitives, UrlDefaults(c1), d.section, d.prop);
  }

  /** The primitives read after resolution as they did after the primitives
      phase, so the URLs of the URL phase are built from final values. */
  lemma PrimitivesFinal(c: Store, cwd: string)
    requires Has(c, "core", "data_dir")
    ensures PrimitivesPresent(AfterPrimitives(c))
    ensures forall i :: 0 <= i < |SrcPrimitives| ==>
      Lookup(EnsureAllProperties(c, cwd), SrcPrimitives[i].section, SrcPrimitives[i].prop)
        == Lookup(AfterPrimitives(c), SrcPrimitives[i].section, SrcPrimitives[i].prop)
  {
    PrimitivesPhase(c);
    forall i | 0 <= i < |SrcPrimitives|
      ensures Lookup(EnsureAllProperties(c, cwd), SrcPrimitives[i].section, SrcPrimitives[i].prop)
        == Lookup(AfterPrimitives(c), SrcPrimitives[i].section, SrcPrimitives[i].prop)
    {
      PrimitiveKeysUntouchedLater(AfterPrimitives(c), cwd, Get(c, "core", "data_dir"), i);
      LaterPhasesFrame(c, cwd, SrcPrimitives[i].section, SrcPrimitives[i].prop);
    }
  }

  /** The URL keys are untouched by the primitives and the paths. */
  lemma UrlKeysUntouched(cwd: string, dataDir: string, prop: string)
    requires prop == "url_ce" || prop == "url_pro"
    ensures Untouched(SrcPrimitives, "src", prop)
    ensures Untouched(PathDefaults(cwd, dataDir), "src", prop)
  {
  }

  /** Two stores that agree on the primitives derive the same URLs. */
  predicate SamePrimitives(a: Store, b: Store) {
    forall i :: 0 <= i < |SrcPrimitives| ==>
      Lookup(a, SrcPrimitives[i].section, SrcPrimitives[i].prop) == Lookup(b, SrcPrimitives[i].section, SrcPrimitives[i].prop)
  }

  lemma UrlDefaultsAgree(a: Store, b: Store)
    requires PrimitivesPresent(a)
    requires SamePrimitives(a, b)
    ensures PrimitivesPresent(b)
    ensures UrlDefaults(a) == UrlDefaults(b)
  {
    assert Lookup(a, "src", "user") == Lookup(b, "src", "user") by { assert SrcPrimitives[0].prop == "user"; }
    assert Lookup(a, "src", "server") == Lookup(b, "src", "server") by { assert SrcPrimitives[1].prop == "server"; }
    assert Lookup(a, "src", "repo_ce") == Lookup(b, "src", "repo_ce") by { assert SrcPrimitives[2].prop == "repo_ce"; }
    assert Lookup(a, "src", "repo_pro") == Lookup(b, "src", "repo_pro") by { assert SrcPrimitives[3].prop == "repo_pro"; }
    assert Lookup(a, "src", "branch_ce") == Lookup(b, "src", "branch_ce") by { assert SrcPrimitives[4].prop == "branch_ce"; }
    assert Lookup(a, "src", "branch_pro") == Lookup(b, "src", "branch_pro") by { assert SrcPrimitives[5].prop == "branch_pro"; }
  }

  /** Each URL ends up as it was when non-empty, and otherwise as the svn+ssh
      URL of the final user, server, repository and branch of its own edition. */
  lemma EnsureAllUrl(c: Store, cwd: string, j: nat)
    requires Has(c, "core", "data_dir")
    requires j < 2
    ensures PrimitivesPresent(EnsureAllProperties(c, cwd))
    ensures Resolves(c, EnsureAllProperties(c, cwd), UrlDefaults(EnsureAllProperties(c, cwd))[j])
  {
    var r := EnsureAllProperties(c, cwd);
    var c1 := AfterPrimitives(c);
    PrimitivesFinal(c, cwd);
    UrlDefaultsAgree(c1, r);
    UrlAfterUrls(c, j);
    UrlAfterPaths(c, cwd, if j == 0 then "url_ce" else "url_pro");
  }

  lemma UrlAfterUrls(c: Store, j: nat)
    requires j < 2
    ensures PrimitivesPresent(AfterPrimitives(c))
    ensures UrlDefaults(AfterPrimitives(c))[j].section == "src"
    ensures UrlDefaults(AfterPrimitives(c))[j].prop == if j == 0 then "url_ce" else "url_pro"
    ensures Resolves(c, AfterUrls(c), UrlDefaults(AfterPrimitives(c))[j])
  {
    PrimitivesPhase(c);
    var c1 := AfterPrimitives(c);
    UrlPhase(c1);
    var d := UrlDefaults(c1)[j];
    UrlKeysUntouched("", "", d.prop);
    EnsureEachFrame(c, SrcPrimitives, d.section, d.prop);
    EnsureEachResolves(c1, UrlDefaults(c1), j);
  }

  lemma UrlAfterPaths(c: Store, cwd: string, prop: string)
    requires Has(c, "core", "data_dir")
    requires prop == "url_ce" || prop == "url_pro"
    ensures Lookup(EnsureAllProperties(c, cwd), "src", prop) == Lookup(AfterUrls(c), "src", prop)
  {
    Phases(c, cwd);
    UrlKeysUntouched(cwd, Get(c, "core", "data_dir"), prop);
    EnsureEachFrame(AfterUrls(c), PathDefaults(cwd, Get(c, "core", "data_dir")), "src", prop);
  }

  /** A key resolved against a non-empty default holds a non-empty value. */
  lemma ResolvesSets(before: Store, after: Store, d: Default)
    requires Resolves(before, after, d)
    requires d.value != ""
    ensures IsSet(after, d.section, d.prop)
  {
    assert Lookup(after, d.section, d.prop).Some?;
  }

  lemma PrimitiveSet(c: Store, cwd: string, i: nat)
    requires Has(c, "core", "data_dir")
    requires i < |SrcPrimitives|
    ensures IsSet(EnsureAllProperties(c, cwd), SrcPrimitives[i].section, SrcPrimitives[i].prop)
  {
    PrimitivesTable();
    EnsureAllPrimitive(c, cwd, i);
    ResolvesSets(c, EnsureAllProperties(c, cwd), SrcPrimitives[i]);
  }

  lemma PathSet(c: Store, cwd: string, i: nat)
    requires Has(c, "core", "data_dir")
    requires i < |PathDefaults(cwd, Get(c, "core", "data_dir"))|
    ensures IsSet(EnsureAllProperties(c, cwd), PathDefaults(cwd, Get(c, "core", "data_dir"))[i].section,
                  PathDefaults(cwd, Get(c, "core", "data_dir"))[i].prop)
  {
    PathPhase(cwd, Get(c, "core", "data_dir"));
    EnsureAllPath(c, cwd, i);
    ResolvesSets(c, EnsureAllProperties(c, cwd), PathDefaults(cwd, Get(c, "core", "data_dir"))[i]);
  }

  lemma UrlSet(c: Store, cwd: string, j: nat)
    requires Has(c, "core", "data_dir")
    requires j < 2
    ensures IsSet(EnsureAllProperties(c, cwd), "src", if j == 0 then "url_ce" else "url_pro")
  {
    var r := EnsureAllProperties(c, cwd);
    EnsureAllUrl(c, cwd, j);
    ResolvesSets(c, r, UrlDefaults(r)[j]);
  }

  /** The fourteen listed keys, one by one, make a resolved store. */
  lemma ResolvedByKeys(r: Store)
    requires IsSet(r, "src", "user") && IsSet(r, "src", "server")
    requires IsSet(r, "src", "repo_ce") && IsSet(r, "src", "repo_pro")
    requires IsSet(r, "src", "branch_ce") && IsSet(r, "src", "branch_pro")
    requires IsSet(r, "src", "url_ce") && IsSet(r, "src", "url_pro")
    requires IsSet(r, "src", "working_copy_ce") && IsSet(r, "src", "working_copy_pro")
    requires IsSet(r, "tc", "home") && IsSet(r, "tc", "distribution")
    requires IsSet(r, "tc", "java_opts") && IsSet(r, "tc", "catalina_opts")
    ensures Resolved(r)
  {
  }

  /** After `_ensure_all_properties` every key it lists holds a non-empty
      value, whatever the store it started from; it never fails. */
  lemma EnsureAllResolved(c: Store, cwd: string)
    requires Has(c, "core", "data_dir")
    ensures Resolved(EnsureAllProperties(c, cwd))
  {
    PrimitiveSet(c, cwd, 0);
    PrimitiveSet(c, cwd, 1);
    PrimitiveSet(c, cwd, 2);
    PrimitiveSet(c, cwd, 3);
    PrimitiveSet(c, cwd, 4);
    PrimitiveSet(c, cwd, 5);
    UrlSet(c, cwd, 0);
    UrlSet(c, cwd, 1);
    PathSet(c, cwd, 0);
    PathSet(c, cwd, 1);
    PathSet(c, cwd, 2);
    PathSet(c, cwd, 3);
    PathSet(c, cwd, 4);
    PathSet(c, cwd, 5);
    ResolvedByKeys(EnsureAllProperties(c, cwd));
  }

  lemma ResolvedSettlesPrimitives(c: Store)
    requires Resolved(c)
    ensures AfterPrimitives(c) == c
  {
    PrimitivesTable();
    forall i | 0 <= i < |SrcPrimitives| ensures IsSet(c, SrcPrimitives[i].section, SrcPrimitives[i].prop) {
      assert SrcPrimitives[i].section == "src" && SrcPrimitives[i].prop in SrcKeys;
    }
    EnsureEachSettled(c, SrcPrimitives);
  }

  lemma ResolvedSettlesUrls(c: Store)
    requires Resolved(c)
    ensures PrimitivesPresent(c)
    ensures AfterUrls(c) == c
  {
    ResolvedSettlesPrimitives(c);
    PrimitivesPhase(c);
    UrlPhase(c);
    assert IsSet(c, "src", "url_ce") && IsSet(c, "src", "url_pro");
    EnsureEachSettled(c, UrlDefaults(c));
  }

  lemma ResolvedSettlesPaths(c: Store, cwd: string, dataDir: string)
    requires Resolved(c)
    ensures NonEmptyDefaults(PathDefaults(cwd, dataDir))
    ensures EnsureEach(c, PathDefaults(cwd, dataDir)) == c
  {
    var ds := PathDefaults(cwd, dataDir);
    PathPhase(cwd, dataDir);
    forall i | 0 <= i < |ds| ensures IsSet(c, ds[i].section, ds[i].prop) {
      assert Listed(ds[i].section, ds[i].prop);
    }
    EnsureEachSettled(c, ds);
  }

  /** A store in which every listed key already holds a non-empty value is
      left exactly as it is. */
  lemma EnsureAllSettled(c: Store, cwd: string)
    requires Has(c, "core", "data_dir")
    requires Resolved(c)
    ensures EnsureAllProperties(c, cwd) == c
  {
    Phases(c, cwd);
    ResolvedSettlesUrls(c);
    ResolvedSettlesPaths(c, cwd, Get(c, "core", "data_dir"));
  }

  /** Resolving a resolved store changes nothing. */
  lemma EnsureAllIdempotent(c: Store, cwd: string)
    requires Has(c, "core", "data_dir")
    ensures Has(EnsureAllProperties(c, cwd), "core", "data_dir")
    ensures EnsureAllProperties(EnsureAllProperties(c, cwd), cwd) == EnsureAllProperties(c, cwd)
  {
    var r := EnsureAllProperties(c, cwd);
    EnsureAllUnlisted(c, cwd, "core", "data_dir");
    assert Lookup(r, "core", "data_dir").Some?;
    EnsureAllResolved(c, cwd);
    EnsureAllSettled(r, cwd);
  }

  lemma PrimitiveSections()
    ensures (set i | 0 <= i < |SrcPrimitives| :: SrcPrimitives[i].section) == {"src"}
  {
    assert SrcPrimitives[0].section == "src";
  }

  lemma UrlSections(c: Store)
    requires PrimitivesPresent(c)
    ensures (set i | 0 <= i < |UrlDefaults(c)| :: UrlDefaults(c)[i].section) == {"src"}
  {
    assert UrlDefaults(c)[0].section == "src";
  }

  lemma PathSections(cwd: string, dataDir: string)
    ensures (set i | 0 <= i < |PathDefaults(cwd, dataDir)| :: PathDefaults(cwd, dataDir)[i].section) == {"src", "tc"}
  {
    assert PathDefaults(cwd, dataDir)[0].section == "src" && PathDefaults(cwd, dataDir)[2].section == "tc";
  }

  /** `_ensure_all_properties` adds the `src` and `tc` sections and no other. */
  lemma EnsureAllSections(c: Store, cwd: string)
    requires Has(c, "core", "data_dir")
    ensures EnsureAllProperties(c, cwd).Keys == c.Keys + {"src", "tc"}
  {
    Phases(c, cwd);
    var c1 := AfterPrimitives(c);
    var ds := PathDefaults(cwd, Get(c, "core", "data_dir"));
    PrimitivesTable();
    EnsureEachSections(c, SrcPrimitives);
    PrimitiveSections();
    EnsureEachSections(c1, UrlDefaults(c1));
    UrlSections(c1);
    EnsureEachSections(AfterUrls(c), ds);
    PathSections(cwd, Get(c, "core", "data_dir"));
  }

  /** The derived `url_pro` depends on neither `repo_ce` nor `branch_ce`: two
      stores that agree on the pro primitives, the pro URL and the data
      directory resolve `url_pro` alike. */
  lemma UrlProIndependent(a: Store, b: Store, cwd: string)
    requires Has(a, "core", "data_dir") && Has(b, "core", "data_dir")
    requires forall p :: p in {"user", "server", "repo_pro", "branch_pro", "url_pro"} ==>
      Lookup(a, "src", p) == Lookup(b, "src", p)
    ensures Lookup(EnsureAllProperties(a, cwd), "src", "url_pro") == Lookup(EnsureAllProperties(b, cwd), "src", "url_pro")
  {
    var ra, rb := EnsureAllProperties(a, cwd), EnsureAllProperties(b, cwd);
    EnsureAllUrl(a, cwd, 1);
    EnsureAllUrl(b, cwd, 1);
    EnsureAllPrimitive(a, cwd, 0); EnsureAllPrimitive(b, cwd, 0);
    EnsureAllPrimitive(a, cwd, 1); EnsureAllPrimitive(b, cwd, 1);
    EnsureAllPrimitive(a, cwd, 3); EnsureAllPrimitive(b, cwd, 3);
    EnsureAllPrimitive(a, cwd, 5); EnsureAllPrimitive(b, cwd, 5);
    assert Lookup(a, "src", "user") == Lookup(b, "src", "user");
    assert Lookup(a, "src", "server") == Lookup(b, "src", "server");
    assert Lookup(a, "src", "repo_pro") == Lookup(b, "src", "repo_pro");
    assert Lookup(a, "src", "branch_pro") == Lookup(b, "src", "branch_pro");
    assert Lookup(a, "src", "url_pro") == Lookup(b, "src", "url_pro");
    assert UrlDefaults(ra)[1] == UrlDefaults(rb)[1];
  }
}
