/** `jst/resources/src.py`: the source-tree handler.

    It runs svn actions against the ce and pro working copies, builds them
    with ant, and on `init` checks both out afresh, writes the buildomatic
    master properties from a template, builds, and writes the maven settings
    extracted from ant's output. The outside world it consults is a `World`. */
module Src {
  import opened Results
  import opened Text
  import opened ConfigStore
  import opened Effects
  import Ant

  /** What the handler finds outside: the paths that exist; the text files it
      reads, as the lines `readlines()` gives, each keeping its trailing
      "\n"; the paths a fresh svn checkout of a working copy creates; and the
      output of the one command whose output it reads. */
  datatype World = World(present: set<string>, files: map<string, seq<string>>,
                         checkout: set<string>, output: string)

  /** `path` is `dir` itself or lies below it. */
  predicate Within(path: string, dir: string) {
    path == dir || (|dir| < |path| && path[..|dir|] == dir && path[|dir|] == '/')
  }

  /** The world after `rm -R wc` and `svn checkout url wc`: nothing of the old
      working copy is left, the new one holds what the checkout creates, and
      every other path is as it was. */
  function AfterCheckout(world: World, wc: string): (r: World)
    ensures forall p :: Within(p, wc) ==> (p in r.present <==> p == wc || p in world.checkout)
    ensures forall p :: !Within(p, wc) ==> (p in r.present <==> p in world.present)
    ensures r.files == world.files && r.checkout == world.checkout && r.output == world.output
  {
    var kept := set p | p in world.present && !Within(p, wc);
    var created := set p | p in world.checkout && Within(p, wc);
    world.(present := kept + {wc} + created)
  }

  // ---------------------------------------------------------------------------
  // `_execute_svn_action`

  const SvnActions: set<string> := {"checkout", "update", "status", "diff", "revert"}

  /** Lines 112-116: the action table. */
  function SvnTable(url: string, wc: string): map<string, seq<string>> {
    map[ "checkout" := ["svn", "checkout", url, wc],
         "update" := ["svn", "update", wc],
         "status" := ["svn", "status", "--quiet", wc],
         "diff" := ["svn", "diff", wc],
         "revert" := ["svn", "revert", "-R", wc] ]
  }

  /** The svn command for an action: svn, then the action's own name, then
      at most one more word, then the working copy; only a checkout names the
      repository URL. Any other action is refused. */
  function SvnCommand(action: string, url: string, wc: string): (r: Result<seq<string>>)
    ensures r.Ok? <==> action in SvnActions
    ensures r.Ok? ==> 3 <= |r.value| <= 4 && r.value[0] == "svn" && r.value[1] == action
    ensures r.Ok? ==> r.value[|r.value| - 1] == wc
    ensures r.Ok? && |r.value| == 4 ==> r.value[2] == (if action == "checkout" then url
                                                      else if action == "status" then "--quiet" else "-R")
    ensures r.Ok? ==> (|r.value| == 4 <==> action in {"checkout", "status", "revert"})
    ensures r.Err? ==> r.error == UnknownAction(action)
    ensures r.Err? ==> Message(r.error) == "Unknown action: " + action
  {
    var table := SvnTable(url, wc);
    if action in table then Ok(table[action]) else Err(UnknownAction(action))
  }

  /** Running one svn action: the call, or the error before any call. */
  function SvnStep(action: string, url: string, wc: string): (r: Run)
    ensures r.failure.None? <==> action in SvnActions
    ensures r.failure.None? ==> r.trace == [Call(SvnCommand(action, url, wc).value)]
    ensures r.failure.Some? ==> r.trace == [] && r.failure == Some(UnknownAction(action))
  {
    match SvnCommand(action, url, wc)
    case Ok(argv) => Done([Call(argv)])
    case Err(e) => Run([], Some(e))
  }

  // ---------------------------------------------------------------------------
  // `_build`

  /** Lines 66-76: the ant command line. With no arguments the whole tree is
      built; otherwise the first argument names the edition and the second
      the directory, and a lone argument fails on the missing second. */
  function BuildArgv(skipTests: string, buildomatic: string, args: seq<string>): (r: Result<seq<string>>)
    ensures r.Ok? <==> |args| != 1
    ensures r.Ok? ==> |r.value| >= 5
    ensures r.Ok? ==> r.value[..4] == ["ant", Ant.SkipTestsArg(skipTests), "-buildfile", buildomatic + "/build.xml"]
    ensures |args| == 0 ==> r.Ok? && r.value[4..] == ["build-src-all"]
    ensures |args| >= 2 ==> r.Ok? && r.value[4..] == ["build-dir-" + args[0], "-DdirName=" + args[1]]
    ensures |args| == 1 ==> r == Err(MissingArgument(1))
  {
    var skip := if skipTests == "true" then "-DSKIP_TEST_ARG=skipTests" else "";
    if |args| == 0 then Ok(["ant", skip, "-buildfile", buildomatic + "/build.xml", "build-src-all"])
    else if |args| < 2 then Err(MissingArgument(1))
    else Ok(["ant", skip, "-buildfile", buildomatic + "/build.xml", "build-dir-" + args[0], "-DdirName=" + args[1]])
  }

  /** `_build` and `ant.build` agree: the same store gives the same command
      line, the positional edition and directory playing the parts of
      `--flavor` and `--dir`. */
  lemma BuildMatchesAnt(ctx: Store, args: seq<string>)
    requires Has(ctx, "src", "working_copy_ce") && Has(ctx, "src", "skip_tests")
    requires |args| == 0 || (|args| >= 2 && args[1] != "")
    ensures var r := BuildArgv(Get(ctx, "src", "skip_tests"), Get(ctx, "src", "working_copy_ce") + "/buildomatic", args);
      && r.Ok?
      && Ant.Build(ctx, if |args| == 0 then None else Some(args[1]), if |args| == 0 then None else Some(args[0])) == r
  {
    var r := BuildArgv(Get(ctx, "src", "skip_tests"), Get(ctx, "src", "working_copy_ce") + "/buildomatic", args);
    var a := Ant.Build(ctx, if |args| == 0 then None else Some(args[1]), if |args| == 0 then None else Some(args[0]));
    assert r.value == r.value[..4] + r.value[4..];
    assert a.value == a.value[..4] + a.value[4..];
  }

  function BuildStep(ctx: Store, buildomatic: string, args: seq<string>): (r: Run)
    requires Has(ctx, "src", "skip_tests")
    ensures r.failure.None? <==> |args| != 1
    ensures r.failure.None? ==> r.trace == [Call(BuildArgv(Get(ctx, "src", "skip_tests"), buildomatic, args).value)]
    ensures r.failure.Some? ==> r.trace == []
  {
    match BuildArgv(Get(ctx, "src", "skip_tests"), buildomatic, args)
    case Ok(argv) => Done([Call(argv)])
    case Err(e) => Run([], Some(e))
  }

  // ---------------------------------------------------------------------------
  // `_write_default_master_properties`

  const TcHomeMark: string := "%tc.home%"
  const WorkingCopyCeMark: string := "%src.working_copy_ce%"
  const WorkingCopyProMark: string := "%src.working_copy_pro%"

  /** Lines 54-56: the three replacements, in order, on one line. */
  function SubstituteLine(line: string, home: string, ce: string, pro: string): string {
    ReplaceAll(ReplaceAll(ReplaceAll(line, TcHomeMark, home), WorkingCopyCeMark, ce), WorkingCopyProMark, pro)
  }

  /** Every template line, substituted, in order. */
  function MasterProperties(lines: seq<string>, home: string, ce: string, pro: string): (r: seq<string>)
    ensures |r| == |lines|
    ensures forall i :: 0 <= i < |r| ==> r[i] == SubstituteLine(lines[i], home, ce, pro)
  {
    if |lines| == 0 then [] else [SubstituteLine(lines[0], home, ce, pro)] + MasterProperties(lines[1..], home, ce, pro)
  }

  predicate HasMark(line: string) {
    Contains(line, TcHomeMark) || Contains(line, WorkingCopyCeMark) || Contains(line, WorkingCopyProMark)
  }

  /** A line without a placeholder is written as it was. */
  lemma SubstituteUnmarked(line: string, home: string, ce: string, pro: string)
    requires !HasMark(line)
    ensures SubstituteLine(line, home, ce, pro) == line
  {
    ReplaceAbsent(line, TcHomeMark, home);
    ReplaceAbsent(line, WorkingCopyCeMark, ce);
    ReplaceAbsent(line, WorkingCopyProMark, pro);
  }

  /** Substituting each placeholder by itself gives back the template. */
  lemma SubstituteByMarks(line: string)
    ensures SubstituteLine(line, TcHomeMark, WorkingCopyCeMark, WorkingCopyProMark) == line
  {
  }

  /** A placeholder is a name between two `%` with no `%` inside it. */
  predicate IsMark(m: string) {
    |m| >= 2 && m[0] == '%' && m[|m| - 1] == '%' && forall j :: 0 < j < |m| - 1 ==> m[j] != '%'
  }

  lemma TcHomeIsMark()
    ensures IsMark(TcHomeMark)
  {
  }

  lemma WorkingCopyCeIsMark()
    ensures IsMark(WorkingCopyCeMark)
  {
  }

  lemma WorkingCopyProIsMark()
    ensures IsMark(WorkingCopyProMark)
  {
  }

  /** In `a + m + b`, where only the placeholder `m` has a `%`, the `%`
      signs are the two ends of `m`. */
  lemma PercentOnlyAtEnds(a: string, m: string, b: string, q: nat)
    requires IsMark(m) && '%' !in a && '%' !in b
    requires q < |a + m + b| && q != |a| && q != |a| + |m| - 1
    ensures (a + m + b)[q] != '%'
  {
    if q < |a| {
      assert (a + m + b)[q] == a[q];
    } else if q < |a| + |m| {
      assert (a + m + b)[q] == m[q - |a|];
    } else {
      assert (a + m + b)[q] == b[q - |a| - |m|];
    }
  }

  /** A line holding one placeholder, and no other `%`, holds no other
      placeholder. */
  lemma OtherMarkAbsent(a: string, m: string, b: string, other: string)
    requires IsMark(m) && IsMark(other) && m != other
    requires '%' !in a && '%' !in b
    ensures !Contains(a + m + b, other)
  {
    var s := a + m + b;
    forall p: nat | p <= |s|
      ensures !StartsAt(s, p, other)
    {
      if p + |other| <= |s| {
        var w := s[p..p + |other|];
        var q := p + |other| - 1;
        if p != |a| && p != |a| + |m| - 1 {
          PercentOnlyAtEnds(a, m, b, p);
          assert w[0] == s[p];
        } else if p == |a| && |other| == |m| {
          assert w == m;
        } else {
          PercentOnlyAtEnds(a, m, b, q);
          assert w[|other| - 1] == s[q];
        }
      }
    }
  }

  /** Replacing `pat` by `rep` in a line without `%`, where `pat` starts
      with `%`, changes nothing. */
  lemma ReplaceClean(line: string, pat: string, rep: string)
    requires |pat| > 0 && pat[0] == '%' && '%' !in line
    ensures ReplaceAll(line, pat, rep) == line
  {
    MissingLead(line, pat);
    ReplaceAbsent(line, pat, rep);
  }

  /** A line with one placeholder, and otherwise no `%`, gets that
      placeholder's value and nothing else changes, as long as the values
      hold no `%` themselves. */
  lemma SubstituteMarked(a: string, b: string, home: string, ce: string, pro: string)
    requires '%' !in a && '%' !in b && '%' !in home && '%' !in ce && '%' !in pro
    ensures SubstituteLine(a + TcHomeMark + b, home, ce, pro) == a + home + b
    ensures SubstituteLine(a + WorkingCopyCeMark + b, home, ce, pro) == a + ce + b
    ensures SubstituteLine(a + WorkingCopyProMark + b, home, ce, pro) == a + pro + b
  {
    TcHomeIsMark();
    WorkingCopyCeIsMark();
    WorkingCopyProIsMark();
    assert SubstituteLine(a + TcHomeMark + b, home, ce, pro) == a + home + b by {
      ReplaceOnce(a, TcHomeMark, b, home);
      ReplaceClean(a + home + b, WorkingCopyCeMark, ce);
      ReplaceClean(a + home + b, WorkingCopyProMark, pro);
    }
    assert SubstituteLine(a + WorkingCopyCeMark + b, home, ce, pro) == a + ce + b by {
      OtherMarkAbsent(a, WorkingCopyCeMark, b, TcHomeMark);
      ReplaceAbsent(a + WorkingCopyCeMark + b, TcHomeMark, home);
      ReplaceOnce(a, WorkingCopyCeMark, b, ce);
      ReplaceClean(a + ce + b, WorkingCopyProMark, pro);
    }
    assert SubstituteLine(a + WorkingCopyProMark + b, home, ce, pro) == a + pro + b by {
      OtherMarkAbsent(a, WorkingCopyProMark, b, TcHomeMark);
      ReplaceAbsent(a + WorkingCopyProMark + b, TcHomeMark, home);
      OtherMarkAbsent(a, WorkingCopyProMark, b, WorkingCopyCeMark);
      ReplaceAbsent(a + WorkingCopyProMark + b, WorkingCopyCeMark, ce);
      ReplaceOnce(a, WorkingCopyProMark, b, pro);
    }
  }

  /** A template without placeholders is copied as it is. */
  lemma MasterPropertiesUnmarked(lines: seq<string>, home: string, ce: string, pro: string)
    requires forall i :: 0 <= i < |lines| ==> !HasMark(lines[i])
    ensures MasterProperties(lines, home, ce, pro) == lines
  {
    forall i | 0 <= i < |lines| ensures MasterProperties(lines, home, ce, pro)[i] == lines[i] {
      SubstituteUnmarked(lines[i], home, ce, pro);
    }
  }

  /** The keys the master properties are written from are there. */
  predicate MasterKeys(ctx: Store) {
    && Has(ctx, "core", "data_dir") && Has(ctx, "tc", "home")
    && Has(ctx, "src", "working_copy_ce") && Has(ctx, "src", "working_copy_pro")
  }

  function MasterTemplate(ctx: Store): string
    requires Has(ctx, "core", "data_dir")
  {
    Get(ctx, "core", "data_dir") + "/templates/default_master.properties"
  }

  /** Lines 48-58: the output file is opened first, so a missing template
      leaves it empty; otherwise it receives the substituted template, which
      is also echoed to standard output. */
  function WriteMasterProperties(buildomatic: string, ctx: Store, world: World): (r: Run)
    requires MasterKeys(ctx)
    ensures r.failure.Some? <==> MasterTemplate(ctx) !in world.files
    ensures r.failure.Some? ==>
      r == Run([Write(buildomatic + "/default_master.properties", "")], Some(NoSuchFile(MasterTemplate(ctx))))
    ensures r.failure.None? ==>
      var text := Concat(MasterProperties(world.files[MasterTemplate(ctx)], Get(ctx, "tc", "home"),
                                          Get(ctx, "src", "working_copy_ce"), Get(ctx, "src", "working_copy_pro")));
      r.trace == [Write(buildomatic + "/default_master.properties", text), Print(text)]
  {
    var out := buildomatic + "/default_master.properties";
    var template := Get(ctx, "core", "data_dir") + "/templates/default_master.properties";
    if template !in world.files then Run([Write(out, "")], Some(NoSuchFile(template)))
    else
      var text := Concat(MasterProperties(world.files[template], Get(ctx, "tc", "home"),
                                          Get(ctx, "src", "working_copy_ce"), Get(ctx, "src", "working_copy_pro")));
      Done([Write(out, text), Print(text)])
  }

  // ---------------------------------------------------------------------------
  // `_write_maven_settings_xml`

  const StartMarker: string := "[java] <?xml version=\"1.0\" encoding=\"UTF-8\"?>"
  const EndMarker: string := "[java] </settings>"

  /** The index of the first line containing `marker`. */
  function FirstWith(lines: seq<string>, marker: string): (r: Option<nat>)
    ensures r.Some? ==> r.value < |lines| && Contains(lines[r.value], marker)
    ensures r.Some? ==> forall k :: 0 <= k < r.value ==> !Contains(lines[k], marker)
    ensures r.None? ==> forall k :: 0 <= k < |lines| ==> !Contains(lines[k], marker)
  {
    if |lines| == 0 then None
    else if Contains(lines[0], marker) then Some(0)
    else match FirstWith(lines[1..], marker)
      case None => None
      case Some(k) => Some(k + 1)
  }

  /** Reading line `i` finds a marker first met at or before `i` exactly
      when it was met before `i` or line `i` holds it. */
  lemma FirstWithPast(lines: seq<string>, marker: string, i: nat)
    requires i < |lines|
    ensures var f := FirstWith(lines, marker);
      (f.Some? && f.value <= i) <==> ((f.Some? && f.value < i) || Contains(lines[i], marker))
  {
  }

  /** The lines the extractor keeps: from the first line with the XML header
      through the first line with the closing tag, none when there is no
      header, and none when the closing tag comes first. */
  function Window(lines: seq<string>, open: string, close: string): seq<string> {
    match FirstWith(lines, open)
    case None => []
    case Some(s) =>
      match FirstWith(lines, close)
      case None => lines[s..]
      case Some(e) => if e < s then [] else lines[s..e + 1]
  }

  /** A kept line: its first 12 characters (the `     [java] ` prefix) dropped
      and a line break appended. */
  function Strip(line: string): string {
    DropPrefix(line, 12) + "\n"
  }

  function StripAll(lines: seq<string>): string
    decreases |lines|
  {
    if |lines| == 0 then "" else StripAll(lines[..|lines| - 1]) + Strip(lines[|lines| - 1])
  }

  /** The settings document extracted from ant's output lines. */
  function Settings(lines: seq<string>): string {
    StripAll(Window(lines, StartMarker, EndMarker))
  }

  lemma {:induction false} StripAllSnoc(lines: seq<string>, i: nat, j: nat)
    requires i <= j < |lines|
    ensures StripAll(lines[i..j + 1]) == StripAll(lines[i..j]) + Strip(lines[j])
  {
    assert lines[i..j + 1][..j - i] == lines[i..j];
  }

  /** The scan stopped at the first closing tag, line `i - 1`: the text it
      built is the window's. */
  lemma ExitAtClosingTag(lines: seq<string>, open: string, close: string, i: nat, started: bool, result: string)
    requires 0 < i <= |lines| && FirstWith(lines, close) == Some(i - 1)
    requires started <==> FirstWith(lines, open).Some? && FirstWith(lines, open).value < i
    requires !started ==> result == ""
    requires started ==> result == StripAll(lines[FirstWith(lines, open).value..i])
    ensures result == StripAll(Window(lines, open, close))
  {
    WindowStopped(lines, open, close, i - 1);
  }

  /** The scan read every line without meeting a closing tag: the text it
      built is the window's. */
  lemma ExitAtLastLine(lines: seq<string>, open: string, close: string, started: bool, result: string)
    requires FirstWith(lines, close).None?
    requires started <==> FirstWith(lines, open).Some?
    requires !started ==> result == ""
    requires started ==> result == StripAll(lines[FirstWith(lines, open).value..|lines|])
    ensures result == StripAll(Window(lines, open, close))
  {
    WindowUnclosed(lines, open, close);
    if started {
      assert lines[FirstWith(lines, open).value..|lines|] == lines[FirstWith(lines, open).value..];
    }
  }

  lemma WindowStopped(lines: seq<string>, open: string, close: string, e: nat)
    requires FirstWith(lines, close) == Some(e)
    ensures var start := FirstWith(lines, open);
      Window(lines, open, close) == if start.Some? && start.value <= e then lines[start.value..e + 1] else []
  {
  }

  lemma WindowUnclosed(lines: seq<string>, open: string, close: string)
    requires FirstWith(lines, close).None?
    ensures var start := FirstWith(lines, open);
      Window(lines, open, close) == if start.Some? then lines[start.value..] else []
  {
  }

  /** Lines 90-104: the scan with a started flag and an early exit, computing
      the window's text line by line. */
  method Extract(lines: seq<string>, open: string, close: string) returns (result: string)
    ensures result == StripAll(Window(lines, open, close))
  {
    var started := false;
    result := "";
    var i := 0;
    var stopped := false;
    while i < |lines| && !stopped
      invariant 0 <= i <= |lines|
      invariant !stopped ==> FirstWith(lines, close).None? || FirstWith(lines, close).value >= i
      invariant stopped ==> 0 < i && FirstWith(lines, close) == Some(i - 1)
      invariant started <==> FirstWith(lines, open).Some? && FirstWith(lines, open).value < i
      invariant !started ==> result == ""
      invariant started ==> result == StripAll(lines[FirstWith(lines, open).value..i])
      decreases |lines| - i, !stopped
    {
      FirstWithPast(lines, open, i);
      FirstWithPast(lines, close, i);
      if Contains(lines[i], open) {
        started := true;
      }
      if started {
        StripAllSnoc(lines, FirstWith(lines, open).value, i);
        result := result + Strip(lines[i]);
      }
      if Contains(lines[i], close) {
        stopped := true;
      }
      i := i + 1;
    }
    if stopped {
      ExitAtClosingTag(lines, open, close, i, started, result);
    } else {
      ExitAtLastLine(lines, open, close, started, result);
    }
  }

  /** The settings file is empty (apart from `print`'s line break) when the
      closing tag comes before any header, and when there is no header. */
  lemma SettingsEmpty(lines: seq<string>)
    requires FirstWith(lines, StartMarker).None?
          || (FirstWith(lines, EndMarker).Some? && FirstWith(lines, EndMarker).value < FirstWith(lines, StartMarker).value)
    ensures Settings(lines) == ""
  {
  }

  /** Lines 87-104: the extractor with the two markers of ant's echo of the
      effective settings. */
  method ExtractSettings(lines: seq<string>) returns (result: string)
    ensures result == Settings(lines)
  {
    result := Extract(lines, StartMarker, EndMarker);
  }

  /** The keys the settings step reads and which the resolver never defaults. */
  predicate SettingsKeys(ctx: Store) {
    Has(ctx, "core", "templates") && Has(ctx, "ctx", "home")
  }

  function MavenCommand(buildomatic: string): seq<string> {
    ["ant", "-buildfile", buildomatic + "/jst.xml", "maven-effective-settings"]
  }

  /** Lines 80-107: copy `jst.xml` in when missing, run ant for the effective
      settings, and write the extracted document under `ctx.home`. */
  function WriteMavenSettings(buildomatic: string, ctx: Store, world: World): (r: Run)
    requires SettingsKeys(ctx)
    ensures var jst, source := buildomatic + "/jst.xml", Get(ctx, "core", "templates") + "/jst.xml";
      && (r.failure.Some? <==> jst !in world.present && source !in world.present)
      && (r.failure.Some? ==> r == Run([], Some(NoSuchFile(source))))
      && (r.failure.None? ==>
            r.trace == (if jst in world.present then [] else [Copy(source, jst)])
                       + [Capture(MavenCommand(buildomatic)),
                          Write(Get(ctx, "ctx", "home") + "/maven-settings.xml", Settings(Split(world.output)) + "\n")])
  {
    var jst := buildomatic + "/jst.xml";
    var source := Get(ctx, "core", "templates") + "/jst.xml";
    var copy := if jst in world.present then Done([])
                else if source in world.present then Done([Copy(source, jst)])
                else Run([], Some(NoSuchFile(source)));
    Then(copy, Done([Capture(["ant", "-buildfile", jst, "maven-effective-settings"]),
                     Write(Get(ctx, "ctx", "home") + "/maven-settings.xml", Settings(Split(world.output)) + "\n")]))
  }

  // ---------------------------------------------------------------------------
  // `_init` and `execute`

  /** Lines 40-44: remove an existing working copy, then check it out. */
  function CleanCheckout(url: string, wc: string, world: World): (r: Run)
    ensures r.failure.None?
    ensures r.trace == (if wc in world.present then [Call(["rm", "-R", wc])] else []) + [Call(["svn", "checkout", url, wc])]
  {
    Then(Done(if wc in world.present then [Call(["rm", "-R", wc])] else []), SvnStep("checkout", url, wc))
  }

  predicate SvnKeys(ctx: Store) {
    && Has(ctx, "src", "url_ce") && Has(ctx, "src", "url_pro")
    && Has(ctx, "src", "working_copy_ce") && Has(ctx, "src", "working_copy_pro")
  }

  predicate InitKeys(ctx: Store) {
    SvnKeys(ctx) && MasterKeys(ctx) && Has(ctx, "src", "skip_tests") && SettingsKeys(ctx)
  }

  /** The world once both working copies are checked out afresh. */
  function Refreshed(ctx: Store, world: World): World
    requires SvnKeys(ctx)
  {
    AfterCheckout(AfterCheckout(world, Get(ctx, "src", "working_copy_ce")), Get(ctx, "src", "working_copy_pro"))
  }

  /** Lines 26-36: clean checkouts of ce and pro, the master properties, a
      full build, the maven settings. Each step sees the world the steps
      before it left. `init` always starts with the two checkouts, and stops
      only on a missing template. */
  function Init(buildomatic: string, ctx: Store, world: World): (r: Run)
    requires InitKeys(ctx)
    ensures CleanCheckout(Get(ctx, "src", "url_ce"), Get(ctx, "src", "working_copy_ce"), world).trace
            + CleanCheckout(Get(ctx, "src", "url_pro"), Get(ctx, "src", "working_copy_pro"),
                            AfterCheckout(world, Get(ctx, "src", "working_copy_ce"))).trace <= r.trace
    ensures r.failure.Some? <==>
      || MasterTemplate(ctx) !in world.files
      || (&& buildomatic + "/jst.xml" !in Refreshed(ctx, world).present
          && Get(ctx, "core", "templates") + "/jst.xml" !in Refreshed(ctx, world).present)
    ensures r.failure.Some? ==>
      r.failure.value in {NoSuchFile(MasterTemplate(ctx)), NoSuchFile(Get(ctx, "core", "templates") + "/jst.xml")}
  {
    var ce, pro := Get(ctx, "src", "working_copy_ce"), Get(ctx, "src", "working_copy_pro");
    var w1 := AfterCheckout(world, ce);
    var w2 := AfterCheckout(w1, pro);
    Then(CleanCheckout(Get(ctx, "src", "url_ce"), ce, world),
    Then(CleanCheckout(Get(ctx, "src", "url_pro"), pro, w1),
    Then(WriteMasterProperties(buildomatic, ctx, w2),
    Then(BuildStep(ctx, buildomatic, []),
         WriteMavenSettings(buildomatic, ctx, w2)))))
  }

  /** The keys an action reads, beyond the ce working copy every action reads. */
  predicate Ready(action: string, ctx: Store) {
    && Has(ctx, "src", "working_copy_ce")
    && (action == "init" ==> InitKeys(ctx))
    && (action in {"build", "rebuild"} ==> Has(ctx, "src", "skip_tests"))
    && (action !in {"init", "build", "rebuild"} ==> SvnKeys(ctx))
  }

  /** `execute(action, args, ctx)`: a build fails only on a lone argument, an
      svn action only when it is unknown. */
  function Execute(action: string, args: seq<string>, ctx: Store, world: World): (r: Run)
    requires Ready(action, ctx)
    ensures action in {"build", "rebuild"} ==> (r.failure.None? <==> |args| != 1)
    ensures action !in {"init", "build", "rebuild"} ==> (r.failure.None? <==> action in SvnActions)
  {
    var buildomatic := Get(ctx, "src", "working_copy_ce") + "/buildomatic";
    if action == "init" then Init(buildomatic, ctx, world)
    else if action in {"build", "rebuild"} then BuildStep(ctx, buildomatic, args)
    else Then(SvnStep(action, Get(ctx, "src", "url_ce"), Get(ctx, "src", "working_copy_ce")),
              SvnStep(action, Get(ctx, "src", "url_pro"), Get(ctx, "src", "working_copy_pro")))
  }

  /** "build" and "rebuild" do the same. */
  lemma ExecuteRebuildIsBuild(args: seq<string>, ctx: Store, world: World)
    requires Has(ctx, "src", "working_copy_ce") && Has(ctx, "src", "skip_tests")
    ensures Ready("build", ctx) && Ready("rebuild", ctx)
    ensures Execute("rebuild", args, ctx, world) == Execute("build", args, ctx, world)
  {
  }

  /** Any other action is an svn action on ce, then on pro; an unknown one is
      refused before anything runs. */
  lemma ExecuteSvn(action: string, args: seq<string>, ctx: Store, world: World)
    requires action !in {"init", "build", "rebuild"}
    requires Has(ctx, "src", "working_copy_ce") && SvnKeys(ctx)
    ensures Ready(action, ctx)
    ensures action in SvnActions ==>
      && Execute(action, args, ctx, world).failure.None?
      && |Execute(action, args, ctx, world).trace| == 2
      && Execute(action, args, ctx, world).trace[0] ==
           Call(SvnCommand(action, Get(ctx, "src", "url_ce"), Get(ctx, "src", "working_copy_ce")).value)
      && Execute(action, args, ctx, world).trace[1] ==
           Call(SvnCommand(action, Get(ctx, "src", "url_pro"), Get(ctx, "src", "working_copy_pro")).value)
    ensures action !in SvnActions ==> Execute(action, args, ctx, world) == Run([], Some(UnknownAction(action)))
  {
  }

  /** The order of `init` when every file it needs is there: both checkouts,
      the master properties, the full build, then the settings. */
  lemma InitOrder(buildomatic: string, ctx: Store, world: World)
    requires InitKeys(ctx)
    requires MasterTemplate(ctx) in world.files
    requires buildomatic + "/jst.xml" in Refreshed(ctx, world).present
    ensures var r := Init(buildomatic, ctx, world);
      var home, ce, pro := Get(ctx, "tc", "home"), Get(ctx, "src", "working_copy_ce"), Get(ctx, "src", "working_copy_pro");
      var text := Concat(MasterProperties(world.files[MasterTemplate(ctx)], home, ce, pro));
      && r.failure.None?
      && r.trace ==
           CleanCheckout(Get(ctx, "src", "url_ce"), ce, world).trace
           + CleanCheckout(Get(ctx, "src", "url_pro"), pro, AfterCheckout(world, ce)).trace
           + [ Write(buildomatic + "/default_master.properties", text), Print(text),
               Call(["ant", Ant.SkipTestsArg(Get(ctx, "src", "skip_tests")), "-buildfile",
                     buildomatic + "/build.xml", "build-src-all"]),
               Capture(MavenCommand(buildomatic)),
               Write(Get(ctx, "ctx", "home") + "/maven-settings.xml", Settings(Split(world.output)) + "\n") ]
  {
    var b := BuildArgv(Get(ctx, "src", "skip_tests"), buildomatic, []).value;
    assert b == b[..4] + b[4..];
  }

  /** A missing master-properties template stops `init` after the two
      checkouts and the emptied output file: nothing is built. */
  lemma InitStopsWithoutTemplate(buildomatic: string, ctx: Store, world: World)
    requires InitKeys(ctx)
    requires MasterTemplate(ctx) !in world.files
    ensures Init(buildomatic, ctx, world).failure == Some(NoSuchFile(MasterTemplate(ctx)))
    ensures Init(buildomatic, ctx, world).trace ==
      CleanCheckout(Get(ctx, "src", "url_ce"), Get(ctx, "src", "working_copy_ce"), world).trace
      + CleanCheckout(Get(ctx, "src", "url_pro"), Get(ctx, "src", "working_copy_pro"),
                      AfterCheckout(world, Get(ctx, "src", "working_copy_ce"))).trace
      + [Write(buildomatic + "/default_master.properties", "")]
  {
  }

  /** A path built by appending a `/`-led suffix lies strictly below the directory. */
  lemma WithinJoined(dir: string, rest: string)
    requires |rest| > 0 && rest[0] == '/'
    ensures Within(dir + rest, dir) && dir + rest != dir
  {
    assert (dir + rest)[..|dir|] == dir;
  }

  /** `jst.xml` is gone once both working copies are checked out afresh,
      unless the checkout itself creates it. */
  lemma JstGone(ctx: Store, world: World)
    requires SvnKeys(ctx)
    requires var jst := Get(ctx, "src", "working_copy_ce") + "/buildomatic/jst.xml";
      jst !in world.checkout && jst != Get(ctx, "src", "working_copy_pro")
    ensures Get(ctx, "src", "working_copy_ce") + "/buildomatic/jst.xml" !in Refreshed(ctx, world).present
  {
    var ce := Get(ctx, "src", "working_copy_ce");
    var jst := ce + "/buildomatic/jst.xml";
    WithinJoined(ce, "/buildomatic/jst.xml");
    var w1 := AfterCheckout(world, ce);
    assert jst !in w1.present;
    var w2 := AfterCheckout(w1, Get(ctx, "src", "working_copy_pro"));
    assert w2 == Refreshed(ctx, world);
  }

  /** `jst.xml` lives in the ce working copy, which `init` removes; unless the
      checkout brings it back, `init` copies it in again from the templates,
      and fails when the template is missing too. */
  lemma InitRestoresJstXml(args: seq<string>, ctx: Store, world: World)
    requires InitKeys(ctx)
    requires MasterTemplate(ctx) in world.files
    requires var jst := Get(ctx, "src", "working_copy_ce") + "/buildomatic/jst.xml";
      jst !in world.checkout && jst != Get(ctx, "src", "working_copy_pro")
    ensures Ready("init", ctx)
    ensures Get(ctx, "src", "working_copy_ce") + "/buildomatic/jst.xml" !in Refreshed(ctx, world).present
    ensures var source := Get(ctx, "core", "templates") + "/jst.xml";
      source in Refreshed(ctx, world).present ==>
        && Execute("init", args, ctx, world).failure.None?
        && Copy(source, Get(ctx, "src", "working_copy_ce") + "/buildomatic/jst.xml")
           in Execute("init", args, ctx, world).trace
    ensures var source := Get(ctx, "core", "templates") + "/jst.xml";
      source !in Refreshed(ctx, world).present ==>
        Execute("init", args, ctx, world).failure == Some(NoSuchFile(source))
  {
    JstGone(ctx, world);
    var ce := Get(ctx, "src", "working_copy_ce");
    var buildomatic := ce + "/buildomatic";
    var jst := buildomatic + "/jst.xml";
    assert jst == ce + "/buildomatic/jst.xml";
    var source := Get(ctx, "core", "templates") + "/jst.xml";
    var w2 := Refreshed(ctx, world);
    var m := WriteMavenSettings(buildomatic, ctx, w2);
    if source in w2.present {
      var c1 := CleanCheckout(Get(ctx, "src", "url_ce"), ce, world);
      var c2 := CleanCheckout(Get(ctx, "src", "url_pro"), Get(ctx, "src", "working_copy_pro"), AfterCheckout(world, ce));
      var wm := WriteMasterProperties(buildomatic, ctx, w2);
      var bs := BuildStep(ctx, buildomatic, []);
      assert m.trace[0] == Copy(source, jst);
      assert Execute("init", args, ctx, world).trace == c1.trace + (c2.trace + (wm.trace + (bs.trace + m.trace)));
    }
  }
}
