/** `jst/resources/tc.py`: the tomcat handler.

    The port extractors read the JVM arguments of a tomcat process (or the
    configured JVM options) the way the two regular expressions of the source
    do; the actions become traces of environment settings and `catalina.sh`
    calls. The file system the handler consults is a `World`: which paths
    exist, and what a glob pattern matches. */
module Tc {
  import opened Results
  import opened Text
  import opened ConfigStore
  import opened Effects
  import Resolver

  datatype World = World(present: set<string>, glob: string -> seq<string>)

  // ---------------------------------------------------------------------------
  // Port extraction

  const HttpFlag: string := "-Dport.http="
  const AgentFlag: string := "-agentlib:"
  const AddressFlag: string := ",address="

  /** `re.search(re.escape(flag) + "(\d*)", arg).group(1)`: the digits right
      after the first occurrence of `flag`, possibly none; nothing when the
      flag does not occur. */
  function DigitsAfter(arg: string, flag: string): (r: Option<string>)
    ensures r.None? <==> !Contains(arg, flag)
    ensures r.Some? ==> Contains(arg, flag + r.value)
    ensures r.Some? ==> forall k :: 0 <= k < |r.value| ==> IsDigit(r.value[k])
    ensures r.Some? ==> exists i: nat ::
      && StartsAt(arg, i, flag)
      && (forall k: nat :: k < i ==> !StartsAt(arg, k, flag))
      && StartsAt(arg, i, flag + r.value)
      && (i + |flag| + |r.value| == |arg| || !IsDigit(arg[i + |flag| + |r.value|]))
  {
    FindContains(arg, flag);
    FindFirst(arg, flag, 0);
    match Find(arg, flag, 0)
    case None => None
    case Some(i) =>
      var d := Digits(arg[i + |flag|..]);
      FlagThenDigits(arg, i, flag);
      DigitsRun(arg[i + |flag|..]);
      Some(d)
  }

  /** The flag and the digit run after it occur together. */
  lemma FlagThenDigits(arg: string, i: nat, flag: string)
    requires StartsAt(arg, i, flag)
    ensures StartsAt(arg, i, flag + Digits(arg[i + |flag|..]))
  {
    var d := Digits(arg[i + |flag|..]);
    DigitsRun(arg[i + |flag|..]);
    assert arg[i..i + |flag| + |d|] == arg[i..i + |flag|] + arg[i + |flag|..][..|d|];
  }

  /** The index just past the last character `.` may cross from `lo`: the
      first line break at or after `lo`, or the end. */
  function LineStop(s: string, lo: nat): (r: nat)
    requires lo <= |s|
    ensures lo <= r <= |s|
    ensures forall k :: lo <= k < r ==> s[k] != '\n'
    ensures r < |s| ==> s[r] == '\n'
    decreases |s| - lo
  {
    if lo == |s| || s[lo] == '\n' then lo else LineStop(s, lo + 1)
  }

  /** The last occurrence of `lit` lying wholly within `s[lo..hi]`. */
  function LastWithin(s: string, lit: string, lo: nat, hi: nat): (r: Option<nat>)
    requires lo <= hi <= |s|
    ensures r.Some? ==> lo <= r.value && r.value + |lit| <= hi && StartsAt(s, r.value, lit)
    decreases hi
  {
    if hi < lo + |lit| then None
    else if StartsAt(s, hi - |lit|, lit) then Some(hi - |lit|)
    else if hi == lo then None
    else LastWithin(s, lit, lo, hi - 1)
  }

  /** What `LastWithin` finds is the last occurrence in the window, and it
      finds one whenever there is one. */
  lemma {:induction false} LastWithinLast(s: string, lit: string, lo: nat, hi: nat)
    requires lo <= hi <= |s|
    ensures var r := LastWithin(s, lit, lo, hi);
      r.Some? ==> forall q :: r.value < q && q + |lit| <= hi ==> !StartsAt(s, q, lit)
    ensures LastWithin(s, lit, lo, hi).None? ==> forall q :: lo <= q && q + |lit| <= hi ==> !StartsAt(s, q, lit)
    decreases hi
  {
    if hi >= lo + |lit| && !StartsAt(s, hi - |lit|, lit) && hi > lo {
      LastWithinLast(s, lit, lo, hi - 1);
    }
  }

  /** `re.search("-agentlib:.*,address=(\d*)", arg)` tried from start
      position `i` on: the first `-agentlib:` whose line holds a later
      `,address=`; the greedy `.*` then settles on the last such `,address=`
      of that line, whose position is the result. */
  function DebugFrom(s: string, i: nat, agent: string, address: string): (r: Option<nat>)
    requires i <= |s|
    ensures r.Some? ==> StartsAt(s, r.value, address)
    decreases |s| - i
  {
    if StartsAt(s, i, agent) && LastWithin(s, address, i + |agent|, LineStop(s, i + |agent|)).Some? then
      LastWithin(s, address, i + |agent|, LineStop(s, i + |agent|))
    else if i == |s| then None
    else DebugFrom(s, i + 1, agent, address)
  }

  /** What `DebugFrom` matches is an address marker after an agent marker at
      or past `i`, on the agent marker's line. */
  lemma {:induction false} DebugFromSound(s: string, i: nat, agent: string, address: string)
    requires i <= |s|
    ensures var r := DebugFrom(s, i, agent, address);
      r.Some? ==> exists a: nat ::
        && i <= a && StartsAt(s, a, agent) && a + |agent| <= r.value
        && r.value + |address| <= LineStop(s, a + |agent|)
    decreases |s| - i
  {
    if StartsAt(s, i, agent) && LastWithin(s, address, i + |agent|, LineStop(s, i + |agent|)).Some? {
    } else if i < |s| {
      DebugFromSound(s, i + 1, agent, address);
    }
  }

  /** The digit run that starts `skip` characters after position `m`, if
      there is a position. */
  function Capture(s: string, m: Option<nat>, skip: nat): (r: Option<string>)
    ensures r.Some? <==> m.Some? && m.value + skip <= |s|
    ensures r.Some? ==> forall k :: 0 <= k < |r.value| ==> IsDigit(r.value[k])
  {
    if m.Some? && m.value + skip <= |s| then
      DigitsRun(s[m.value + skip..]);
      Some(Digits(s[m.value + skip..]))
    else None
  }

  /** The captured group: the digits after the matched address marker. */
  function PortAfter(s: string, agent: string, address: string): Option<string> {
    Capture(s, DebugFrom(s, 0, agent, address), |address|)
  }

  function DebugPortIn(arg: string): Option<string> {
    PortAfter(arg, AgentFlag, AddressFlag)
  }

  function HttpPortIn(arg: string): Option<string> {
    DigitsAfter(arg, HttpFlag)
  }

  /** Without line breaks, `.` crosses to the end of the text. */
  lemma {:induction false} LineStopUnbroken(s: string, lo: nat)
    requires lo <= |s|
    requires !Contains(s, "\n")
    ensures LineStop(s, lo) == |s|
    decreases |s| - lo
  {
    if lo < |s| {
      NoBreakAt(s, lo);
      LineStopUnbroken(s, lo + 1);
    }
  }

  /** A text that does not contain a line break has none at any index. */
  lemma NoBreakAt(s: string, k: nat)
    requires !Contains(s, "\n") && k < |s|
    ensures s[k] != '\n'
  {
    assert !StartsAt(s, k, "\n");
    assert s[k..k + 1] == [s[k]];
  }

  /** The last occurrence at or after `lo` is the last occurrence overall,
      when that lies at or after `lo`. */
  lemma LastWithinFrom(s: string, lit: string, lo: nat)
    requires lo <= |s|
    ensures var all := LastWithin(s, lit, 0, |s|);
      LastWithin(s, lit, lo, |s|) == (if all.Some? && lo <= all.value then all else None)
  {
    var all := LastWithin(s, lit, 0, |s|);
    var w := LastWithin(s, lit, lo, |s|);
    LastWithinLast(s, lit, 0, |s|);
    LastWithinLast(s, lit, lo, |s|);
    if w.Some? {
      assert all.Some?;
      assert all.value == w.value;
    } else if all.Some? {
      assert all.value < lo;
    }
  }

  /** What a text without line breaks decides: the first `-agentlib:` at or
      after `i`, and the last `,address=` after it. */
  function FirstAgentDecides(s: string, i: nat, agent: string, address: string): Option<nat>
    requires i <= |s|
  {
    var a := Find(s, agent, i);
    if a.None? then None else LastWithin(s, address, a.value + |agent|, |s|)
  }

  /** A later `-agentlib:` cannot succeed where an earlier one found no
      `,address=` on a line without breaks. */
  lemma {:induction false} FirstAgentFails(s: string, i: nat, j: nat, agent: string, address: string)
    requires i <= |s| && j <= |s| && i <= j + |agent|
    requires LastWithin(s, address, i, |s|).None?
    ensures FirstAgentDecides(s, j, agent, address).None?
  {
    var a := Find(s, agent, j);
    if a.Some? {
      var lo := a.value + |agent|;
      assert LastWithin(s, address, lo, |s|).None? by {
        LastWithinFrom(s, address, i);
        LastWithinFrom(s, address, lo);
      }
    }
  }

  /** At a `-agentlib:` on a line without breaks the search stops at the
      last `,address=` after it, or moves on when there is none. */
  lemma DebugFromAgent(s: string, i: nat, agent: string, address: string)
    requires i < |s| && StartsAt(s, i, agent)
    requires !Contains(s, "\n")
    ensures var w := LastWithin(s, address, i + |agent|, |s|);
      DebugFrom(s, i, agent, address) == (if w.Some? then w else DebugFrom(s, i + 1, agent, address))
  {
    LineStopUnbroken(s, i + |agent|);
  }

  lemma DecidesAtAgent(s: string, i: nat, agent: string, address: string)
    requires StartsAt(s, i, agent)
    ensures FirstAgentDecides(s, i, agent, address) == LastWithin(s, address, i + |agent|, |s|)
  {
    assert Find(s, agent, i) == Some(i);
  }

  lemma DecidesPastOther(s: string, i: nat, agent: string, address: string)
    requires i < |s| && !StartsAt(s, i, agent)
    ensures FirstAgentDecides(s, i, agent, address) == FirstAgentDecides(s, i + 1, agent, address)
    ensures DebugFrom(s, i, agent, address) == DebugFrom(s, i + 1, agent, address)
  {
    assert Find(s, agent, i) == Find(s, agent, i + 1);
  }

  /** On a text without line breaks the match is decided by the first
      `-agentlib:` at or after `i` alone. */
  lemma {:induction false} DebugFromUnbroken(s: string, i: nat, agent: string, address: string)
    requires i <= |s|
    requires !Contains(s, "\n")
    requires |agent| > 0
    ensures DebugFrom(s, i, agent, address) == FirstAgentDecides(s, i, agent, address)
    decreases |s| - i
  {
    if i == |s| {
      assert !StartsAt(s, i, agent);
    } else if StartsAt(s, i, agent) {
      DebugFromAgent(s, i, agent, address);
      DecidesAtAgent(s, i, agent, address);
      if LastWithin(s, address, i + |agent|, |s|).None? {
        DebugFromUnbroken(s, i + 1, agent, address);
        FirstAgentFails(s, i + |agent|, i + 1, agent, address);
      }
    } else {
      DecidesPastOther(s, i, agent, address);
      DebugFromUnbroken(s, i + 1, agent, address);
    }
  }

  /** The first agent decides by the last address of the whole text, when
      that address lies after the agent. */
  lemma FirstAgentGreedy(s: string, agent: string, address: string)
    ensures var a := Find(s, agent, 0);
      var p := LastWithin(s, address, 0, |s|);
      FirstAgentDecides(s, 0, agent, address) ==
        (if a.Some? && p.Some? && a.value + |agent| <= p.value then p else None)
  {
    var a := Find(s, agent, 0);
    if a.Some? {
      var lo := a.value + |agent|;
      assert FirstAgentDecides(s, 0, agent, address) == LastWithin(s, address, lo, |s|);
      LastWithinFrom(s, address, lo);
    }
  }

  /** On a text without line breaks the match is the last address marker of
      the text, provided it starts after the end of the first agent marker. */
  lemma MatchGreedy(s: string, agent: string, address: string)
    requires !Contains(s, "\n")
    requires |agent| > 0
    ensures var a := Find(s, agent, 0);
      var p := LastWithin(s, address, 0, |s|);
      DebugFrom(s, 0, agent, address) == (if a.Some? && p.Some? && a.value + |agent| <= p.value then p else None)
  {
    DebugFromUnbroken(s, 0, agent, address);
    FirstAgentGreedy(s, agent, address);
  }

  /** On a text without line breaks: the pattern matches exactly when an
      address marker starts after the end of the first agent marker, and the
      digits are read after the last address marker of the text. */
  lemma PortAfterGreedy(s: string, agent: string, address: string)
    requires !Contains(s, "\n")
    requires |agent| > 0
    ensures var a := Find(s, agent, 0);
      var p := LastWithin(s, address, 0, |s|);
      PortAfter(s, agent, address) ==
        Capture(s, if a.Some? && p.Some? && a.value + |agent| <= p.value then p else None, |address|)
  {
    MatchGreedy(s, agent, address);
  }

  /** On a JVM argument without line breaks: there is a debug port exactly
      when a `,address=` starts after the end of the first `-agentlib:`, and
      it is read after the last `,address=` of the argument. */
  lemma DebugPortGreedy(arg: string)
    requires !Contains(arg, "\n")
    ensures var a := Find(arg, AgentFlag, 0);
      var p := LastWithin(arg, AddressFlag, 0, |arg|);
      DebugPortIn(arg) ==
        Capture(arg, if a.Some? && p.Some? && a.value + |AgentFlag| <= p.value then p else None, |AddressFlag|)
  {
    PortAfterGreedy(arg, AgentFlag, AddressFlag);
  }

  /** The first argument for which `search` finds something, and what it finds. */
  function FirstMatch(args: seq<string>, search: string -> Option<string>): (r: Option<string>)
    ensures r.None? <==> forall i :: 0 <= i < |args| ==> search(args[i]).None?
    ensures r.Some? ==> exists i :: 0 <= i < |args| && search(args[i]) == r
                                    && forall j :: 0 <= j < i ==> search(args[j]).None?
    decreases |args|
  {
    if |args| == 0 then None
    else if search(args[0]).Some? then search(args[0])
    else
      var rest := FirstMatch(args[1..], search);
      assert forall i :: 0 <= i < |args[1..]| ==> args[1..][i] == args[i + 1];
      rest
  }

  /** `_get_http_port(catalina_args)`: missing exactly when no argument names
      the flag; otherwise what the flag's pattern captures in the first
      argument that names it. */
  function GetHttpPort(args: seq<string>): (r: Option<string>)
    ensures r.None? <==> forall i :: 0 <= i < |args| ==> !Contains(args[i], HttpFlag)
    ensures r.Some? ==> exists i :: 0 <= i < |args| && Contains(args[i], HttpFlag)
                                    && (forall j :: 0 <= j < i ==> !Contains(args[j], HttpFlag))
                                    && r == DigitsAfter(args[i], HttpFlag)
    ensures r.Some? ==> forall k :: 0 <= k < |r.value| ==> IsDigit(r.value[k])
  {
    FirstMatch(args, HttpPortIn)
  }

  /** `_get_debug_port(catalina_args)`: what the debug pattern captures in the
      first argument it matches, a run of digits; missing when it matches
      none. */
  function GetDebugPort(args: seq<string>): (r: Option<string>)
    ensures r.None? <==> forall i :: 0 <= i < |args| ==> DebugPortIn(args[i]).None?
    ensures r.Some? ==> exists i :: 0 <= i < |args| && DebugPortIn(args[i]) == r
                                    && forall j :: 0 <= j < i ==> DebugPortIn(args[j]).None?
    ensures r.Some? ==> forall k :: 0 <= k < |r.value| ==> IsDigit(r.value[k])
  {
    FirstMatch(args, DebugPortIn)
  }

  /** `str()` of a port: Python prints a missing one as `None`. */
  function PortText(port: Option<string>): string {
    if port.Some? then port.value else "None"
  }

  /** Line 67: the status line of one tomcat process. */
  function StatusLine(pid: string, cmdline: seq<string>): (r: string)
    ensures GetHttpPort(cmdline).None? && GetDebugPort(cmdline).None? ==>
      r == "pid=" + pid + ", port.http=None, port.jdwp=None"
  {
    "pid=" + pid + ", port.http=" + PortText(GetHttpPort(cmdline)) + ", port.jdwp=" + PortText(GetDebugPort(cmdline))
  }

  // ---------------------------------------------------------------------------
  // `_go`

  const AppPath: string := "/jasperserver-pro"

  /** Lines 87-92: open the web application on the HTTP port of the JVM
      options, or do nothing when they name none. */
  function Go(ctx: Store): (r: seq<Action>)
    requires Has(ctx, "tc", "java_opts")
    ensures r == [] <==> !Contains(Get(ctx, "tc", "java_opts"), HttpFlag)
    ensures r != [] ==> HttpPortIn(Get(ctx, "tc", "java_opts")).Some?
    ensures r != [] ==>
      r == [Call(["xdg-open", "http://localhost:" + HttpPortIn(Get(ctx, "tc", "java_opts")).value + AppPath])]
  {
    match HttpPortIn(Get(ctx, "tc", "java_opts"))
    case None => []
    case Some(port) => [Call(["xdg-open", "http://localhost:" + port + AppPath])]
  }

  /** `\d*` takes a digit run whole and stops at the first non-digit. */
  lemma {:induction false} DigitsOfRun(d: string, tail: string)
    requires forall k :: 0 <= k < |d| ==> IsDigit(d[k])
    requires |tail| == 0 || !IsDigit(tail[0])
    ensures Digits(d + tail) == d
    decreases |d|
  {
    if |d| == 0 {
      assert d + tail == tail;
    } else {
      assert (d + tail)[1..] == d[1..] + tail;
      DigitsOfRun(d[1..], tail);
    }
  }

  /** An argument that opens with the flag and a digit run yields that run. */
  lemma DigitsAfterLeading(flag: string, d: string, tail: string)
    requires forall k :: 0 <= k < |d| ==> IsDigit(d[k])
    requires |tail| == 0 || !IsDigit(tail[0])
    ensures DigitsAfter(flag + d + tail, flag) == Some(d)
  {
    var s := flag + d + tail;
    assert Find(s, flag, 0) == Some(0) by {
      assert s[0..|flag|] == flag;
    }
    assert Digits(s[|flag|..]) == d by {
      assert s[|flag|..] == d + tail;
      DigitsOfRun(d, tail);
    }
  }

  /** The default JVM options name their HTTP port in a form `_go` and
      `_get_http_port` read back: any digit run put there is found again. */
  lemma JavaOptsPort(port: string)
    requires forall k :: 0 <= k < |port| ==> IsDigit(port[k])
    ensures HttpPortIn(Resolver.JavaOpts(port)) == Some(port)
  {
    var tail := " -Dport.ajp=8009 -Dport.shutdown=8005";
    assert Resolver.JavaOpts(port) == HttpFlag + port + tail;
    DigitsAfterLeading(HttpFlag, port, tail);
  }

  /** With the default JVM options `go` opens port 8080. */
  lemma GoDefault(ctx: Store)
    requires Has(ctx, "tc", "java_opts") && Get(ctx, "tc", "java_opts") == Resolver.JavaOpts("8080")
    ensures Go(ctx) == [Call(["xdg-open", "http://localhost:" + "8080" + AppPath])]
  {
    JavaOptsPort("8080");
  }

  // ---------------------------------------------------------------------------
  // `_execute_catalina_action`, `_deploy`, `_init`, `execute`

  predicate CatalinaKeys(ctx: Store) {
    Has(ctx, "tc", "home") && Has(ctx, "tc", "catalina_opts") && Has(ctx, "tc", "java_opts")
  }

  function CatalinaScript(ctx: Store): string
    requires Has(ctx, "tc", "home")
  {
    Get(ctx, "tc", "home") + "/bin/catalina.sh"
  }

  /** Lines 117-119: each environment variable and the `tc` key it is set from. */
  const CatalinaEnv: seq<(string, string)> := [
    ("CATALINA_HOME", "home"),
    ("CATALINA_OPTS", "catalina_opts"),
    ("JAVA_OPTS", "java_opts")
  ]

  /** Lines 114-121: the three environment variables, then the script with
      the action as its only argument. */
  function Catalina(action: string, ctx: Store): (r: seq<Action>)
    requires CatalinaKeys(ctx)
    ensures |r| == 4 && r[3] == Call([CatalinaScript(ctx), action])
    ensures forall k :: 0 <= k < 3 ==> Has(ctx, "tc", CatalinaEnv[k].1)
    ensures forall k :: 0 <= k < 3 ==> r[k] == SetEnv(CatalinaEnv[k].0, Get(ctx, "tc", CatalinaEnv[k].1))
  {
    [ SetEnv("CATALINA_HOME", Get(ctx, "tc", "home")),
      SetEnv("CATALINA_OPTS", Get(ctx, "tc", "catalina_opts")),
      SetEnv("JAVA_OPTS", Get(ctx, "tc", "java_opts")),
      Call([Get(ctx, "tc", "home") + "/bin/catalina.sh", action]) ]
  }

  const LibDir: string := "/webapps/jasperserver-pro/WEB-INF/lib/"

  /** Lines 96-110: without arguments, ant's deploy target; with an edition
      and a directory, the first jar the pattern matches is copied into the
      web application's libraries. */
  function Deploy(args: seq<string>, ctx: Store, world: World): (r: Run)
    requires Has(ctx, "src", "working_copy_ce") && Has(ctx, "tc", "home")
    ensures |args| == 0 ==> r == Done([Call(["ant", "-buildfile",
                                             Get(ctx, "src", "working_copy_ce") + "/buildomatic/build.xml",
                                             "deploy-webapp-pro"])])
    ensures |args| > 0 && !Has(ctx, "src", "working_copy_" + args[0]) ==>
      r == Run([], Some(MissingKey("src", "working_copy_" + args[0])))
    ensures |args| == 1 && Has(ctx, "src", "working_copy_" + args[0]) ==> r == Run([], Some(MissingArgument(1)))
    ensures |args| >= 2 && Has(ctx, "src", "working_copy_" + args[0]) ==>
      var source := Get(ctx, "src", "working_copy_" + args[0]) + "/" + args[1] + "/target/*.jar";
      && r.failure.None?
      && (|world.glob(source)| > 0 ==>
            r.trace == [Copy(world.glob(source)[0], Get(ctx, "tc", "home") + LibDir),
                        Print(world.glob(source)[0] + "\n")])
      && (|world.glob(source)| == 0 ==> r.trace == [Print("nothing to copy at: " + source + "\n")])
  {
    if |args| == 0 then
      Done([Call(["ant", "-buildfile", Get(ctx, "src", "working_copy_ce") + "/buildomatic/build.xml", "deploy-webapp-pro"])])
    else
      match Item(ctx, "src", "working_copy_" + args[0])
      case Err(e) => Run([], Some(e))
      case Ok(wc) =>
        if |args| < 2 then Run([], Some(MissingArgument(1)))
        else
          var source := wc + "/" + args[1] + "/target/*.jar";
          var files := world.glob(source);
          var destination := Get(ctx, "tc", "home") + LibDir;
          if |files| > 0 then Done([Copy(files[0], destination), Print(files[0] + "\n")])
          else Done([Print("nothing to copy at: " + source + "\n")])
  }

  predicate InitKeys(ctx: Store) {
    && Has(ctx, "core", "download_cache") && Has(ctx, "tc", "distribution_url")
    && Has(ctx, "tc", "home") && Has(ctx, "core", "templates")
  }

  /** Line 43: the cached distribution is named after the last segment of its URL. */
  function DistributionFile(cache: string, url: string): (r: string)
    ensures |cache| < |r| && r[..|cache| + 1] == cache + "/"
    ensures '/' !in r[|cache| + 1..]
    ensures |r| <= |cache| + 1 + |url|
    ensures url[|url| - (|r| - |cache| - 1)..] == r[|cache| + 1..]
    ensures |r| - |cache| - 1 == |url| || url[|url| - (|r| - |cache| - 1) - 1] == '/'
  {
    var name := Basename(url);
    var r := cache + "/" + name;
    assert r[..|cache| + 1] == cache + "/" && r[|cache| + 1..] == name;
    r
  }

  /** The steps before unpacking, as `init` orders them: a download of the
      URL into the archive exactly when `download`, a mkdir of the home
      exactly when `mkdir`, the download first, and nothing else. */
  predicate Fetches(pre: seq<Action>, url: string, file: string, home: string, download: bool, mkdir: bool) {
    && ((exists k :: 0 <= k < |pre| && pre[k].Download?) <==> download)
    && ((exists k :: 0 <= k < |pre| && pre[k].MakeDirs?) <==> mkdir)
    && (forall k :: 0 <= k < |pre| ==> pre[k] == Download(url, file) || pre[k] == MakeDirs(home))
    && (forall j, k :: 0 <= j < |pre| && 0 <= k < |pre| && pre[j].Download? && pre[k].MakeDirs? ==> j < k)
  }

  /** The archive the distribution is cached in. */
  function Archive(ctx: Store): string
    requires InitKeys(ctx)
  {
    DistributionFile(Get(ctx, "core", "download_cache"), Get(ctx, "tc", "distribution_url"))
  }

  /** The tree of tomcat templates `init` lays over the home. */
  function TomcatTemplates(ctx: Store): string
    requires InitKeys(ctx)
  {
    Get(ctx, "core", "templates") + "/tomcat"
  }

  /** Lines 42-53: download the distribution unless cached, create the home
      unless it exists, unpack into it, and lay the templates over it.
      `copy_tree` raises `DistutilsFileError` after the unpacking when the
      templates directory is missing. */
  function Init(ctx: Store, world: World): (r: Run)
    requires InitKeys(ctx)
    ensures r.failure.None? <==> TomcatTemplates(ctx) in world.present
    ensures r.failure.Some? ==> r.failure == Some(NotADirectory(TomcatTemplates(ctx)))
    ensures var n := if r.failure.None? then 2 else 1;
      && |r.trace| >= n
      && Fetches(r.trace[..|r.trace| - n], Get(ctx, "tc", "distribution_url"), Archive(ctx), Get(ctx, "tc", "home"),
                 Archive(ctx) !in world.present, Get(ctx, "tc", "home") !in world.present)
      && r.trace[|r.trace| - n] == Call(["tar", "-xf", Archive(ctx), "-C", Get(ctx, "tc", "home"), "--strip-components=1"])
    ensures r.failure.None? ==> r.trace[|r.trace| - 1] == CopyTree(TomcatTemplates(ctx), Get(ctx, "tc", "home"))
  {
    var file, home := Archive(ctx), Get(ctx, "tc", "home");
    Install(Get(ctx, "tc", "distribution_url"), file, home, TomcatTemplates(ctx),
            file !in world.present, home !in world.present, TomcatTemplates(ctx) in world.present)
  }

  /** The steps of `init` for a given distribution URL, archive, home and
      templates tree, and whether that tree is there to copy. */
  function Install(url: string, file: string, home: string, templates: string,
                   download: bool, mkdir: bool, copyable: bool): (r: Run)
    ensures r.failure.None? <==> copyable
    ensures !copyable ==> r.failure == Some(NotADirectory(templates))
    ensures var n := if copyable then 2 else 1;
      && |r.trace| >= n
      && Fetches(r.trace[..|r.trace| - n], url, file, home, download, mkdir)
      && r.trace[|r.trace| - n] == Call(["tar", "-xf", file, "-C", home, "--strip-components=1"])
    ensures copyable ==> r.trace[|r.trace| - 1] == CopyTree(templates, home)
  {
    var pre := Fetch(url, file, home, download, mkdir);
    var unpack := [Call(["tar", "-xf", file, "-C", home, "--strip-components=1"])];
    FetchSound(url, file, home, download, mkdir);
    if copyable then
      var trace := pre + unpack + [CopyTree(templates, home)];
      assert trace[..|pre|] == pre;
      Done(trace)
    else
      var trace := pre + unpack;
      assert trace[..|pre|] == pre;
      Run(trace, Some(NotADirectory(templates)))
  }

  /** Without the tomcat templates `init` still downloads, creates the home
      and unpacks, but copies nothing into the home. */
  lemma InitWithoutTemplates(ctx: Store, world: World)
    requires InitKeys(ctx) && TomcatTemplates(ctx) !in world.present
    ensures Init(ctx, world).failure == Some(NotADirectory(TomcatTemplates(ctx)))
    ensures forall k :: 0 <= k < |Init(ctx, world).trace| ==> !Init(ctx, world).trace[k].CopyTree?
  {
    var file, home := Archive(ctx), Get(ctx, "tc", "home");
    InstallCopiesOnlyTrees(Get(ctx, "tc", "distribution_url"), file, home, TomcatTemplates(ctx),
                           file !in world.present, home !in world.present, false);
  }

  /** A failed `Install` has no `CopyTree` step. */
  lemma InstallCopiesOnlyTrees(url: string, file: string, home: string, templates: string,
                               download: bool, mkdir: bool, copyable: bool)
    ensures var r := Install(url, file, home, templates, download, mkdir, copyable);
      !copyable ==> forall k :: 0 <= k < |r.trace| ==> !r.trace[k].CopyTree?
  {
    var r := Install(url, file, home, templates, download, mkdir, copyable);
    if !copyable {
      var pre := r.trace[..|r.trace| - 1];
      forall k | 0 <= k < |r.trace|
        ensures !r.trace[k].CopyTree?
      {
        if k < |r.trace| - 1 {
          assert r.trace[k] == pre[k];
        }
      }
    }
  }

  /** The steps before unpacking: the download, then the mkdir, each when
      it is needed. */
  function Fetch(url: string, file: string, home: string, download: bool, mkdir: bool): seq<Action> {
    (if download then [Download(url, file)] else []) + (if mkdir then [MakeDirs(home)] else [])
  }

  lemma FetchSound(url: string, file: string, home: string, download: bool, mkdir: bool)
    ensures Fetches(Fetch(url, file, home, download, mkdir), url, file, home, download, mkdir)
  {
    var pre := Fetch(url, file, home, download, mkdir);
    if download && mkdir {
      assert pre == [Download(url, file), MakeDirs(home)];
      assert pre[0].Download? && pre[1].MakeDirs?;
    } else if download {
      assert pre == [Download(url, file)];
      assert pre[0].Download?;
    } else if mkdir {
      assert pre == [MakeDirs(home)];
      assert pre[0].MakeDirs?;
    } else {
      assert pre == [];
    }
  }

  const Named: set<string> := {"init", "status", "go", "deploy", "restart", "start"}

  /** The keys an action reads. */
  predicate Ready(action: string, ctx: Store) {
    && (action == "init" ==> InitKeys(ctx))
    && (action == "status" ==> Has(ctx, "tc", "home"))
    && (action == "go" ==> Has(ctx, "tc", "java_opts"))
    && (action == "deploy" ==> Has(ctx, "src", "working_copy_ce") && Has(ctx, "tc", "home"))
    && (action !in {"init", "status", "go", "deploy"} ==> CatalinaKeys(ctx))
  }

  /** Lines 18-38: `execute(action, args, ctx)`. Only `deploy` and `init`
      can fail, `init` exactly when the tomcat templates are missing;
      `status`, `restart` and `start` end by reporting the status. */
  function Execute(action: string, args: seq<string>, ctx: Store, world: World): (r: Run)
    requires Ready(action, ctx)
    ensures action !in {"deploy", "init"} ==> r.failure.None?
    ensures action == "init" ==> (r.failure.None? <==> TomcatTemplates(ctx) in world.present)
    ensures action == "init" && r.failure.Some? ==> r.failure == Some(NotADirectory(TomcatTemplates(ctx)))
    ensures action in {"status", "restart", "start"} ==>
      |r.trace| > 0 && r.trace[|r.trace| - 1] == Status(Get(ctx, "tc", "home"))
  {
    if action == "init" then Init(ctx, world)
    else if action == "status" then Done([Status(Get(ctx, "tc", "home"))])
    else if action == "go" then Done(Go(ctx))
    else if action == "deploy" then Deploy(args, ctx, world)
    else if action == "restart" then
      Done(Catalina("stop", ctx) + [Sleep(6)] + Catalina("start", ctx) + [Status(Get(ctx, "tc", "home"))])
    else if action == "start" then Done(Catalina("start", ctx) + [Status(Get(ctx, "tc", "home"))])
    else Done(Catalina(action, ctx))
  }

  /** The commands a trace runs, in order. */
  function Calls(trace: seq<Action>): seq<seq<string>> {
    if |trace| == 0 then [] else CallOf(trace[0]) + Calls(trace[1..])
  }

  function CallOf(a: Action): seq<seq<string>> {
    if a.Call? then [a.argv] else []
  }

  lemma {:induction false} CallsAppend(a: seq<Action>, b: seq<Action>)
    ensures Calls(a + b) == Calls(a) + Calls(b)
    decreases |a|
  {
    if |a| == 0 {
      assert a + b == b;
    } else {
      assert (a + b)[0] == a[0];
      assert (a + b)[1..] == a[1..] + b;
      CallsAppend(a[1..], b);
      calc {
        Calls(a + b);
        CallOf(a[0]) + Calls(a[1..] + b);
        CallOf(a[0]) + (Calls(a[1..]) + Calls(b));
        (CallOf(a[0]) + Calls(a[1..])) + Calls(b);
      }
    }
  }

  lemma CatalinaCalls(action: string, ctx: Store)
    requires CatalinaKeys(ctx)
    ensures Calls(Catalina(action, ctx)) == [[CatalinaScript(ctx), action]]
  {
    var r := Catalina(action, ctx);
    assert Calls(r[3..]) == [r[3].argv] by {
      assert r[3..][1..] == [];
    }
    assert Calls(r[2..]) == Calls(r[3..]) by {
      assert r[2..][1..] == r[3..];
    }
    assert Calls(r[1..]) == Calls(r[2..]) by {
      assert r[1..][1..] == r[2..];
    }
  }

  /** Whatever the action, the script runs with `CATALINA_HOME`,
      `CATALINA_OPTS` and `JAVA_OPTS` taken from the tomcat home, the
      catalina options and the JVM options. */
  lemma CatalinaEnvironment(action: string, ctx: Store)
    requires CatalinaKeys(ctx)
    ensures EnvOf(Catalina(action, ctx)) == map["CATALINA_HOME" := Get(ctx, "tc", "home"),
                                                "CATALINA_OPTS" := Get(ctx, "tc", "catalina_opts"),
                                                "JAVA_OPTS" := Get(ctx, "tc", "java_opts")]
  {
    var r := Catalina(action, ctx);
    var home, opts, java := Get(ctx, "tc", "home"), Get(ctx, "tc", "catalina_opts"), Get(ctx, "tc", "java_opts");
    assert r[0] == SetEnv("CATALINA_HOME", home) && r[1] == SetEnv("CATALINA_OPTS", opts);
    assert r[2] == SetEnv("JAVA_OPTS", java);
    assert EnvOf(r[..1]) == map["CATALINA_HOME" := home] by {
      assert r[..1][..0] == [];
    }
    assert EnvOf(r[..2]) == EnvOf(r[..1])["CATALINA_OPTS" := opts] by {
      assert r[..2][..1] == r[..1];
    }
    assert EnvOf(r[..3]) == EnvOf(r[..2])["JAVA_OPTS" := java] by {
      assert r[..3][..2] == r[..2];
    }
    assert EnvOf(r) == EnvOf(r[..3]);
  }

  /** `restart` runs the script with "stop", waits six seconds, runs it with
      "start" and reports the status; `start` runs "start" and reports. */
  lemma ExecuteRestart(args: seq<string>, ctx: Store, world: World)
    requires CatalinaKeys(ctx)
    ensures Ready("restart", ctx) && Ready("start", ctx)
    ensures Calls(Execute("restart", args, ctx, world).trace) == [[CatalinaScript(ctx), "stop"], [CatalinaScript(ctx), "start"]]
    ensures Execute("restart", args, ctx, world).trace[4] == Sleep(6)
    ensures Execute("restart", args, ctx, world).trace[|Execute("restart", args, ctx, world).trace| - 1] == Status(Get(ctx, "tc", "home"))
    ensures Calls(Execute("start", args, ctx, world).trace) == [[CatalinaScript(ctx), "start"]]
    ensures Execute("start", args, ctx, world).trace[|Execute("start", args, ctx, world).trace| - 1] == Status(Get(ctx, "tc", "home"))
  {
    var stop, start := Catalina("stop", ctx), Catalina("start", ctx);
    var status := [Status(Get(ctx, "tc", "home"))];
    CatalinaCalls("stop", ctx);
    CatalinaCalls("start", ctx);
    CallsAppend(stop + [Sleep(6)] + start, status);
    CallsAppend(stop + [Sleep(6)], start);
    CallsAppend(stop, [Sleep(6)]);
    CallsAppend(start, status);
    assert Calls([Sleep(6)]) == [];
    assert Calls(status) == [];
  }

  /** An action the handler does not name goes to the script verbatim. */
  lemma ExecuteOther(action: string, args: seq<string>, ctx: Store, world: World)
    requires action !in Named
    requires CatalinaKeys(ctx)
    ensures Ready(action, ctx)
    ensures Execute(action, args, ctx, world).failure.None?
    ensures Calls(Execute(action, args, ctx, world).trace) == [[CatalinaScript(ctx), action]]
  {
    CatalinaCalls(action, ctx);
  }
}
