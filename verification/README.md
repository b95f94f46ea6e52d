# jst core in Dafny

`jst` is a command-line helper for developers of JasperReports Server. It keeps
two svn working copies (the "ce" and "pro" editions) and a local tomcat. It
drives them through svn, ant, `catalina.sh` and a browser, all configured from
one layered configuration store.

This project models that store and the handlers that read it:

- **`Resolver`** models `_ensure_property` and `_ensure_all_properties`
  (`jst/resources/context.py`). The first is the rule that keeps a present,
  non-empty value and otherwise writes a non-empty default or fails. The
  second fills fourteen keys in three phases:
  - the `src` primitives;
  - the two svn+ssh URLs built from the primitives;
  - the working copies, the tomcat home, the distribution and the JVM
    options.
- **`Context`** models `load`:
  - seed `core.data_dir`;
  - make sure the user and the workspace properties files exist, copying a
    bundled template when one is missing;
  - read them in that order;
  - resolve.

  It also models `_show_context` and `execute`.
- **`LegacyContext`** models the earlier resolver of `jst/common/context.py`.
  It demands both files, overwrites six keys unconditionally, and has its own
  `show`.
- **`Src`**, **`Tc`** and **`Ant`** model the handlers
  `jst/resources/src.py`, `tc.py` and `ant.py`. A handler's effect on the
  outside world is a trace of `Effects.Action`s plus the error that stopped
  it, if any. This covers commands run, files written, environment variables
  set and text printed. The part of the world a handler consults is a
  `World` value:
  - which paths exist;
  - the lines of template files;
  - what a fresh svn checkout creates;
  - what a glob matches;
  - the output of `ant maven-effective-settings`.
- **`ConfigStore`** is `ConfigParser` as a map from section to option to
  value. **`Text`** holds the Python string operations the code uses.
  **`Results`** holds `Option`, `Result` and one `Error` constructor per
  exception the modelled code raises.

The properties files are modelled already parsed: the file system is a map
from each existing path to its parsed store, together with the set of
existing directories. Copying a file copies that store. `read` merges a
file into the store option by option, and the later file wins.

## Model

| member | source | states |
|---|---|---|
| ConfigStore.Item | jst/common/context.py:27-33 | `c[section][prop]` succeeds exactly when the key is there and yields its value. A missing section is reported before a missing option. |
| ConfigStore.Put | jst/resources/context.py:102-104 | After adding the section if needed and setting the option, the key holds the value. The sections are the old ones plus this one, and every other key reads as before. |
| ConfigStore.Read | jst/resources/context.py:58 | Reading a file adds its sections. Every option the file has overrides the store's; every other option is kept. |
| ConfigStore.ReadAllLastWins | jst/resources/context.py:21-22 | Reading files one after another gives each key the value of the last file that has it, or the store's own value when none has it. |
| ConfigStore.LastDefinedPair | jst/resources/context.py:21-22 | With two files: the second file's value, else the first's, else the seed's. |
| ConfigStore.ReadIdempotent | jst/resources/context.py:58 | Reading the same file twice equals reading it once. |
| ConfigStore.ReadKeeps | jst/resources/context.py:58 | Reading never removes a key. |
| Text.FindContains | jst/resources/tc.py:73 | The search from the start finds an occurrence exactly when the text contains the literal. |
| Text.DigitsRun | jst/resources/tc.py:73 | The greedy `\d*` capture is a prefix made only of digits. It ends at the end of the text or before a non-digit. |
| Text.DropPrefix | jst/resources/src.py:101 | Python's `line[12:]`: empty for short lines, otherwise the last `len - 12` characters. |
| Text.ReplaceAbsent | jst/resources/src.py:54-56 | `replace` leaves a line without the pattern unchanged. |
| Text.ReplaceAll | jst/resources/src.py:54-56 | `str.replace`: a replacement of the pattern's own length keeps the line's length, and replacing a pattern by itself leaves any line unchanged. `Text.ReplaceAtFirst` and `Text.ReplaceAbsent` pin the result on every line. |
| Text.ReplaceAtFirst | jst/resources/src.py:54-56 | `replace` puts the replacement in place of the first occurrence of the pattern, keeps the text before it, and goes on scanning right after the occurrence. |
| Text.ReplaceOnce | jst/resources/src.py:54-56 | A line with one occurrence of the pattern, and no other character that could start it, gets the replacement there and is otherwise unchanged. |
| Text.MissingLead | jst/resources/src.py:54-56 | A line without the pattern's first character does not contain the pattern, so `replace` leaves it alone. |
| Text.JoinSplit | jst/resources/src.py:85 | Splitting ant's output at line breaks loses nothing: joining the pieces with line breaks gives the output back. |
| Text.Split | jst/resources/src.py:85 | `split("\n")` gives at least one piece and no piece holds a line break. With `Text.JoinSplit` the pieces are exactly the lines of the text. |
| Text.Basename | jst/resources/tc.py:43 | `basename` is a suffix of the path without `/`. It is the whole path or preceded by a `/`. |
| Text.Dirname | jst/resources/context.py:50 | The directory a path names its file in: a path with a `/` is that directory, a `/` and the base name. A path without one has the empty directory. |
| Text.DirnameJoin | jst/resources/context.py:31 | A directory joined with a `/`-free file name gives that directory back. |
| Resolver.EnsureProperty | jst/resources/context.py:94-106 | A non-empty value is kept and the store is unchanged. Otherwise a non-empty default is written, adding its section and changing no other key. Otherwise the call fails with the "is mandatory" error. |
| Resolver.EnsurePropertyIdempotent | jst/resources/context.py:94-106 | A successful call repeated with the same arguments changes nothing further. |
| Resolver.EnsureEachFrame | jst/resources/context.py:65-89 | A run of ensure calls leaves every key it does not name as it was. |
| Resolver.EnsureEach | jst/resources/context.py:100 | A key that already holds a non-empty value keeps it through any run of ensure calls. |
| Resolver.EnsureEachResolves | jst/resources/context.py:65-89 | In a run of ensure calls on distinct keys, each named key ends up with its earlier non-empty value or its default. |
| Resolver.EnsureEachSettled | jst/resources/context.py:100 | A run of ensure calls whose keys are all set returns the store unchanged. |
| Resolver.EnsureEachSections | jst/resources/context.py:102-103 | A run of ensure calls adds exactly the sections it names. |
| Resolver.PrimitivesPhase | jst/resources/context.py:65-73 | The six primitive defaults are non-empty and distinct. Afterwards all six are present, so lines 75-76 cannot raise `KeyError`. `core` is untouched. |
| Resolver.UrlPhase | jst/resources/context.py:75-78 | The two URL defaults are non-empty and distinct, and ensuring them leaves `core` alone. |
| Resolver.PathPhase | jst/resources/context.py:80-89 | None of the six path and JVM defaults is empty, so that phase cannot fail. |
| Resolver.EnsureAllProperties | jst/resources/context.py:62-89 | A key that holds a non-empty value before resolution keeps it: file values beat built-in defaults. |
| Resolver.EnsureAllUnlisted | jst/resources/context.py:62-89 | A key outside the fourteen listed is never touched. |
| Resolver.EnsureAllPrimitive | jst/resources/context.py:65-73 | Each `src` primitive ends up as its earlier non-empty value, else its hardcoded default. |
| Resolver.EnsureAllPath | jst/resources/context.py:80-89 | Each working-copy, tomcat and JVM key ends up as its earlier non-empty value, else its default. Working copies and home default to under the current directory; the distribution defaults to under the data directory. |
| Resolver.PrimitivesFinal | jst/resources/context.py:65-78 | The primitives read the same at the end as right after their phase, so the URLs are built from the final primitive values. |
| Resolver.UrlDefaultsAgree | jst/resources/context.py:75-76 | Two stores that agree on the six primitives derive the same two URLs. |
| Resolver.EnsureAllUrl | jst/resources/context.py:75-78 | Each URL ends up as its earlier non-empty value. Otherwise it is `svn+ssh://user@server/repo/branch`, built from the final user, server, repository and branch of its own edition. |
| Resolver.UrlProIndependent | jst/resources/context.py:75-78 | The resolved `url_pro` depends only on user, server, `repo_pro`, `branch_pro` and `url_pro`, never on the ce keys. |
| Resolver.EnsureAllResolved | jst/resources/context.py:62-89 | From any store that has a data directory, resolution gives every listed key a non-empty value. |
| Resolver.EnsureAllSettled | jst/resources/context.py:62-89 | A store whose fourteen listed keys are all set is returned unchanged. |
| Resolver.EnsureAllIdempotent | jst/resources/context.py:62-89 | Resolving twice equals resolving once. |
| Resolver.EnsureAllSections | jst/resources/context.py:62-89 | Resolution adds the `src` and `tc` sections and no other. |
| Context.EnsureFilePresent | jst/resources/context.py:48-50 | A present file is left untouched. A missing file becomes a copy of the template. The call fails when the file is missing and either the template or the file's directory is missing too. A missing template is reported first, as `shutil.copy` opens it before the target. |
| Context.LoadProperties | jst/resources/context.py:54-58 | A missing file fails with "Cannot find properties file". An existing one is read over the store, its options winning. |
| Context.Seed | jst/resources/context.py:19 | The starting store holds `core.data_dir = <home>/.jst` and nothing else. |
| Context.UserFile | jst/resources/context.py:31 | The user file is `<home>/.jst/jst.properties`, in the directory `<home>/.jst`. |
| Context.WorkspaceFile | jst/resources/context.py:40 | The workspace file lies in the current directory. |
| Context.PropertiesIn | jst/resources/context.py:30-44 | The properties file of a directory is `<dir>/jst.properties`, and that directory is where it lies. |
| Context.PrepareFiles | jst/resources/context.py:30-50 | The two ensure-file steps add at most the user and the workspace file and change no existing file. |
| Context.Load | jst/resources/context.py:15-26 | `load` fails only with a missing-file error. On success every key `_ensure_all_properties` lists holds a non-empty value. |
| Context.LoadPrepares | jst/resources/context.py:15-26 | `load` fails exactly when preparing the files fails, with the same error. On success it leaves the prepared files. |
| Context.LoadSteps | jst/resources/context.py:15-26 | `load` step by step: the user file is made sure of first, then the workspace file, and the store read from both is resolved. |
| Context.LoadFiles | jst/resources/context.py:15-50 | `load` creates only the two properties files and never overwrites an existing file. |
| Context.LoadFailure | jst/resources/context.py:30-50 | `load` fails exactly when a file is missing and so is its template or its directory. The user file is checked first and its failure hides the workspace's. Every failure names the missing template or file. |
| Context.LoadLayers | jst/resources/context.py:15-26 | The resolved store is the seed with the user file and then the workspace file read over it, as they are on disk afterwards. |
| Context.LoadKeepsFileValue | jst/resources/context.py:15-26 | A key the files give a non-empty value keeps that value. |
| Context.LoadUnlisted | jst/resources/context.py:15-26 | A key the resolver does not list reads as the files left it, even when empty. |
| Context.LoadPrimitive | jst/resources/context.py:65-73 | Each primitive after `load` is the files' value when non-empty, else the default. An empty workspace value therefore hides a user-file value. |
| Context.LoadPrecedence | jst/resources/context.py:21-22 | A non-empty workspace value wins. A key only the user file sets keeps the user's value. |
| Context.LoadRerun | jst/resources/context.py:15-26 | Loading again on the files the first load left gives the same files and the same store. |
| Context.ShowContext | jst/resources/context.py:110-121 | Eight lines, in the fixed order, each the label followed by the key's value. |
| Context.ResolvedShowable | jst/resources/context.py:110-121 | A resolved store has every key `_show_context` indexes, so it cannot raise `KeyError`. |
| Context.ShowAfterLoad | jst/resources/context.py:110-121 | After `load`, every printed line carries a non-empty value after its label. |
| Context.Execute | jst/resources/context.py:125-127 | "show" prints the eight labelled values; any other action prints nothing. |
| LegacyContext.ReadFresh | jst/common/context.py:21-26 | A fresh parser that reads a file holds exactly the file's contents. |
| LegacyContext.LoadMissingFiles | jst/common/context.py:11-19 | A missing global file is reported first, then a missing workspace file, each by its path. |
| LegacyContext.DeriveUrls | jst/common/context.py:27-28 | The URL step succeeds exactly when the global user, both hosts and the workspace's two branches are present. Otherwise it fails on a missing section or key. |
| LegacyContext.DeriveUrlsFrame | jst/common/context.py:27-28 | The URL step changes only the two URLs and adds no section. |
| LegacyContext.DerivePaths | jst/common/context.py:30-34 | The path step succeeds exactly when the global distribution and a `tc` section exist, and otherwise names the missing one. |
| LegacyContext.DerivePathsFrame | jst/common/context.py:30-34 | The path step changes only the six written keys. |
| LegacyContext.Load | jst/common/context.py:11-36 | `load` succeeds exactly when both files exist, the global file has user, both hosts and the distribution, and the workspace has both branches and a `tc` section. |
| LegacyContext.LoadPassThrough | jst/common/context.py:25-36 | Every workspace key other than the six written passes through unchanged, and no section is added. |
| LegacyContext.LoadWritten | jst/common/context.py:27-34 | The six written keys, whatever the workspace said. The URLs are `svn+ssh://user@host/branch`, the working copies and home lie under the current directory, and the distribution comes from the global file. |
| LegacyContext.DeriveUrlsWritten | jst/common/context.py:27-28 | The two URLs are built from the global user and host and the workspace branch. |
| LegacyContext.DerivePathsWritten | jst/common/context.py:30-34 | The four path keys are written and the URLs stay as they were. |
| LegacyContext.ShowRows | jst/common/context.py:40-51 | Each printed line is a label and its value, in order. Printing stops at the first missing section or key, with that `KeyError`, and it completes exactly when no key is missing. |
| LegacyContext.Show | jst/common/context.py:40-51 | In the order of the later `_show_context`, each line is its label followed by the key's value. All eight lines are printed exactly when every key is there. Otherwise the lines before the first missing key are printed, then its `KeyError` is raised. |
| LegacyContext.ShowOnceWritten | jst/common/context.py:40-51 | With the six keys `load` writes present, `show` prints six lines and raises `KeyError` for `tc.catalina_opts` when that key is missing. It prints seven lines and raises for `tc.java_opts` when only that key is missing. |
| LegacyContext.LoadShowable | jst/common/context.py:11-51 | After `load`, `show` completes exactly when the workspace file gave both JVM option keys; the legacy resolver never defaults them. Without `tc.catalina_opts` it prints six lines, then raises `KeyError`. |
| LegacyContext.ShowMatchesLater | jst/common/context.py:40-51 | When every key is there, the legacy `show` prints the same eight lines as the later `_show_context`. |
| Ant.SkipTestsArg | jst/resources/ant.py:16-19 | The skip flag exactly when the setting is the string "true", and an empty argument otherwise. |
| Ant.Build | jst/resources/ant.py:9-27 | The ant argv: `ant <skip> -buildfile <ce>/buildomatic/build.xml`, where `<skip>` is the flag `src.skip_tests` selects. With a non-empty `--dir` the target is `build-dir-<flavor>` with `-DdirName=<dir>`, and a missing flavor is a `TypeError`. Otherwise the target is `build-src-all`. |
| Ant.BuildPrefix | jst/resources/ant.py:15-27 | Any two successful builds of one store share the first four words; only the target differs. |
| Src.SvnCommand | jst/resources/src.py:110-120 | Exactly the five table actions are accepted. Each gives `svn <action> [extra] <working copy>`; only checkout names the URL. Anything else raises "Unknown action". |
| Src.SvnStep | jst/resources/src.py:110-122 | One call for a known action. Nothing runs and the error is raised for an unknown one. |
| Src.BuildArgv | jst/resources/src.py:60-76 | No arguments build everything. Two or more build `build-dir-<edition>` for the directory. A lone argument raises `IndexError`. |
| Src.BuildMatchesAnt | jst/resources/src.py:60-76 | `_build` and `ant.build` give the same command line, the positional edition and directory playing `--flavor` and `--dir`. |
| Src.BuildStep | jst/resources/src.py:60-76 | The build runs one ant call, or nothing when the second argument is missing. |
| Src.MasterProperties | jst/resources/src.py:53-57 | One output line per template line, in order. Each is the template line with `%tc.home%`, then `%src.working_copy_ce%`, then `%src.working_copy_pro%` replaced; `Src.SubstituteMarked` and `Src.SubstituteUnmarked` state what that gives. |
| Src.SubstituteUnmarked | jst/resources/src.py:54-56 | A line without any placeholder is written as it was. |
| Src.OtherMarkAbsent | jst/resources/src.py:54-56 | A line holding one `%name%` placeholder and no other `%` holds no other placeholder, so the other two replacements do not touch it. |
| Src.SubstituteMarked | jst/resources/src.py:54-56 | A line with one placeholder, and otherwise no `%`, gets that placeholder's value in its place: `tc.home`, `src.working_copy_ce` or `src.working_copy_pro`. The rest of the line is unchanged, as long as the values hold no `%`. |
| Src.SubstituteByMarks | jst/resources/src.py:54-56 | Substituting each placeholder by itself gives back the template line. |
| Src.MasterPropertiesUnmarked | jst/resources/src.py:53-57 | A template without placeholders is copied unchanged. |
| Src.WriteMasterProperties | jst/resources/src.py:48-58 | The output file is opened first. A missing template therefore leaves it empty and fails. Otherwise the template, line by line with the three placeholders substituted, is written to `default_master.properties` and echoed. |
| Src.Extract | jst/resources/src.py:90-104 | The loop with its started flag and early exit computes the stripped text of the window: from the first line with the XML header through the first line with the closing tag. |
| Src.ExtractSettings | jst/resources/src.py:85-104 | The extractor with the header and closing-tag markers of ant's echo yields the settings document of the output lines. |
| Src.SettingsEmpty | jst/resources/src.py:90-104 | No header, or a closing tag before the header, gives an empty document. |
| Src.WriteMavenSettings | jst/resources/src.py:80-107 | `jst.xml` is copied in only when missing, and the copy fails when its template is missing too. Then ant's effective settings are captured and the extracted document is written to `<ctx.home>/maven-settings.xml`. |
| Src.CleanCheckout | jst/resources/src.py:40-44 | An existing working copy is removed before a fresh checkout. |
| Src.AfterCheckout | jst/resources/src.py:40-44 | After the removal and the checkout, a path inside the working copy exists exactly when it is the working copy or the checkout creates it. Every other path is as before. |
| Src.Init | jst/resources/src.py:26-36 | `init` always starts with the clean checkout of ce and then of pro, the second seeing the world the first left. It fails exactly when the master-properties template is missing, or when `jst.xml` is missing from the refreshed ce tree together with its template. The failure names that template. |
| Src.ExecuteRebuildIsBuild | jst/resources/src.py:18-19 | "rebuild" does exactly what "build" does. |
| Src.ExecuteSvn | jst/resources/src.py:20-22 | Any other action is the svn action on ce then on pro, or the "Unknown action" error before anything runs. |
| Src.InitOrder | jst/resources/src.py:26-36 | When the master template exists and `jst.xml` is there after the checkouts, `init` does both clean checkouts, writes and echoes the master properties, runs the full build, then captures and writes the maven settings. |
| Src.InitStopsWithoutTemplate | jst/resources/src.py:26-36 | A missing master-properties template stops `init` after the checkouts and the emptied output file; nothing is built. |
| Src.JstGone | jst/resources/src.py:40-44 | `jst.xml` lies inside the ce working copy, so it is gone after the checkouts unless the checkout creates it. |
| Src.InitRestoresJstXml | jst/resources/src.py:80-84 | Unless the checkout brings `jst.xml` back, `init` copies it in again from the templates, or fails naming the template when that is missing too. |
| Src.Execute | jst/resources/src.py:11-22 | A build fails only on a lone argument. Any action other than init and the builds fails only when it is not an svn action. |
| Tc.DigitsAfter | jst/resources/tc.py:73-75 | `-Dport\.http=(\d*)` matches exactly when the flag occurs. The group is the digit run right after the first occurrence of the flag, ending at the text's end or a non-digit. |
| Tc.DebugFromUnbroken | jst/resources/tc.py:81 | On an argument without line breaks, the `-agentlib:.*,address=` search is decided by the first `-agentlib:` and the `,address=` markers after it. |
| Tc.DebugFrom | jst/resources/tc.py:81 | A match of `-agentlib:.*,address=` ends at an occurrence of `,address=`. |
| Tc.DebugFromSound | jst/resources/tc.py:81 | The matched `,address=` follows a `-agentlib:` at or after the start position and lies on that marker's line. |
| Tc.Capture | jst/resources/tc.py:83 | The captured group exists exactly when there is a match, and is all digits. |
| Tc.MatchGreedy | jst/resources/tc.py:81 | On an argument without line breaks, the greedy `.*` settles on the last `,address=` of the argument. It matches only when that marker starts after the first `-agentlib:`. |
| Tc.DebugPortGreedy | jst/resources/tc.py:79-83 | The debug port of an argument without line breaks is the digit run after its last `,address=`. It exists exactly when that marker follows the first `-agentlib:`. |
| Tc.FirstMatch | jst/resources/tc.py:71-75 | The result comes from the first argument that matches, and is `None` exactly when no argument matches. |
| Tc.GetHttpPort | jst/resources/tc.py:71-75 | A command line has no HTTP port exactly when no argument names `-Dport.http=`. Otherwise the port is what the pattern captures in the first argument naming it, a run of digits. |
| Tc.GetDebugPort | jst/resources/tc.py:79-83 | The debug port is what the debug pattern captures in the first argument it matches, a run of digits, and is missing exactly when it matches none. |
| Tc.StatusLine | jst/resources/tc.py:67 | A process with neither port prints `port.http=None, port.jdwp=None`. |
| Tc.Go | jst/resources/tc.py:87-92 | `go` does something exactly when the JVM options name an HTTP port. It then opens one browser on `http://localhost:<port>/jasperserver-pro`, with the port as `_get_http_port` reads it; otherwise it does nothing. |
| Tc.DigitsAfterLeading | jst/resources/tc.py:73 | An argument of flag, digit run and non-digit tail yields exactly that run. |
| Tc.JavaOptsPort | jst/resources/context.py:88 | The default JVM options give back whatever digit run was put in as the HTTP port. |
| Tc.GoDefault | jst/resources/tc.py:87-92 | With the default JVM options `go` opens `http://localhost:8080/jasperserver-pro`. |
| Tc.Catalina | jst/resources/tc.py:114-121 | `CATALINA_HOME`, `CATALINA_OPTS` and `JAVA_OPTS` are set, in that order, from the tomcat home, the catalina options and the JVM options. Then `catalina.sh` runs with the action as its only argument. |
| Tc.CatalinaCalls | jst/resources/tc.py:114-121 | A catalina action runs exactly one command, `<home>/bin/catalina.sh <action>`. |
| Tc.CatalinaEnvironment | jst/resources/tc.py:117-119 | Whatever the action, the environment the script runs with maps the three variables to the tomcat home, the catalina options and the JVM options. |
| Tc.Deploy | jst/resources/tc.py:96-110 | No arguments run ant's deploy target. An unknown edition raises `KeyError` and a missing directory raises `IndexError`. Otherwise the first matching jar is copied into the web application and printed, or "nothing to copy" is printed. |
| Tc.DistributionFile | jst/resources/tc.py:43 | The cached distribution is `<cache>/` followed by the last `/`-free segment of the URL. That segment is the whole URL or follows a `/`. |
| Tc.Init | jst/resources/tc.py:42-53 | A download of the URL into the cache file happens exactly when that file is missing. A mkdir of the home happens exactly when the home is missing, after any download. Nothing else comes before the unpacking into the home. Then the `tomcat` templates are copied over it, or, when that directory is missing, `init` fails with `copy_tree`'s "not a directory" error. |
| Tc.InitWithoutTemplates | jst/resources/tc.py:42-53 | Without the `tomcat` templates, `init` fails with that error and copies nothing into the home. |
| Tc.FetchSound | jst/resources/tc.py:43-47 | The steps before unpacking hold a download of the URL into the archive exactly when one is needed, and a mkdir of the home exactly when one is needed. The download comes first and there is nothing else. |
| Tc.ExecuteRestart | jst/resources/tc.py:29-36 | `restart` runs the script with "stop", sleeps six seconds, runs "start" and reports the status. `start` runs "start" and reports. |
| Tc.ExecuteOther | jst/resources/tc.py:37-38 | An action the handler does not name goes to `catalina.sh` verbatim and cannot fail. |
| Tc.Execute | jst/resources/tc.py:18-53 | Only `deploy` and `init` can fail, `init` exactly when the `tomcat` templates directory is missing. `status`, `restart` and `start` end by reporting the status. |

## Left out

- Running anything. Commands, file writes, copies, downloads, environment changes and printing are recorded in a trace, never performed. Their own failures are not modelled: a non-zero exit, a failing `tar` or a failed download. The exceptions are copying a missing file (`shutil.copy`) and copying a missing directory tree (`dir_util.copy_tree` in `Tc.Init`).
- The process scan of `_show_status` (`psutil`, tc.py:57-66). `status` is recorded as one `Status(home)` action. Only the line it prints per process is modelled, as `Tc.StatusLine`.
- Tc.Init: whether the `tomcat` templates directory exists is decided by the world before `init` runs. The model does not take the home that `init` creates, or the files `tar` unpacks, to create it, and a file at that path counts as the directory.
- Tc.StatusLine: only the line of a process that names neither port is stated. The ports it prints are characterized by `Tc.GetHttpPort`, `Tc.GetDebugPort` and `Tc.DebugPortGreedy`.
- `ConfigParser` itself: parsing of files, interpolation, lower-casing of option names, and the `DEFAULT` section. Properties files enter the model already parsed.
- Files a handler creates are not tracked afterwards: the downloaded distribution, the copied `jst.xml`, the written properties. No later step of the source looks them up again. The one change a later step does look at is the working copies that `init` removes and checks out again (`Src.AfterCheckout`).
- Src.AfterCheckout: the text files `init` reads keep their contents across the checkouts. The master-properties template lies under the data directory, outside the working copies. A single `checkout` set stands for what both fresh checkouts create.
- Src.WriteMasterProperties and `Src.WriteMavenSettings` take the directories they write into to exist: the buildomatic directory of the fresh ce checkout, and `ctx.home`. `open` would raise `FileNotFoundError` otherwise.
- Tc.DebugFrom: its own contract says only where the match ends. `Tc.DebugFromSound`, `Tc.DebugFromUnbroken` and `Tc.MatchGreedy` state the rest.
- `Tc.DebugPortGreedy`: the closed-form characterization holds only for arguments without a line break, because `.` does not cross one. `Tc.DebugFrom` models the search for every argument.
- `Text.DigitsRun`: `\d` is taken to be the ASCII digits. Python 3's `\d` also matches other Unicode decimal digits.
- `Src.Execute`, `Tc.Execute` and `Ant.Build` require the store to hold the keys they read. The source raises `KeyError` when one is missing; the model treats that as outside the handler's contract. The resolver guarantees every key it lists. Keys it never defaults are preconditions: `src.skip_tests`, `core.templates`, `core.download_cache`, `tc.distribution_url` and `ctx.home`.
- `Context.Load` ignores its `args`: there is no command-line override of `src.skip_tests` in `load`. It creates no directories.
- `Context.LoadFiles` and `Context.EnsureFilePresent` treat a path that exists as a directory like a file. `os.path.isfile` would see it as missing and `shutil.copy` would then copy into it.
- Context.EnsureFilePresent: the directory of a file is the text before its last `/` (`Text.Dirname`). Symbolic links and `..` are not resolved.
- The dispatcher `jst/main.py` and the svn helper `jst/resources/svn.py` are not part of this model.
