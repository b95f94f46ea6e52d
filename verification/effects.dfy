/** What the resource handlers do to the outside world, recorded rather than
    performed: a handler returns the actions it would take, in order, and the
    exception that stopped it part-way, if any. */
module Effects {
  import opened Results

  datatype Action =
      /** `subprocess.call(argv)`. */
    | Call(argv: seq<string>)
      /** `subprocess.check_output(argv)`: the command whose output is read back. */
    | Capture(argv: seq<string>)
      /** A text file opened for writing and left holding `text`. */
    | Write(path: string, text: string)
      /** Text sent to standard output, exactly as written (`print` adds its own end). */
    | Print(text: string)
      /** `shutil.copy(source, target)`. */
    | Copy(source: string, target: string)
      /** `dir_util.copy_tree(source, target)`. */
    | CopyTree(source: string, target: string)
      /** `os.makedirs(path)`. */
    | MakeDirs(path: string)
      /** `urllib.request.urlretrieve(url, path)`. */
    | Download(url: string, path: string)
      /** `os.environ[name] = value`. */
    | SetEnv(name: string, value: string)
      /** `sleep(seconds)`. */
    | Sleep(seconds: nat)
      /** `_show_status(ctx)`, which scans the process table for the tomcat
          running from `home`. */
    | Status(home: string)

  /** The actions taken, and the error that ended the run early, if any. */
  datatype Run = Run(trace: seq<Action>, failure: Option<Error>)

  function Done(trace: seq<Action>): (r: Run)
    ensures r.failure.None?
    ensures r.trace == trace
  {
    Run(trace, None)
  }

  /** One step after another: the second runs only when the first did not fail. */
  function Then(first: Run, second: Run): (r: Run)
    ensures first.failure.Some? ==> r == first
    ensures first.failure.None? ==> r.trace == first.trace + second.trace && r.failure == second.failure
  {
    if first.failure.Some? then first else Run(first.trace + second.trace, second.failure)
  }

  /** The environment variables a trace leaves set: each name with the last
      value given to it. */
  function EnvOf(trace: seq<Action>): map<string, string>
    decreases |trace|
  {
    if |trace| == 0 then map[]
    else
      var last := trace[|trace| - 1];
      var before := EnvOf(trace[..|trace| - 1]);
      if last.SetEnv? then before[last.name := last.value] else before
  }
}
