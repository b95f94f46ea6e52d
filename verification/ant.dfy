/** `jst/resources/ant.py`: the ant command line for building the source
    trees, chosen from the `--dir` and `--flavor` options. */
module Ant {
  import opened Results
  import opened ConfigStore

  const SkipTestsFlag: string := "-DSKIP_TEST_ARG=skipTests"

  /** The second word of every ant command line: the skip flag exactly when the
      setting is the string "true", and an empty argument otherwise. */
  function SkipTestsArg(skipTests: string): (r: string)
    ensures r == SkipTestsFlag <==> skipTests == "true"
    ensures r == "" <==> skipTests != "true"
  {
    if skipTests == "true" then SkipTestsFlag else ""
  }

  /** Python's truth value of `options.get("--dir")`. */
  predicate Truthy(v: Option<string>) {
    v.Some? && v.value != ""
  }

  /** The build file, inside the ce working copy. */
  function BuildFile(ctx: Store): string
    requires Has(ctx, "src", "working_copy_ce")
  {
    Get(ctx, "src", "working_copy_ce") + "/buildomatic/build.xml"
  }

  /** `build(ctx, options)`: the argv it runs. With a directory the target is
      the flavor's directory build, and a missing flavor makes the string
      concatenation fail; without one the whole source tree is built. */
  function Build(ctx: Store, dir: Option<string>, flavor: Option<string>): (r: Result<seq<string>>)
    requires Has(ctx, "src", "working_copy_ce") && Has(ctx, "src", "skip_tests")
    ensures r.Ok? <==> !Truthy(dir) || flavor.Some?
    ensures r.Err? ==> r.error == NoneOption("--flavor")
    ensures r.Ok? ==> |r.value| >= 5 && r.value[0] == "ant" && r.value[2] == "-buildfile"
    ensures r.Ok? ==> (r.value[1] == SkipTestsFlag <==> Get(ctx, "src", "skip_tests") == "true")
    ensures r.Ok? ==> r.value[1] == SkipTestsArg(Get(ctx, "src", "skip_tests"))
    ensures r.Ok? ==> r.value[3] == Get(ctx, "src", "working_copy_ce") + "/buildomatic/build.xml"
    ensures r.Ok? && Truthy(dir) ==>
      r.value[4..] == ["build-dir-" + flavor.value, "-DdirName=" + dir.value]
    ensures !Truthy(dir) ==> r.Ok? && r.value[4..] == ["build-src-all"]
  {
    var buildomatic := Get(ctx, "src", "working_copy_ce") + "/buildomatic";
    var skip := SkipTestsArg(Get(ctx, "src", "skip_tests"));
    if Truthy(dir) then
      if flavor.None? then Err(NoneOption("--flavor"))
      else Ok(["ant", skip, "-buildfile", buildomatic + "/build.xml", "build-dir-" + flavor.value, "-DdirName=" + dir.value])
    else Ok(["ant", skip, "-buildfile", buildomatic + "/build.xml", "build-src-all"])
  }

  /** The build file and the skip argument do not depend on the options: two
      builds of the same store differ only from the fifth word on. */
  lemma BuildPrefix(ctx: Store, dir1: Option<string>, flavor1: Option<string>,
                    dir2: Option<string>, flavor2: Option<string>)
    requires Has(ctx, "src", "working_copy_ce") && Has(ctx, "src", "skip_tests")
    requires Build(ctx, dir1, flavor1).Ok? && Build(ctx, dir2, flavor2).Ok?
    ensures Build(ctx, dir1, flavor1).value[..4] == Build(ctx, dir2, flavor2).value[..4]
    ensures Build(ctx, dir1, flavor1).value[..4] ==
      ["ant", SkipTestsArg(Get(ctx, "src", "skip_tests")), "-buildfile", BuildFile(ctx)]
  {
  }
}
