/** The terraform-in-bazel helper `tf.py`: how a project name becomes a
    bazel package, which `bzl run` commands `apply`, `ucg` and `all-ucgs`
    issue, and in what order. The file system is the set of paths that
    exist; a missing project stops the run with exit code 127. */
module Tf {
  import opened Wrappers
  import opened Text

  // ---------------------------------------------------------------------
  // Labels and commands

  predicate Rooted(pkg: string) {
    StartsWith(pkg, "//") || StartsWith(pkg, "@")
  }

  /** The bazel label of a module: a module that is neither absolute
      (`//`) nor external (`@`) is made absolute. */
  function Label(pkg: string): (r: string)
    ensures Rooted(r)
    ensures EndsWith(r, pkg)
    ensures Rooted(pkg) ==> r == pkg
    ensures !Rooted(pkg) ==> StartsWith(r, "//") && |r| == |pkg| + 2
  {
    if Rooted(pkg) then pkg else "//" + pkg
  }

  lemma LabelIdempotent(pkg: string)
    ensures Label(Label(pkg)) == Label(pkg)
  {
  }

  /** The command `bzl` runs for a module, a target and extra arguments. */
  function BzlCommand(pkg: string, target: string, args: seq<string>): (r: seq<string>)
    ensures |r| == |args| + 4
    ensures r[..2] == ["bzl", "run"] && r[3] == "--" && r[4..] == args
  {
    ["bzl", "run", Label(pkg) + ":" + target, "--"] + args
  }

  /** The third word of the command names the module's label and the target,
      separated by the first colon after the package when the module has none. */
  lemma BzlCommandTarget(pkg: string, target: string, args: seq<string>)
    requires ':' !in pkg
    ensures var w := BzlCommand(pkg, target, args)[2];
            SplitOn(w, ':') == [Label(pkg)] + SplitOn(target, ':')
  {
    var l := Label(pkg);
    assert ':' !in l by {
      if !Rooted(pkg) {
        assert l == "//" + pkg;
        forall k | 0 <= k < |l| ensures l[k] != ':' {
          if k >= 2 { assert l[k] == pkg[k - 2]; }
        }
      }
    }
    SplitOnAfter(l, ':', target);
  }

  // ---------------------------------------------------------------------
  // Finding a project

  /** The error `find_project` raises; its exit status is 127. */
  datatype ProjectNotFound = ProjectNotFound(name: string, environment: string)

  function ExitCode(e: ProjectNotFound): int {
    127
  }

  function Message(e: ProjectNotFound): (m: string)
    ensures StartsWith(m, "Could not find project " + e.name)
    ensures EndsWith(m, " for environment " + e.environment)
  {
    var head := "Could not find project " + e.name;
    var tail := " for environment " + e.environment;
    assert (head + tail)[..|head|] == head;
    assert (head + tail)[|head + tail| - |tail|..] == tail;
    head + tail
  }

  /** Every project name carries the `discord-` prefix. */
  function ProjectName(name: string): (r: string)
    ensures StartsWith(r, "discord-")
    ensures EndsWith(r, name)
    ensures StartsWith(name, "discord-") ==> r == name
  {
    if StartsWith(name, "discord-") then name else "discord-" + name
  }

  lemma ProjectNameIdempotent(name: string)
    ensures ProjectName(ProjectName(name)) == ProjectName(name)
  {
  }

  /** The two places a project may live. */
  function DefaultDir(name: string, env: string): string {
    "discord-devops/terraform/" + name + "/" + env
  }

  function DataDir(name: string, env: string): string {
    "discord_devops/terraform/data/" + name + "/" + env
  }

  /** A project directory counts when its BUILD file exists; `files` holds
      the paths that are files. */
  predicate HasBuild(dir: string, files: set<string>) {
    PathJoin(dir, "BUILD") in files
  }

  function FindProject(name: string, env: string, files: set<string>): (r: Result<string, ProjectNotFound>)
    ensures r.Ok? ==> HasBuild(r.value, files)
    ensures r.Err? ==> r.error == ProjectNotFound(ProjectName(name), env)
  {
    var n := ProjectName(name);
    if HasBuild(DefaultDir(n, env), files) then Ok(DefaultDir(n, env))
    else if HasBuild(DataDir(n, env), files) then Ok(DataDir(n, env))
    else Err(ProjectNotFound(n, env))
  }

  /** The lookup prefers the default location, falls back to the data
      location, and fails exactly when neither has a BUILD file; the error
      names the normalised project. */
  lemma FindProjectCases(name: string, env: string, files: set<string>)
    ensures var n := ProjectName(name);
            var r := FindProject(name, env, files);
            (HasBuild(DefaultDir(n, env), files) ==> r == Ok(DefaultDir(n, env)))
            && (!HasBuild(DefaultDir(n, env), files) && HasBuild(DataDir(n, env), files)
                ==> r == Ok(DataDir(n, env)))
            && (r.Err? <==> !HasBuild(DefaultDir(n, env), files) && !HasBuild(DataDir(n, env), files))
            && (r.Err? ==> r.error == ProjectNotFound(n, env) && ExitCode(r.error) == 127)
            && (r.Ok? ==> HasBuild(r.value, files))
  {
  }

  /** A name given with or without its prefix finds the same project. */
  lemma FindProjectIgnoresPrefix(name: string, env: string, files: set<string>)
    ensures FindProject(ProjectName(name), env, files) == FindProject(name, env, files)
  {
    ProjectNameIdempotent(name);
  }

  // ---------------------------------------------------------------------
  // apply, ucg and all-ucgs

  /** The arguments of the init step, if there is one. */
  function InitArgs(init: bool, upgrade: bool): (r: Option<seq<string>>)
  {
    if !init then None
    else if upgrade then Some(["init", "-upgrade"])
    else Some(["init"])
  }

  /** The commands `apply` issues: an optional init, then apply. The
      environment is also the bazel target. */
  function Apply(project: string, env: string, init: bool, upgrade: bool, files: set<string>): (r: Result<seq<seq<string>>, ProjectNotFound>)
    ensures r.Ok? <==> FindProject(project, env, files).Ok?
  {
    match FindProject(project, env, files)
    case Err(e) => Err(e)
    case Ok(pkg) =>
      match InitArgs(init, upgrade)
      case None => Ok([BzlCommand(pkg, env, ["apply"])])
      case Some(args) => Ok([BzlCommand(pkg, env, args), BzlCommand(pkg, env, ["apply"])])
  }

  /** What `apply` runs: `apply` is always last, preceded by `init -upgrade`,
      by `init`, or by nothing, as the two flags say; every command targets
      the environment in the project's package. */
  lemma ApplySteps(project: string, env: string, init: bool, upgrade: bool, files: set<string>)
    ensures var r := Apply(project, env, init, upgrade, files);
            var f := FindProject(project, env, files);
            r.Err? <==> f.Err?
    ensures var r := Apply(project, env, init, upgrade, files);
            var f := FindProject(project, env, files);
            r.Ok? ==>
              var cs := r.value;
              |cs| == (if init then 2 else 1)
              && cs[|cs| - 1] == BzlCommand(f.value, env, ["apply"])
              && (init && upgrade ==> cs[0] == BzlCommand(f.value, env, ["init", "-upgrade"]))
              && (init && !upgrade ==> cs[0] == BzlCommand(f.value, env, ["init"]))
              && (forall k :: 0 <= k < |cs| ==> cs[k][2] == Label(f.value) + ":" + env)
  {
  }

  /** The project a data user-group applies. */
  function UcgProject(ucg: string): (r: string)
    ensures StartsWith(r, "discord-data-") && EndsWith(r, ucg)
  {
    var r := "discord-data-" + ucg;
    assert r[..13] == "discord-data-";
    r
  }

  /** The user-group project already carries the `discord-` prefix, so the
      lookup uses it as it is. */
  lemma UcgProjectKeepsName(ucg: string)
    ensures ProjectName(UcgProject(ucg)) == UcgProject(ucg)
  {
    assert UcgProject(ucg)[..8] == "discord-";
  }

  /** The data user-groups, in the order `all-ucgs` visits them. */
  const AllUcgs: seq<string> := ["analytics", "modeling", "reporting", "tns"]

  /** A sequence of commands and, if the sequence was cut short, the
      error that cut it. */
  datatype Run = Run(commands: seq<seq<string>>, error: Option<ProjectNotFound>)

  /** `ucg` for each user-group in turn; the first project that cannot be
      found ends the run, after the commands of the ones before it. */
  function ApplyUcgs(ucgs: seq<string>, env: string, init: bool, upgrade: bool, files: set<string>): (r: Run)
    ensures |r.commands| <= 2 * |ucgs|
    ensures r.error.Some? ==> ucgs != [] && r.error.value.environment == env
    decreases |ucgs|
  {
    if ucgs == [] then Run([], None)
    else
      match Apply(UcgProject(ucgs[0]), env, init, upgrade, files)
      case Err(e) => Run([], Some(e))
      case Ok(cs) =>
        var rest := ApplyUcgs(ucgs[1..], env, init, upgrade, files);
        Run(cs + rest.commands, rest.error)
  }

  function AllUcgsRun(env: string, init: bool, upgrade: bool, files: set<string>): Run {
    ApplyUcgs(AllUcgs, env, init, upgrade, files)
  }

  predicate Found(ucg: string, env: string, files: set<string>) {
    FindProject(UcgProject(ucg), env, files).Ok?
  }

  /** The commands `ucg` issues for a user-group that is found. */
  function UcgCommands(ucg: string, env: string, init: bool, upgrade: bool, files: set<string>): seq<seq<string>> {
    match Apply(UcgProject(ucg), env, init, upgrade, files)
    case Ok(cs) => cs
    case Err(_) => []
  }

  /** The commands of several `ucg` calls, one after the other. */
  function Concat(ucgs: seq<string>, env: string, init: bool, upgrade: bool, files: set<string>): seq<seq<string>>
    decreases |ucgs|
  {
    if ucgs == [] then []
    else UcgCommands(ucgs[0], env, init, upgrade, files) + Concat(ucgs[1..], env, init, upgrade, files)
  }

  /** When every user-group is found, the run is the `apply` of each in
      order, with no error. */
  lemma {:induction false} ApplyUcgsAllFound(ucgs: seq<string>, env: string, init: bool, upgrade: bool, files: set<string>)
    requires forall k :: 0 <= k < |ucgs| ==> Found(ucgs[k], env, files)
    ensures ApplyUcgs(ucgs, env, init, upgrade, files)
            == Run(Concat(ucgs, env, init, upgrade, files), None)
    decreases |ucgs|
  {
    if ucgs != [] {
      ApplyUcgsAllFound(ucgs[1..], env, init, upgrade, files);
    }
  }

  /** When the user-group at `k` is the first not found, the run holds the
      commands of those before it and stops with its error. */
  lemma {:induction false} ApplyUcgsStops(ucgs: seq<string>, env: string, init: bool, upgrade: bool, files: set<string>, k: nat)
    requires k < |ucgs|
    requires forall j :: 0 <= j < k ==> Found(ucgs[j], env, files)
    requires !Found(ucgs[k], env, files)
    ensures ApplyUcgs(ucgs, env, init, upgrade, files)
            == Run(Concat(ucgs[..k], env, init, upgrade, files),
                   Some(ProjectNotFound(UcgProject(ucgs[k]), env)))
    decreases k
  {
    UcgProjectKeepsName(ucgs[k]);
    if k > 0 {
      ApplyUcgsStops(ucgs[1..], env, init, upgrade, files, k - 1);
      assert ucgs[1..][..k - 1] == ucgs[..k][1..];
    }
  }

  /** `all-ucgs` runs `ucg` for analytics, modeling, reporting and tns,
      in that order, each as the project `discord-data-<name>`; when one
      of them cannot be found the run ends there, with the commands of the
      ones before it and the error naming that project. */
  lemma AllUcgsOrder(env: string, init: bool, upgrade: bool, files: set<string>, k: nat)
    requires k <= |AllUcgs|
    requires forall j :: 0 <= j < k ==> Found(AllUcgs[j], env, files)
    requires k < |AllUcgs| ==> !Found(AllUcgs[k], env, files)
    ensures var r := AllUcgsRun(env, init, upgrade, files);
            r.commands == Concat(AllUcgs[..k], env, init, upgrade, files)
            && r.error == (if k == |AllUcgs| then None
                           else Some(ProjectNotFound("discord-data-" + AllUcgs[k], env)))
  {
    if k == |AllUcgs| {
      assert AllUcgs[..k] == AllUcgs;
      ApplyUcgsAllFound(AllUcgs, env, init, upgrade, files);
    } else {
      ApplyUcgsStops(AllUcgs, env, init, upgrade, files, k);
    }
  }
}
