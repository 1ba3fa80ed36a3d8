/** The configuration helpers of `bin/sync.py`, which keeps rsync settings
    for a remote box in a nested YAML dictionary and builds the rsync
    command from them. The dictionary is changed in place: every lookup
    with a default stores the default. */
module Sync {
  import opened Wrappers
  import opened Text

  /** A configuration value as the YAML loader produces it. */
  datatype Yaml = Dict(entries: map<string, Yaml>) | Str(text: string) | List(items: seq<Yaml>) | Bool(flag: bool) | Null

  /** Why a configuration access raises: a value on a dotted path that is
      not a dictionary (`setdefault` or item assignment on it fails), a
      value appended to that is not a list, a boolean or null that is
      iterated (`TypeError`), or a value that is not a string where one is
      needed (`' '.join`, or an rsync argument `subprocess` refuses).
      `Unmodelled` marks a case the model does not follow: a mapping
      iterated for its keys, whose insertion order `Dict` does not keep,
      or a list or mapping formatted into an exclude flag. */
  datatype ConfigError = NotADict | NotAList | NotIterable | NotAString | Unmodelled

  /** The value at `path`, if every step exists. */
  function Lookup(y: Yaml, path: seq<string>): Option<Yaml>
    decreases |path|
  {
    if path == [] then Some(y)
    else if y.Dict? && path[0] in y.entries then Lookup(y.entries[path[0]], path[1..])
    else None
  }

  lemma {:induction false} LookupAppend(y: Yaml, p: seq<string>, q: seq<string>)
    ensures Lookup(y, p + q) == match Lookup(y, p) case Some(z) => Lookup(z, q) case None => None
    decreases |p|
  {
    if p == [] {
      assert p + q == q;
    } else {
      assert (p + q)[0] == p[0] && (p + q)[1..] == p[1..] + q;
      if y.Dict? && p[0] in y.entries {
        LookupAppend(y.entries[p[0]], p[1..], q);
      }
    }
  }

  /** `d.setdefault(k, {})`'s result. */
  function Child(m: map<string, Yaml>, k: string): Yaml {
    if k in m then m[k] else Dict(map[])
  }

  /** The dictionary `getcfg`'s loop reaches after `parts`, each missing
      step counting as an empty dictionary; None once a step is not a
      dictionary. */
  function Walk(y: Yaml, parts: seq<string>): Option<Yaml>
    decreases |parts|
  {
    if parts == [] then Some(y)
    else
      match Walk(y, parts[..|parts| - 1])
      case Some(Dict(m)) => Some(Child(m, parts[|parts| - 1]))
      case _ => None
  }

  lemma {:induction false} WalkCons(y: Yaml, k: string, p: seq<string>)
    ensures Walk(y, [k] + p) == if y.Dict? then Walk(Child(y.entries, k), p) else None
    decreases |p|
  {
    if p == [] {
      assert [k] + p == [k] && [k][..0] == [];
    } else {
      var init := p[..|p| - 1];
      assert ([k] + p)[..|p|] == [k] + init;
      WalkCons(y, k, init);
    }
  }

  /** The outcome of a lookup with a default: the new tree and the value found or stored. */
  datatype Defaulted = Defaulted(tree: Yaml, value: Yaml)

  /** `getcfg` on the path `parts + [leaf]`: intermediate dictionaries are
      created where missing and `default` is stored at the leaf when it is
      missing; None when the walk meets a value that is not a dictionary. */
  function SetDefault(y: Yaml, parts: seq<string>, leaf: string, default: Yaml): Option<Defaulted>
    decreases |parts|
  {
    if !y.Dict? then None
    else if parts == [] then
      var v := if leaf in y.entries then y.entries[leaf] else default;
      Some(Defaulted(Dict(y.entries[leaf := v]), v))
    else
      match SetDefault(Child(y.entries, parts[0]), parts[1..], leaf, default)
      case None => None
      case Some(d) => Some(Defaulted(Dict(y.entries[parts[0] := d.tree]), d.value))
  }

  /** A present value is returned and nothing changes. */
  lemma {:induction false} SetDefaultFound(y: Yaml, parts: seq<string>, leaf: string, default: Yaml)
    requires Lookup(y, parts + [leaf]).Some?
    ensures SetDefault(y, parts, leaf, default) == Some(Defaulted(y, Lookup(y, parts + [leaf]).value))
    decreases |parts|
  {
    var path := parts + [leaf];
    assert path[0] == if parts == [] then leaf else parts[0];
    if parts == [] {
      assert path[1..] == [];
      assert y.entries[leaf := y.entries[leaf]] == y.entries;
    } else {
      assert path[1..] == parts[1..] + [leaf];
      SetDefaultFound(y.entries[parts[0]], parts[1..], leaf, default);
      assert y.entries[parts[0] := y.entries[parts[0]]] == y.entries;
    }
  }

  /** Afterwards the path is present and holds the returned value: the old
      value when there was one, `default` otherwise. */
  lemma {:induction false} SetDefaultStores(y: Yaml, parts: seq<string>, leaf: string, default: Yaml)
    requires SetDefault(y, parts, leaf, default).Some?
    ensures var d := SetDefault(y, parts, leaf, default).value;
      Lookup(d.tree, parts + [leaf]) == Some(d.value)
      && d.value == match Lookup(y, parts + [leaf]) case Some(v) => v case None => default
    decreases |parts|
  {
    var path := parts + [leaf];
    assert path[0] == if parts == [] then leaf else parts[0];
    if parts == [] {
      assert path[1..] == [];
    } else {
      assert path[1..] == parts[1..] + [leaf];
      var child := Child(y.entries, parts[0]);
      SetDefaultStores(child, parts[1..], leaf, default);
      if parts[0] !in y.entries {
        LookupOfEmpty(parts[1..] + [leaf]);
      }
    }
  }

  lemma LookupOfEmpty(path: seq<string>)
    requires path != []
    ensures Lookup(Dict(map[]), path) == None
  {
  }

  /** A walk through missing dictionaries never fails. */
  lemma {:induction false} FreshNeverBlocks(parts: seq<string>, leaf: string, default: Yaml)
    ensures SetDefault(Dict(map[]), parts, leaf, default).Some?
    decreases |parts|
  {
    if parts != [] {
      FreshNeverBlocks(parts[1..], leaf, default);
    }
  }

  /** Some prefix of `parts` (the empty one included) leads to a value that
      is not a dictionary. */
  predicate Blocked(y: Yaml, parts: seq<string>) {
    exists k :: 0 <= k <= |parts| && Lookup(y, parts[..k]).Some? && !Lookup(y, parts[..k]).value.Dict?
  }

  /** `getcfg` raises exactly when the path runs into a value that is not a
      dictionary. */
  lemma {:induction false} SetDefaultFailsIff(y: Yaml, parts: seq<string>, leaf: string, default: Yaml)
    ensures SetDefault(y, parts, leaf, default).None? <==> Blocked(y, parts)
    decreases |parts|
  {
    assert parts[..0] == [];
    if !y.Dict? {
      assert Lookup(y, parts[..0]) == Some(y);
    } else if parts == [] {
      assert forall k :: 0 <= k <= |parts| ==> parts[..k] == [];
    } else {
      var k0 := parts[0];
      var rest := parts[1..];
      if k0 in y.entries {
        var child := y.entries[k0];
        SetDefaultFailsIff(child, rest, leaf, default);
        if Blocked(child, rest) {
          var k :| 0 <= k <= |rest| && Lookup(child, rest[..k]).Some? && !Lookup(child, rest[..k]).value.Dict?;
          assert parts[..k + 1] == [k0] + rest[..k];
          assert Lookup(y, parts[..k + 1]) == Lookup(child, rest[..k]);
        }
        if Blocked(y, parts) {
          var k :| 0 <= k <= |parts| && Lookup(y, parts[..k]).Some? && !Lookup(y, parts[..k]).value.Dict?;
          assert k > 0;
          assert parts[..k] == [k0] + rest[..k - 1];
          assert Lookup(y, parts[..k]) == Lookup(child, rest[..k - 1]);
        }
      } else {
        FreshNeverBlocks(rest, leaf, default);
        forall k | 0 < k <= |parts| ensures Lookup(y, parts[..k]) == None {
          assert parts[..k][0] == k0;
        }
      }
    }
  }

  /** A second lookup of the same key finds what the first one stored. */
  lemma SetDefaultIdempotent(y: Yaml, parts: seq<string>, leaf: string, default: Yaml, default2: Yaml)
    requires SetDefault(y, parts, leaf, default).Some?
    ensures var d := SetDefault(y, parts, leaf, default).value;
      SetDefault(d.tree, parts, leaf, default2) == Some(d)
  {
    SetDefaultStores(y, parts, leaf, default);
    SetDefaultFound(SetDefault(y, parts, leaf, default).value.tree, parts, leaf, default2);
  }

  /** The walk meets a non-dictionary: `getcfg` raises. */
  lemma {:induction false} WalkBlocks(y: Yaml, parts: seq<string>, i: int, leaf: string, default: Yaml)
    requires 0 <= i <= |parts| && Walk(y, parts[..i]).Some? && !Walk(y, parts[..i]).value.Dict?
    ensures SetDefault(y, parts, leaf, default) == None
    decreases i
  {
    if i == 0 {
      assert parts[..0] == [];
    } else {
      assert parts[..i] == [parts[0]] + parts[1..][..i - 1];
      WalkCons(y, parts[0], parts[1..][..i - 1]);
      WalkBlocks(Child(y.entries, parts[0]), parts[1..], i - 1, leaf, default);
    }
  }

  /** `getcfg` on a key already split at its dots. */
  function GetCfgOf(y: Yaml, path: seq<string>, default: Yaml): Option<Defaulted>
    requires path != []
  {
    SetDefault(y, path[..|path| - 1], path[|path| - 1], default)
  }

  /** What a step of a command leaves behind: the tree at its end (or at
      the point where it raised) and its result. */
  datatype Outcome<T> = Outcome(tree: Yaml, result: Result<T, ConfigError>)

  /** `getcfg` as a step: a failing walk changes nothing. */
  function Get(y: Yaml, path: seq<string>, default: Yaml): Outcome<Yaml>
    requires path != []
  {
    match GetCfgOf(y, path, default)
    case None => Outcome(y, Err(NotADict))
    case Some(d) => Outcome(d.tree, Ok(d.value))
  }

  /** Item assignment through a reference `getcfg` returned: the value at
      `path` (which is present) becomes `v`. */
  function Replace(y: Yaml, path: seq<string>, v: Yaml): Yaml
    decreases |path|
  {
    if path == [] then v
    else if y.Dict? && path[0] in y.entries then Dict(y.entries[path[0] := Replace(y.entries[path[0]], path[1..], v)])
    else y
  }

  lemma {:induction false} ReplaceStores(y: Yaml, path: seq<string>, v: Yaml)
    requires Lookup(y, path).Some?
    ensures Lookup(Replace(y, path, v), path) == Some(v)
    decreases |path|
  {
    if path != [] {
      ReplaceStores(y.entries[path[0]], path[1..], v);
    }
  }

  /** Two paths part ways: neither is a prefix of the other. */
  predicate Diverge(p: seq<string>, q: seq<string>)
    decreases |p|
  {
    p != [] && q != [] && (p[0] != q[0] || Diverge(p[1..], q[1..]))
  }

  /** A `getcfg` touches nothing on a path that parts ways with its own. */
  lemma {:induction false} SetDefaultElsewhere(y: Yaml, parts: seq<string>, leaf: string, default: Yaml, q: seq<string>)
    requires SetDefault(y, parts, leaf, default).Some? && Diverge(parts + [leaf], q)
    ensures Lookup(SetDefault(y, parts, leaf, default).value.tree, q) == Lookup(y, q)
    decreases |parts|
  {
    var path := parts + [leaf];
    assert path[0] == if parts == [] then leaf else parts[0];
    if parts == [] {
      assert path[1..] == [];
    } else {
      assert path[1..] == parts[1..] + [leaf];
      if parts[0] == q[0] {
        var child := Child(y.entries, parts[0]);
        SetDefaultElsewhere(child, parts[1..], leaf, default, q[1..]);
        if parts[0] !in y.entries {
          LookupOfEmpty(q[1..]);
        }
      }
    }
  }

  /** An item assignment touches nothing on a path that parts ways with its own. */
  lemma {:induction false} ReplaceElsewhere(y: Yaml, path: seq<string>, v: Yaml, q: seq<string>)
    requires Diverge(path, q)
    ensures Lookup(Replace(y, path, v), q) == Lookup(y, q)
    decreases |path|
  {
    if y.Dict? && path[0] in y.entries && path[0] == q[0] {
      ReplaceElsewhere(y.entries[path[0]], path[1..], v, q[1..]);
    }
  }

  /** What a lookup with a default finds: the stored value or the default. */
  function Setting(y: Yaml, path: seq<string>, default: Yaml): Yaml {
    match Lookup(y, path)
    case Some(v) => v
    case None => default
  }

  /** A successful `getcfg` returns the setting and stores it. */
  lemma GetFinds(y: Yaml, path: seq<string>, default: Yaml)
    requires path != [] && Get(y, path, default).result.Ok?
    ensures Get(y, path, default).result.value == Setting(y, path, default)
    ensures Lookup(Get(y, path, default).tree, path) == Some(Setting(y, path, default))
  {
    assert path[..|path| - 1] + [path[|path| - 1]] == path;
    SetDefaultStores(y, path[..|path| - 1], path[|path| - 1], default);
  }

  /** A `getcfg` leaves a diverging path alone. */
  lemma GetElsewhere(y: Yaml, path: seq<string>, default: Yaml, q: seq<string>)
    requires path != [] && Get(y, path, default).result.Ok? && Diverge(path, q)
    ensures Lookup(Get(y, path, default).tree, q) == Lookup(y, q)
  {
    assert path[..|path| - 1] + [path[|path| - 1]] == path;
    SetDefaultElsewhere(y, path[..|path| - 1], path[|path| - 1], default, q);
  }

  /** A list of strings as YAML. */
  function Strs(ss: seq<string>): (r: seq<Yaml>)
    ensures |r| == |ss| && forall i :: 0 <= i < |r| ==> r[i] == Str(ss[i])
  {
    seq(|ss|, i requires 0 <= i < |ss| => Str(ss[i]))
  }

  /** The one-character strings that iterating a Python string yields. */
  function Chars(t: string): (r: seq<string>)
    ensures |r| == |t| && forall i :: 0 <= i < |t| ==> r[i] == [t[i]]
  {
    seq(|t|, i requires 0 <= i < |t| => [t[i]])
  }

  /** What iterating a setting yields: a list's items, a string's
      characters. A boolean or null cannot be iterated. */
  function Elements(y: Yaml): (r: Result<seq<Yaml>, ConfigError>)
    ensures y.List? ==> r == Ok(y.items)
    ensures y.Str? ==> r == Ok(Strs(Chars(y.text)))
    ensures y.Bool? || y.Null? ==> r == Err(NotIterable)
    ensures y.Dict? ==> r == Err(Unmodelled)
  {
    match y
    case List(xs) => Ok(xs)
    case Str(t) => Ok(Strs(Chars(t)))
    case Dict(_) => Err(Unmodelled)
    case _ => Err(NotIterable)
  }

  /** The texts of values that must all be strings. */
  function Texts(xs: seq<Yaml>): (r: Result<seq<string>, ConfigError>)
    ensures r.Ok? <==> forall i :: 0 <= i < |xs| ==> xs[i].Str?
    ensures r.Ok? ==> |r.value| == |xs| && forall i :: 0 <= i < |xs| ==> xs[i] == Str(r.value[i])
    ensures r.Err? ==> r.error == NotAString
  {
    if forall i :: 0 <= i < |xs| ==> xs[i].Str? then
      Ok(seq(|xs|, i requires 0 <= i < |xs| => xs[i].text))
    else Err(NotAString)
  }

  /** A setting iterated for strings, as `' '.join` does: a list of
      strings, or the characters of a string. */
  function StrsOf(y: Yaml): (r: Result<seq<string>, ConfigError>)
    ensures r.Ok? <==> y.Str? || (y.List? && forall i :: 0 <= i < |y.items| ==> y.items[i].Str?)
    ensures y.List? && r.Ok? ==> |r.value| == |y.items| && forall i :: 0 <= i < |y.items| ==> y.items[i] == Str(r.value[i])
    ensures (y.Bool? || y.Null?) ==> r == Err(NotIterable)
  {
    match Elements(y)
    case Err(e) => Err(e)
    case Ok(xs) => Texts(xs)
  }

  lemma StrsRoundTrip(ss: seq<string>)
    ensures StrsOf(List(Strs(ss))) == Ok(ss)
  {
    var r := StrsOf(List(Strs(ss)));
    assert r.value == ss by {
      forall i | 0 <= i < |ss| ensures r.value[i] == ss[i] {
        assert Strs(ss)[i] == Str(ss[i]);
      }
    }
  }

  /** A string setting is iterated character by character. */
  lemma StringIterated(t: string)
    ensures StrsOf(Str(t)) == Ok(Chars(t))
  {
    var r := StrsOf(Str(t));
    assert r.value == Chars(t) by {
      forall i | 0 <= i < |t| ensures r.value[i] == Chars(t)[i] {
        assert Strs(Chars(t))[i] == Str(Chars(t)[i]);
      }
    }
  }

  /** Python truthiness of a configuration value. */
  predicate Truthy(y: Yaml) {
    match y
    case Dict(m) => |m| > 0
    case Str(t) => t != ""
    case List(xs) => xs != []
    case Bool(b) => b
    case Null => false
  }

  // ---------------------------------------------------------------------
  // to_dir

  /** `to_dir`: every trailing "/" is removed and exactly one is added. */
  function ToDir(path: string): (r: string)
    ensures |r| > 0 && r[|r| - 1] == '/'
    ensures |r| == 1 || r[|r| - 2] != '/'
    ensures |r| - 1 <= |path| && r[..|r| - 1] == path[..|r| - 1]
    ensures forall i :: |r| - 1 <= i < |path| ==> path[i] == '/'
  {
    RStripChar(path, '/') + "/"
  }

  lemma ToDirIdempotent(path: string)
    ensures ToDir(ToDir(path)) == ToDir(path)
  {
    var d := RStripChar(path, '/');
    assert (d + "/")[..|d|] == d;
    assert RStripChar(d + "/", '/') == RStripChar(d, '/');
    if d != [] {
      assert d[|d| - 1] != '/';
    }
  }

  // ---------------------------------------------------------------------
  // handle_ssh_arguments and the dry-run flag

  /** `handle_ssh_arguments(ctx, param, value)`: the new tree and the host
      it returns. */
  function SshArgumentsOf(y: Yaml, value: seq<string>, resilient: bool): (r: Outcome<Yaml>)
    ensures r.result.Ok? && value != [] && !resilient ==> r.result.value == Str(value[|value| - 1])
    ensures r.result.Err? ==> r.result.error == NotADict
  {
    if value == [] || resilient then Get(y, ["remote", "ssh", "host"], Str("*"))
    else
      var g := Get(y, ["remote", "ssh"], Dict(map[]));
      if g.result.Err? then g
      else if !g.result.value.Dict? then Outcome(g.tree, Err(NotADict))
      else
        var host := value[|value| - 1];
        var ssh := Dict(g.result.value.entries["args" := List(Strs(value[..|value| - 1]))]["host" := Str(host)]);
        Outcome(Replace(g.tree, ["remote", "ssh"], ssh), Ok(Str(host)))
  }

  /** With host arguments, the last one is stored as `remote.ssh.host`, the
      others as `remote.ssh.args`, and the host is returned. */
  lemma SshArgumentsStored(y: Yaml, value: seq<string>)
    requires value != [] && SshArgumentsOf(y, value, false).result.Ok?
    ensures var o := SshArgumentsOf(y, value, false);
      o.result.value == Str(value[|value| - 1])
      && Lookup(o.tree, ["remote", "ssh", "host"]) == Some(Str(value[|value| - 1]))
      && Lookup(o.tree, ["remote", "ssh", "args"]) == Some(List(Strs(value[..|value| - 1])))
  {
    var g := Get(y, ["remote", "ssh"], Dict(map[]));
    assert ["remote", "ssh"][..1] == ["remote"];
    SetDefaultStores(y, ["remote"], "ssh", Dict(map[]));
    assert ["remote"] + ["ssh"] == ["remote", "ssh"];
    var o := SshArgumentsOf(y, value, false);
    var ssh := Dict(g.result.value.entries["args" := List(Strs(value[..|value| - 1]))]["host" := Str(value[|value| - 1])]);
    ReplaceStores(g.tree, ["remote", "ssh"], ssh);
    LookupAppend(o.tree, ["remote", "ssh"], ["host"]);
    LookupAppend(o.tree, ["remote", "ssh"], ["args"]);
    assert ["remote", "ssh"] + ["host"] == ["remote", "ssh", "host"];
    assert ["remote", "ssh"] + ["args"] == ["remote", "ssh", "args"];
  }

  /** Without host arguments, the stored host is returned, `*` when there
      is none. */
  lemma SshArgumentsDefault(y: Yaml, value: seq<string>, resilient: bool)
    requires (value == [] || resilient) && SshArgumentsOf(y, value, resilient).result.Ok?
    ensures SshArgumentsOf(y, value, resilient).result.value
      == match Lookup(y, ["remote", "ssh", "host"]) case Some(h) => h case None => Str("*")
  {
    assert ["remote", "ssh", "host"][..2] == ["remote", "ssh"];
    SetDefaultStores(y, ["remote", "ssh"], "host", Str("*"));
    assert ["remote", "ssh"] + ["host"] == ["remote", "ssh", "host"];
  }

  /** The callback raises exactly when `remote` or `remote.ssh` (or the
      whole configuration) is not a dictionary. */
  lemma SshArgumentsFailIff(y: Yaml, value: seq<string>, resilient: bool)
    ensures SshArgumentsOf(y, value, resilient).result.Err? <==> Blocked(y, ["remote", "ssh"])
  {
    var p := ["remote", "ssh"];
    assert p[..0] == [] && p[..1] == ["remote"] && p[..2] == p;
    if value == [] || resilient {
      assert ["remote", "ssh", "host"][..2] == p;
      SetDefaultFailsIff(y, p, "host", Str("*"));
    } else {
      assert p[..1] == ["remote"];
      SetDefaultFailsIff(y, ["remote"], "ssh", Dict(map[]));
      assert ["remote"][..0] == [] && ["remote"][..1] == ["remote"];
      var g := Get(y, ["remote", "ssh"], Dict(map[]));
      if g.result.Ok? {
        SetDefaultStores(y, ["remote"], "ssh", Dict(map[]));
        assert ["remote"] + ["ssh"] == p;
        if Blocked(y, p) {
          var k :| 0 <= k <= |p| && Lookup(y, p[..k]).Some? && !Lookup(y, p[..k]).value.Dict?;
          assert k == 2;
        }
      }
    }
  }

  /** `main`'s `getcfg(cfg, 'rsync', {})['dry_run'] = dry_run`. */
  function DryRunOf(y: Yaml, dry: bool): Outcome<()> {
    var g := Get(y, ["rsync"], Dict(map[]));
    if g.result.Err? then Outcome(g.tree, Err(NotADict))
    else if !g.result.value.Dict? then Outcome(g.tree, Err(NotADict))
    else Outcome(Replace(g.tree, ["rsync"], Dict(g.result.value.entries["dry_run" := Bool(dry)])), Ok(()))
  }

  /** The flag is stored under `rsync.dry_run`, whatever was there. */
  lemma DryRunStored(y: Yaml, dry: bool)
    requires DryRunOf(y, dry).result.Ok?
    ensures Lookup(DryRunOf(y, dry).tree, ["rsync", "dry_run"]) == Some(Bool(dry))
  {
    var g := Get(y, ["rsync"], Dict(map[]));
    SetDefaultStores(y, [], "rsync", Dict(map[]));
    assert [] + ["rsync"] == ["rsync"];
    var t := DryRunOf(y, dry).tree;
    ReplaceStores(g.tree, ["rsync"], Dict(g.result.value.entries["dry_run" := Bool(dry)]));
    LookupAppend(t, ["rsync"], ["dry_run"]);
    assert ["rsync"] + ["dry_run"] == ["rsync", "dry_run"];
  }

  // ---------------------------------------------------------------------
  // the rsync command

  const DefaultOptions: seq<string> := ["-a", "-v", "-P", "-z", "-u"]

  /** The settings the rsync command is built from. */
  datatype RsyncSettings = RsyncSettings(options: seq<string>, ssh: seq<string>, dryRun: bool, excludes: seq<string>)

  function ExcludeFlags(patterns: seq<string>): (r: seq<string>)
    ensures |r| == |patterns| && forall i :: 0 <= i < |r| ==> r[i] == "--exclude=" + patterns[i]
  {
    seq(|patterns|, i requires 0 <= i < |patterns| => "--exclude=" + patterns[i])
  }

  /** The command line `rsync` runs. */
  function RsyncCommand(s: RsyncSettings, src: string, dst: string): seq<string> {
    ["rsync"] + s.options + ["-e " + Join(" ", s.ssh)] + (if s.dryRun then ["-n"] else [])
      + ExcludeFlags(s.excludes) + [ToDir(src), ToDir(dst)]
  }

  /** The layout of the command: `rsync`, the options, the ssh command,
      `-n` exactly when dry-running, one flag per exclude in order, and
      the two directories last. */
  lemma RsyncCommandLayout(s: RsyncSettings, src: string, dst: string, c: seq<string>)
    requires c == RsyncCommand(s, src, dst)
    ensures |c| == |s.options| + 4 + (if s.dryRun then 1 else 0) + |s.excludes|
    ensures c[0] == "rsync" && c[1..|s.options| + 1] == s.options
    ensures c[|s.options| + 1] == "-e " + Join(" ", s.ssh)
    ensures c[|s.options| + 2] == "-n" <==> s.dryRun
    ensures var first := |s.options| + 2 + (if s.dryRun then 1 else 0);
      c[first..first + |s.excludes|] == ExcludeFlags(s.excludes)
    ensures c[|c| - 2] == ToDir(src) && c[|c| - 1] == ToDir(dst)
  {
    var n := if s.dryRun then ["-n"] else [];
    var flags := ExcludeFlags(s.excludes);
    assert c == ["rsync"] + s.options + ["-e " + Join(" ", s.ssh)] + n + flags + [ToDir(src), ToDir(dst)];
    Layout(c, "rsync", s.options, "-e " + Join(" ", s.ssh), n, flags, ToDir(src), ToDir(dst));
    var o := |s.options|;
    if !s.dryRun {
      if s.excludes != [] {
        assert c[o + 2] == flags[0];
        assert c[o + 2][..2] == "--";
      } else {
        assert c[o + 2] == ToDir(src);
      }
    }
  }

  /** Where the parts of a command line of this shape are. */
  lemma Layout<T>(c: seq<T>, first: T, options: seq<T>, e: T, n: seq<T>, flags: seq<T>, x: T, y: T)
    requires c == [first] + options + [e] + n + flags + [x, y]
    ensures |c| == |options| + |n| + |flags| + 4
    ensures c[0] == first && c[1..|options| + 1] == options && c[|options| + 1] == e
    ensures forall i :: 0 <= i < |n| ==> c[|options| + 2 + i] == n[i]
    ensures c[|options| + 2 + |n|..|options| + 2 + |n| + |flags|] == flags
    ensures c[|c| - 2] == x && c[|c| - 1] == y
  {
    assert c[1..|options| + 1] == options;
    var head := [first] + options + [e] + n;
    assert c == head + flags + [x, y];
    assert c[|head|..|head| + |flags|] == flags;
  }

  /** A setting read through `getcfg` and iterated for strings. */
  function GetStrings(y: Yaml, path: seq<string>, default: seq<string>): Outcome<seq<string>>
    requires path != []
  {
    var g := Get(y, path, List(Strs(default)));
    if g.result.Err? then Outcome(g.tree, Err(g.result.error))
    else Outcome(g.tree, StrsOf(g.result.value))
  }

  /** `f'--exclude={pattern}'` of one item of the excludes: a string as it
      is, a boolean or null as Python prints it. */
  function Format(y: Yaml): (r: Result<string, ConfigError>)
    ensures y.Str? ==> r == Ok(y.text)
    ensures y.Bool? ==> r == Ok(if y.flag then "True" else "False")
    ensures y.Null? ==> r == Ok("None")
    ensures y.List? || y.Dict? ==> r == Err(Unmodelled)
    ensures r.Err? ==> r.error == Unmodelled
  {
    match y
    case Str(t) => Ok(t)
    case Bool(b) => Ok(if b then "True" else "False")
    case Null => Ok("None")
    case _ => Err(Unmodelled)
  }

  /** The formatted items of a run of values. */
  function FormatAll(xs: seq<Yaml>): (r: Result<seq<string>, ConfigError>)
    ensures r.Ok? <==> forall i :: 0 <= i < |xs| ==> Format(xs[i]).Ok?
    ensures r.Ok? ==> |r.value| == |xs| && forall i :: 0 <= i < |xs| ==> Format(xs[i]) == Ok(r.value[i])
    ensures r.Err? ==> r.error == Unmodelled
  {
    if forall i :: 0 <= i < |xs| ==> Format(xs[i]).Ok? then
      Ok(seq(|xs|, i requires 0 <= i < |xs| => Format(xs[i]).value))
    else Err(Unmodelled)
  }

  /** The patterns the exclude generator yields from a setting. */
  function Patterns(y: Yaml): (r: Result<seq<string>, ConfigError>)
    ensures y.List? ==> r == FormatAll(y.items)
    ensures y.Str? ==> r == Ok(Chars(y.text))
    ensures (y.Bool? || y.Null?) ==> r == Err(NotIterable)
  {
    match Elements(y)
    case Err(e) => Err(e)
    case Ok(xs) =>
      var r := FormatAll(xs);
      assert y.Str? ==> r.value == Chars(y.text) by {
        if y.Str? {
          forall i | 0 <= i < |y.text| ensures r.value[i] == Chars(y.text)[i] {
            assert xs[i] == Str(Chars(y.text)[i]);
          }
        }
      }
      r
  }

  /** `rsync(cfg, src, dst)`: each setting is read with its default, which
      is stored, in the order of the source. The options are iterated by
      `extend` at once but their items are checked to be strings only when
      the command runs, after the excludes were formatted. */
  function RsyncOf(y: Yaml, src: string, dst: string): (r: Outcome<seq<string>>)
    ensures r.result.Ok? ==> var c := r.result.value;
      |c| >= 4 && c[0] == "rsync" && c[|c| - 2..] == [ToDir(src), ToDir(dst)]
  {
    var o := Get(y, ["rsync", "options"], List(Strs(DefaultOptions)));
    if o.result.Err? then Outcome(o.tree, Err(o.result.error)) else
    var items := Elements(o.result.value);
    if items.Err? then Outcome(o.tree, Err(items.error)) else
    var e := GetStrings(o.tree, ["remote", "ssh", "args"], ["ssh"]);
    if e.result.Err? then e else
    var n := Get(e.tree, ["rsync", "dry_run"], Bool(false));
    if n.result.Err? then Outcome(n.tree, Err(n.result.error)) else
    var x := Get(n.tree, ["rsync", "excludes"], List([]));
    if x.result.Err? then Outcome(x.tree, Err(x.result.error)) else
    var patterns := Patterns(x.result.value);
    if patterns.Err? then Outcome(x.tree, Err(patterns.error)) else
    var args := Texts(items.value);
    if args.Err? then Outcome(x.tree, Err(args.error)) else
    Outcome(x.tree, Ok(RsyncCommand(RsyncSettings(args.value, e.result.value, Truthy(n.result.value), patterns.value), src, dst)))
  }

  /** A read-and-iterate succeeds exactly when the read does and the
      stored value (or the default) iterates to strings, and then gives
      those strings. */
  lemma GetStringsFinds(y: Yaml, path: seq<string>, default: seq<string>)
    requires path != []
    ensures GetStrings(y, path, default).result.Ok? <==>
      Get(y, path, List(Strs(default))).result.Ok? && StrsOf(Setting(y, path, List(Strs(default)))).Ok?
    ensures GetStrings(y, path, default).result.Ok? ==>
      StrsOf(Setting(y, path, List(Strs(default)))) == GetStrings(y, path, default).result
    ensures GetStrings(y, path, default).tree == Get(y, path, List(Strs(default))).tree
  {
    if Get(y, path, List(Strs(default))).result.Ok? {
      GetFinds(y, path, List(Strs(default)));
    }
  }

  /** The command `rsync` builds is made of the stored settings, each
      missing one replaced by its default: options `-a -v -P -z -u`, ssh
      command `ssh`, no dry run, no excludes. A string setting contributes
      its characters. */
  lemma RsyncReadsSettings(y: Yaml, src: string, dst: string)
    requires RsyncOf(y, src, dst).result.Ok?
    ensures StrsOf(Setting(y, ["rsync", "options"], List(Strs(DefaultOptions)))).Ok?
    ensures StrsOf(Setting(y, ["remote", "ssh", "args"], List(Strs(["ssh"])))).Ok?
    ensures Patterns(Setting(y, ["rsync", "excludes"], List([]))).Ok?
    ensures RsyncOf(y, src, dst).result.value == RsyncCommand(RsyncSettings(
      StrsOf(Setting(y, ["rsync", "options"], List(Strs(DefaultOptions)))).value,
      StrsOf(Setting(y, ["remote", "ssh", "args"], List(Strs(["ssh"])))).value,
      Truthy(Setting(y, ["rsync", "dry_run"], Bool(false))),
      Patterns(Setting(y, ["rsync", "excludes"], List([]))).value), src, dst)
  {
    var opts, ssh, dry, excl := ["rsync", "options"], ["remote", "ssh", "args"], ["rsync", "dry_run"], ["rsync", "excludes"];
    RsyncPathsDiverge();
    var o := Get(y, opts, List(Strs(DefaultOptions)));
    GetFinds(y, opts, List(Strs(DefaultOptions)));
    GetElsewhere(y, opts, List(Strs(DefaultOptions)), ssh);
    GetElsewhere(y, opts, List(Strs(DefaultOptions)), dry);
    GetElsewhere(y, opts, List(Strs(DefaultOptions)), excl);
    var e := GetStrings(o.tree, ssh, ["ssh"]);
    GetStringsFinds(o.tree, ssh, ["ssh"]);
    GetElsewhere(o.tree, ssh, List(Strs(["ssh"])), dry);
    GetElsewhere(o.tree, ssh, List(Strs(["ssh"])), excl);
    var n := Get(e.tree, dry, Bool(false));
    GetFinds(e.tree, dry, Bool(false));
    GetElsewhere(e.tree, dry, Bool(false), excl);
    GetFinds(n.tree, excl, List([]));
  }

  /** A string of options is split into its characters, each one an
      argument of its own: `options: "-avz"` gives `rsync - a v z ...`. */
  lemma StringOptionsSplit(y: Yaml, t: string, src: string, dst: string)
    requires RsyncOf(y, src, dst).result.Ok?
    requires Setting(y, ["rsync", "options"], List(Strs(DefaultOptions))) == Str(t)
    ensures var c := RsyncOf(y, src, dst).result.value;
      |t| < |c| && c[0] == "rsync" && c[1..|t| + 1] == Chars(t)
  {
    RsyncReadsSettings(y, src, dst);
    StringIterated(t);
    var s := RsyncSettings(Chars(t),
      StrsOf(Setting(y, ["remote", "ssh", "args"], List(Strs(["ssh"])))).value,
      Truthy(Setting(y, ["rsync", "dry_run"], Bool(false))),
      Patterns(Setting(y, ["rsync", "excludes"], List([]))).value);
    RsyncCommandLayout(s, src, dst, RsyncCommand(s, src, dst));
  }

  /** The four settings `rsync` reads lie on paths that part ways. */
  lemma RsyncPathsDiverge()
    ensures Diverge(["rsync", "options"], ["remote", "ssh", "args"])
    ensures Diverge(["rsync", "options"], ["rsync", "dry_run"])
    ensures Diverge(["rsync", "options"], ["rsync", "excludes"])
    ensures Diverge(["remote", "ssh", "args"], ["rsync", "dry_run"])
    ensures Diverge(["remote", "ssh", "args"], ["rsync", "excludes"])
    ensures Diverge(["rsync", "dry_run"], ["rsync", "excludes"])
  {
    assert Diverge(["options"], ["dry_run"]);
    assert Diverge(["options"], ["excludes"]);
    assert Diverge(["dry_run"], ["excludes"]);
  }

  /** After `main` stored the dry-run flag, the rsync command carries `-n`
      exactly when the flag is set. */
  lemma DryRunReachesRsync(y: Yaml, dry: bool, src: string, dst: string)
    requires DryRunOf(y, dry).result.Ok? && RsyncOf(DryRunOf(y, dry).tree, src, dst).result.Ok?
    ensures StrsOf(Setting(DryRunOf(y, dry).tree, ["rsync", "options"], List(Strs(DefaultOptions)))).Ok?
    ensures var c := RsyncOf(DryRunOf(y, dry).tree, src, dst).result.value;
      var o := StrsOf(Setting(DryRunOf(y, dry).tree, ["rsync", "options"], List(Strs(DefaultOptions)))).value;
      |o| + 2 < |c| && (c[|o| + 2] == "-n" <==> dry)
  {
    var t := DryRunOf(y, dry).tree;
    DryRunStored(y, dry);
    RsyncReadsSettings(t, src, dst);
    assert Setting(t, ["rsync", "dry_run"], Bool(false)) == Bool(dry);
    var s := RsyncSettings(
      StrsOf(Setting(t, ["rsync", "options"], List(Strs(DefaultOptions)))).value,
      StrsOf(Setting(t, ["remote", "ssh", "args"], List(Strs(["ssh"])))).value,
      dry,
      Patterns(Setting(t, ["rsync", "excludes"], List([]))).value);
    RsyncCommandLayout(s, src, dst, RsyncCommand(s, src, dst));
  }

  // ---------------------------------------------------------------------
  // init's exclude merging

  const DefaultExcludes: seq<string> := [".domino*", ".Trash*", "results/*", ".ipynb_checkpoints*", "dask-worker-space*"]

  /** `init`'s loop: each default not yet in the list is appended. */
  function Merge(existing: seq<Yaml>, defaults: seq<Yaml>): (r: seq<Yaml>)
    ensures |existing| <= |r| && r[..|existing|] == existing
    decreases |defaults|
  {
    if defaults == [] then existing
    else
      var m := Merge(existing, defaults[..|defaults| - 1]);
      var d := defaults[|defaults| - 1];
      if d in m then m else m + [d]
  }

  /** The defaults not in `existing`, in their order. */
  function Missing(defaults: seq<Yaml>, existing: seq<Yaml>): (r: seq<Yaml>)
    ensures forall x :: x in r <==> x in defaults && x !in existing
    decreases |defaults|
  {
    if defaults == [] then []
    else
      var d := defaults[|defaults| - 1];
      Missing(defaults[..|defaults| - 1], existing) + (if d in existing then [] else [d])
  }

  predicate Distinct(xs: seq<Yaml>) {
    forall i, j :: 0 <= i < j < |xs| ==> xs[i] != xs[j]
  }

  lemma {:induction false} MissingDistinct(defaults: seq<Yaml>, existing: seq<Yaml>)
    requires Distinct(defaults)
    ensures Distinct(Missing(defaults, existing))
    decreases |defaults|
  {
    if defaults != [] {
      var init := defaults[..|defaults| - 1];
      var d := defaults[|defaults| - 1];
      MissingDistinct(init, existing);
      assert d !in init by {
        forall i | 0 <= i < |init| ensures init[i] != d {
          assert init[i] == defaults[i];
        }
      }
    }
  }

  /** With distinct defaults, the merge keeps the existing list as it is and
      appends the missing defaults in default order; nothing is added twice. */
  lemma {:induction false} MergeAppendsMissing(existing: seq<Yaml>, defaults: seq<Yaml>)
    requires Distinct(defaults)
    ensures Merge(existing, defaults) == existing + Missing(defaults, existing)
    decreases |defaults|
  {
    if defaults != [] {
      var init := defaults[..|defaults| - 1];
      var d := defaults[|defaults| - 1];
      assert Distinct(init) by {
        forall i, j | 0 <= i < j < |init| ensures init[i] != init[j] {
          assert init[i] == defaults[i] && init[j] == defaults[j];
        }
      }
      MergeAppendsMissing(existing, init);
      assert d !in init by {
        forall i | 0 <= i < |init| ensures init[i] != d {
          assert init[i] == defaults[i];
        }
      }
      assert d !in Missing(init, existing);
      AppendAssoc(existing, Missing(init, existing), if d in existing then [] else [d]);
    }
  }

  /** After the merge every default is present. */
  lemma {:induction false} MergeHasDefaults(existing: seq<Yaml>, defaults: seq<Yaml>)
    ensures forall x :: x in defaults ==> x in Merge(existing, defaults)
    decreases |defaults|
  {
    if defaults != [] {
      var init := defaults[..|defaults| - 1];
      MergeHasDefaults(existing, init);
      assert forall x :: x in defaults ==> x in init || x == defaults[|defaults| - 1];
    }
  }

  lemma DefaultExcludesDistinct()
    ensures Distinct(Strs(DefaultExcludes))
  {
  }

  /** `init`: the default excludes are merged into `rsync.excludes` and the
      remote path defaults to one named after the project. */
  function InitOf(y: Yaml, project: string): (r: Outcome<()>)
    ensures r.result.Err? ==> r.result.error == NotADict || r.result.error == NotAList
  {
    var x := Get(y, ["rsync", "excludes"], List([]));
    if x.result.Err? then Outcome(x.tree, Err(x.result.error))
    else if !x.result.value.List? then Outcome(x.tree, Err(NotAList))
    else
      var t := Replace(x.tree, ["rsync", "excludes"], List(Merge(x.result.value.items, Strs(DefaultExcludes))));
      var p := Get(t, ["remote", "path"], Str("/mnt/even/" + project + "/"));
      Outcome(p.tree, if p.result.Err? then Err(p.result.error) else Ok(()))
  }

  /** After `init`, `rsync.excludes` is the old list followed by the
      missing defaults in default order, and `remote.path` holds the old
      value or the project's default path. */
  lemma InitMergesExcludes(y: Yaml, project: string)
    requires InitOf(y, project).result.Ok?
    ensures Setting(y, ["rsync", "excludes"], List([])).List?
    ensures var before := Setting(y, ["rsync", "excludes"], List([])).items;
      Lookup(InitOf(y, project).tree, ["rsync", "excludes"]) == Some(List(before + Missing(Strs(DefaultExcludes), before)))
    ensures Lookup(InitOf(y, project).tree, ["remote", "path"]) == Some(Setting(y, ["remote", "path"], Str("/mnt/even/" + project + "/")))
  {
    var excl := ["rsync", "excludes"];
    var rp := ["remote", "path"];
    var dflt := Str("/mnt/even/" + project + "/");
    var x := Get(y, excl, List([]));
    GetFinds(y, excl, List([]));
    var before := x.result.value.items;
    var merged := Merge(before, Strs(DefaultExcludes));
    DefaultExcludesDistinct();
    MergeAppendsMissing(before, Strs(DefaultExcludes));
    var t := Replace(x.tree, excl, List(merged));
    ReplaceStores(x.tree, excl, List(merged));
    assert Diverge(rp, excl) && Diverge(excl, rp);
    GetElsewhere(t, rp, dflt, excl);
    GetFinds(t, rp, dflt);
    ReplaceElsewhere(x.tree, excl, List(merged), rp);
    GetElsewhere(y, excl, List([]), rp);
  }

  /** The configuration object every command shares. */
  class Config {
    var root: Yaml

    constructor (root0: Yaml)
      ensures root == root0
    {
      root := root0;
    }

    /** `getcfg(cfg, key, default)`: the key is split at every ".". */
    method GetCfg(key: string, default: Yaml) returns (r: Result<Yaml, ConfigError>)
      modifies this
      ensures Outcome(root, r) == Get(old(root), SplitOn(key, '.'), default)
    {
      r := GetCfgAt(SplitOn(key, '.'), default);
    }

    /** `getcfg`'s loop: walk down the path, creating dictionaries, then
        store the default at the leaf unless a value is there. */
    method GetCfgAt(path: seq<string>, default: Yaml) returns (r: Result<Yaml, ConfigError>)
      requires path != []
      modifies this
      ensures Outcome(root, r) == Get(old(root), path, default)
    {
      var parts := path[..|path| - 1];
      var leaf := path[|path| - 1];
      var above: seq<map<string, Yaml>> := [];
      var node := root;
      var i := 0;
      while i < |parts|
        invariant 0 <= i <= |parts| && |above| == i
        invariant Walk(root, parts[..i]) == Some(node)
        invariant forall k :: 0 <= k < i ==> Walk(root, parts[..k]) == Some(Dict(above[k]))
      {
        if !node.Dict? {
          WalkBlocks(root, parts, i, leaf, default);
          r := Err(NotADict);
          return;
        }
        assert parts[..i + 1][..i] == parts[..i];
        above := above + [node.entries];
        node := Child(node.entries, parts[i]);
        i := i + 1;
      }
      if !node.Dict? {
        WalkBlocks(root, parts, i, leaf, default);
        r := Err(NotADict);
        return;
      }
      var value := if leaf in node.entries then node.entries[leaf] else default;
      var tree := Dict(node.entries[leaf := value]);
      assert parts[i..] == [];
      while i > 0
        invariant 0 <= i <= |parts|
        invariant Walk(root, parts[..i]).Some?
        invariant SetDefault(Walk(root, parts[..i]).value, parts[i..], leaf, default) == Some(Defaulted(tree, value))
      {
        i := i - 1;
        assert parts[..i + 1][..i] == parts[..i];
        assert parts[i..][0] == parts[i] && parts[i..][1..] == parts[i + 1..];
        tree := Dict(above[i][parts[i] := tree]);
      }
      assert parts[..0] == [] && parts[0..] == parts;
      root := tree;
      r := Ok(value);
    }

    /** A setting read with `getcfg` and iterated for strings. */
    method GetStringList(path: seq<string>, default: seq<string>) returns (r: Result<seq<string>, ConfigError>)
      requires path != []
      modifies this
      ensures Outcome(root, r) == GetStrings(old(root), path, default)
    {
      var v := GetCfgAt(path, List(Strs(default)));
      if v.Err? {
        r := Err(v.error);
        return;
      }
      r := StrsOf(v.value);
    }

    /** `handle_ssh_arguments`: the click callback of every remote command. */
    method HandleSshArguments(value: seq<string>, resilient: bool) returns (r: Result<Yaml, ConfigError>)
      modifies this
      ensures Outcome(root, r) == SshArgumentsOf(old(root), value, resilient)
    {
      if value == [] || resilient {
        r := GetCfgAt(["remote", "ssh", "host"], Str("*"));
        return;
      }
      var host := value[|value| - 1];
      var ssh := GetCfgAt(["remote", "ssh"], Dict(map[]));
      if ssh.Err? {
        r := ssh;
        return;
      }
      if !ssh.value.Dict? {
        r := Err(NotADict);
        return;
      }
      var entries := ssh.value.entries["args" := List(Strs(value[..|value| - 1]))];
      entries := entries["host" := Str(host)];
      root := Replace(root, ["remote", "ssh"], Dict(entries));
      r := Ok(Str(host));
    }

    /** The last step of `main`: the dry-run flag is stored for `rsync`. */
    method ApplyDryRun(dry: bool) returns (r: Result<(), ConfigError>)
      modifies this
      ensures Outcome(root, r) == DryRunOf(old(root), dry)
    {
      var settings := GetCfgAt(["rsync"], Dict(map[]));
      if settings.Err? || !settings.value.Dict? {
        r := Err(NotADict);
        return;
      }
      root := Replace(root, ["rsync"], Dict(settings.value.entries["dry_run" := Bool(dry)]));
      r := Ok(());
    }

    /** `rsync`: the settings are read in the order of the source and the
        exclude patterns formatted one by one; the arguments are checked to
        be strings last, where `check_call` would refuse them. The call
        itself is left to the caller. */
    method Rsync(src: string, dst: string) returns (r: Result<seq<string>, ConfigError>)
      modifies this
      ensures Outcome(root, r) == RsyncOf(old(root), src, dst)
    {
      var options := GetCfgAt(["rsync", "options"], List(Strs(DefaultOptions)));
      if options.Err? {
        r := Err(options.error);
        return;
      }
      var items := Elements(options.value);
      if items.Err? {
        r := Err(items.error);
        return;
      }
      var ssh := GetStringList(["remote", "ssh", "args"], ["ssh"]);
      if ssh.Err? {
        r := ssh;
        return;
      }
      var dry := GetCfgAt(["rsync", "dry_run"], Bool(false));
      if dry.Err? {
        r := Err(dry.error);
        return;
      }
      var excludes := GetCfgAt(["rsync", "excludes"], List([]));
      if excludes.Err? {
        r := Err(excludes.error);
        return;
      }
      var patterns := Elements(excludes.value);
      if patterns.Err? {
        r := Err(patterns.error);
        return;
      }
      var xs := patterns.value;
      var flags: seq<string> := [];
      var i := 0;
      while i < |xs|
        invariant 0 <= i <= |xs|
        invariant FormatAll(xs[..i]).Ok? && flags == ExcludeFlags(FormatAll(xs[..i]).value)
      {
        var p := Format(xs[i]);
        if p.Err? {
          assert !FormatAll(xs).Ok?;
          assert Patterns(excludes.value) == Err(Unmodelled);
          r := Err(p.error);
          return;
        }
        assert xs[..i + 1] == xs[..i] + [xs[i]];
        assert FormatAll(xs[..i + 1]).value == FormatAll(xs[..i]).value + [p.value];
        flags := flags + ["--exclude=" + p.value];
        i := i + 1;
      }
      assert xs[..i] == xs;
      var args := Texts(items.value);
      if args.Err? {
        r := Err(args.error);
        return;
      }
      var command := ["rsync"] + args.value + ["-e " + Join(" ", ssh.value)];
      if Truthy(dry.value) {
        command := command + ["-n"];
      }
      command := command + flags + [ToDir(src), ToDir(dst)];
      assert Patterns(excludes.value) == FormatAll(xs);
      assert command == RsyncCommand(RsyncSettings(args.value, ssh.value, Truthy(dry.value), FormatAll(xs).value), src, dst);
      r := Ok(command);
    }

    /** `init`'s configuration changes: the default excludes are merged in
        and the remote path gets its default; saving the file is left out. */
    method Init(project: string) returns (r: Result<(), ConfigError>)
      modifies this
      ensures Outcome(root, r) == InitOf(old(root), project)
    {
      var excludes := GetCfgAt(["rsync", "excludes"], List([]));
      if excludes.Err? {
        r := Err(excludes.error);
        return;
      }
      if !excludes.value.List? {
        r := Err(NotAList);
        return;
      }
      var items := excludes.value.items;
      var defaults := Strs(DefaultExcludes);
      var i := 0;
      while i < |defaults|
        invariant 0 <= i <= |defaults|
        invariant items == Merge(excludes.value.items, defaults[..i])
      {
        assert defaults[..i + 1][..i] == defaults[..i];
        if defaults[i] !in items {
          items := items + [defaults[i]];
        }
        i := i + 1;
      }
      assert defaults[..i] == defaults;
      root := Replace(root, ["rsync", "excludes"], List(items));
      var path := GetCfgAt(["remote", "path"], Str("/mnt/even/" + project + "/"));
      r := if path.Err? then Err(path.error) else Ok(());
    }
  }
}
