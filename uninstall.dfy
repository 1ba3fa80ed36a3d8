/** installers/uninstall.py: find the links in the home directory that
    point into the dotfiles checkout, and report (never remove) them. */
module Uninstall {
  import opened Text

  // ---------------------------------------------------------------------
  // Paths

  /** A POSIX path as its components (`PurePosixPath.parts`): an absolute
      path starts with its root component, "/" or "//". */
  type Path = seq<string>

  /** A component other than the root: non-empty, no separator, not ".". */
  predicate IsComponent(c: string) {
    c != [] && '/' !in c && c != "."
  }

  /** POSIX keeps exactly two leading separators as a root of their own. */
  predicate IsRoot(c: string) {
    c == "/" || c == "//"
  }

  predicate WellFormed(p: Path) {
    forall k :: 0 <= k < |p| ==> IsComponent(p[k]) || (k == 0 && IsRoot(p[k]))
  }

  /** The pieces between separators that name something: empty pieces
      (doubled or trailing separators) and "." are dropped. */
  function Parts(pieces: seq<string>): (r: seq<string>)
    requires forall k :: 0 <= k < |pieces| ==> '/' !in pieces[k]
    ensures forall k :: 0 <= k < |r| ==> IsComponent(r[k])
  {
    if pieces == [] then []
    else
      (if pieces[0] == [] || pieces[0] == "." then [] else [pieces[0]]) + Parts(pieces[1..])
  }

  /** The root of a string: "//" for exactly two leading separators, "/"
      for one or for three and more, none for a relative path. */
  function RootOf(s: string): (r: Path)
    ensures |r| <= 1 && (r != [] ==> IsRoot(r[0]))
  {
    if StartsWith(s, "//") && !StartsWith(s, "///") then ["//"]
    else if StartsWith(s, "/") then ["/"]
    else []
  }

  /** `Path(s)` for a string. */
  function PathOf(s: string): (p: Path)
    ensures WellFormed(p)
    ensures (p != [] && IsRoot(p[0])) <==> StartsWith(s, "/")
    ensures (p != [] && p[0] == "//") <==> StartsWith(s, "//") && !StartsWith(s, "///")
  {
    RootOf(s) + Parts(SplitOn(s, '/'))
  }

  /** `str(path)`. */
  function PathString(p: Path): string {
    if p == [] then "."
    else if IsRoot(p[0]) then p[0] + Join("/", p[1..])
    else Join("/", p)
  }

  lemma {:induction false} SplitJoin(cs: seq<string>)
    requires cs != [] && forall k :: 0 <= k < |cs| ==> '/' !in cs[k]
    ensures SplitOn(Join("/", cs), '/') == cs
    decreases |cs|
  {
    if |cs| == 1 {
      SplitOnNoSeparator(cs[0], '/');
    } else {
      SplitJoin(cs[1..]);
      assert Join("/", cs) == cs[0] + ['/'] + Join("/", cs[1..]);
      SplitOnAfter(cs[0], '/', Join("/", cs[1..]));
      assert [cs[0]] + cs[1..] == cs;
    }
  }

  lemma {:induction false} PartsOfComponents(cs: seq<string>)
    requires forall k :: 0 <= k < |cs| ==> IsComponent(cs[k])
    ensures forall k :: 0 <= k < |cs| ==> '/' !in cs[k]
    ensures Parts(cs) == cs
    decreases |cs|
  {
    if cs != [] {
      PartsOfComponents(cs[1..]);
      assert [cs[0]] + cs[1..] == cs;
    }
  }

  /** Printing a path and reading it back gives the same components. */
  lemma PathRoundTrip(p: Path)
    requires WellFormed(p)
    ensures PathOf(PathString(p)) == p
  {
    if p == [] {
      SplitOnNoSeparator(".", '/');
    } else if IsRoot(p[0]) {
      var cs := p[1..];
      assert forall k :: 0 <= k < |cs| ==> cs[k] == p[k + 1];
      AbsoluteRoundTrip(p[0], cs);
      assert [p[0]] + cs == p;
    } else {
      RelativeRoundTrip(p);
    }
  }

  lemma AbsoluteRoundTrip(root: string, cs: seq<string>)
    requires IsRoot(root)
    requires forall k :: 0 <= k < |cs| ==> IsComponent(cs[k])
    ensures PathOf(root + Join("/", cs)) == [root] + cs
  {
    if root == "/" {
      SingleRootRoundTrip(cs);
    } else {
      DoubleRootRoundTrip(cs);
    }
  }

  lemma SingleRootRoundTrip(cs: seq<string>)
    requires forall k :: 0 <= k < |cs| ==> IsComponent(cs[k])
    ensures PathOf("/" + Join("/", cs)) == ["/"] + cs
  {
    var j := Join("/", cs);
    JoinedComponents(cs);
    SplitAfterSeparator(j);
    RootOfSingle(j);
    PathOfParts("/" + j);
  }

  lemma DoubleRootRoundTrip(cs: seq<string>)
    requires forall k :: 0 <= k < |cs| ==> IsComponent(cs[k])
    ensures PathOf("//" + Join("/", cs)) == ["//"] + cs
  {
    var j := Join("/", cs);
    JoinedComponents(cs);
    SplitAfterDoubleSeparator(j);
    RootOfDouble(j);
    PathOfParts("//" + j);
  }

  /** Components joined by separators split back into them, and the
      string does not start with a separator. */
  lemma JoinedComponents(cs: seq<string>)
    requires forall k :: 0 <= k < |cs| ==> IsComponent(cs[k])
    ensures Parts(SplitOn(Join("/", cs), '/')) == cs
    ensures Join("/", cs) == [] || Join("/", cs)[0] != '/'
  {
    if cs == [] {
      assert SplitOn("", '/') == [""];
      assert Parts([""]) == Parts([""][1..]) == [];
    } else {
      SplitJoin(cs);
      PartsOfComponents(cs);
      JoinStartsWithFirst(cs);
    }
  }

  /** A leading separator adds one empty piece, which names nothing. */
  lemma SplitAfterSeparator(j: string)
    ensures SplitOn("/" + j, '/') == [""] + SplitOn(j, '/')
    ensures Parts(SplitOn("/" + j, '/')) == Parts(SplitOn(j, '/'))
  {
    var s := "/" + j;
    assert s[0] == '/' && s[1..] == j;
    assert ([""] + SplitOn(j, '/'))[1..] == SplitOn(j, '/');
  }

  lemma SplitAfterDoubleSeparator(j: string)
    ensures Parts(SplitOn("//" + j, '/')) == Parts(SplitOn(j, '/'))
  {
    assert "//" + j == "/" + ("/" + j);
    SplitAfterSeparator("/" + j);
    SplitAfterSeparator(j);
  }

  lemma RootOfSingle(j: string)
    requires j == [] || j[0] != '/'
    ensures RootOf("/" + j) == ["/"]
  {
    var s := "/" + j;
    assert s[..1] == "/";
    if |s| >= 2 {
      assert s[1] == j[0];
      assert s[..2] != "//";
    }
  }

  lemma RootOfDouble(j: string)
    requires j == [] || j[0] != '/'
    ensures RootOf("//" + j) == ["//"]
  {
    var s := "//" + j;
    assert s[..2] == "//";
    if |s| >= 3 {
      assert s[2] == j[0];
      assert s[..3] != "///";
    }
  }

  lemma RootOfRelative(s: string)
    requires s == [] || s[0] != '/'
    ensures RootOf(s) == []
  {
    if s != [] {
      assert s[..1] != "/";
      if |s| >= 2 {
        assert s[..2][0] == s[0];
      }
    }
  }

  lemma RelativeRoundTrip(p: Path)
    requires p != [] && forall k :: 0 <= k < |p| ==> IsComponent(p[k])
    ensures PathOf(Join("/", p)) == p
  {
    var s := Join("/", p);
    JoinedComponents(p);
    JoinStartsWithFirst(p);
    assert s[0] != '/';
    RootOfRelative(s);
    PathOfParts(s);
  }

  lemma PathOfParts(s: string)
    ensures PathOf(s) == RootOf(s) + Parts(SplitOn(s, '/'))
  {
  }

  lemma JoinStartsWithFirst(p: seq<string>)
    requires p != [] && p[0] != []
    ensures |Join("/", p)| > 0 && Join("/", p)[0] == p[0][0]
  {
    if |p| > 1 {
      var j := Join("/", p);
      assert j == p[0] + ("/" + Join("/", p[1..]));
    }
  }

  // ---------------------------------------------------------------------
  // Dotfiles.__contains__

  /** What `in` is given: a string, a path, or any other object. */
  datatype Item = Str(s: string) | PathValue(p: Path) | Other

  /** `PurePath.is_relative_to`: `base` is a component prefix of `p`. */
  predicate IsRelativeTo(p: Path, base: Path) {
    |base| <= |p| && p[..|base|] == base
  }

  /** `item in Dotfiles(dotfiles)`. */
  predicate Contains(dotfiles: Path, item: Item) {
    match item
    case Str(s) => IsRelativeTo(PathOf(s), dotfiles)
    case PathValue(p) => IsRelativeTo(p, dotfiles)
    case Other => false
  }

  lemma OtherNotContained(dotfiles: Path)
    ensures !Contains(dotfiles, Other)
  {
  }

  /** A string is judged by the path it names. */
  lemma StrAsPath(dotfiles: Path, s: string)
    ensures Contains(dotfiles, Str(s)) == Contains(dotfiles, PathValue(PathOf(s)))
  {
  }

  /** Containment is exactly "the dotfiles components, then anything". */
  lemma ContainsIff(dotfiles: Path, p: Path)
    ensures Contains(dotfiles, PathValue(p)) <==> exists rest :: p == dotfiles + rest
  {
    if Contains(dotfiles, PathValue(p)) {
      assert p == dotfiles + p[|dotfiles|..];
    }
    if exists rest :: p == dotfiles + rest {
      var rest :| p == dotfiles + rest;
      assert p[..|dotfiles|] == dotfiles;
    }
  }

  lemma ContainsItself(dotfiles: Path)
    ensures Contains(dotfiles, PathValue(dotfiles))
  {
    assert dotfiles[..|dotfiles|] == dotfiles;
  }

  /** A string with exactly two leading separators names a path under the
      root "//", which is not the root "/" of the dotfiles directory. */
  lemma DoubleRootNotContained(dotfiles: Path, s: string)
    requires dotfiles != [] && dotfiles[0] == "/"
    requires StartsWith(s, "//") && !StartsWith(s, "///")
    ensures !Contains(dotfiles, Str(s))
  {
    var p := PathOf(s);
    assert p[0] == "//";
  }

  /** A sibling whose name merely starts with the same characters (say
      `.dotfiles-old` next to `.dotfiles`) is not inside it. */
  lemma SiblingNotContained(dotfiles: Path, c: string, rest: Path)
    requires dotfiles != [] && c != dotfiles[|dotfiles| - 1]
    ensures !Contains(dotfiles, PathValue(dotfiles[..|dotfiles| - 1] + [c] + rest))
  {
    var p := dotfiles[..|dotfiles| - 1] + [c] + rest;
    assert p[|dotfiles| - 1] == c;
  }

  // ---------------------------------------------------------------------
  // The main loop

  /** A directory entry of the home directory: its name, whether it is a
      symbolic link, and the path `resolve()` gives for it. */
  datatype Entry = Entry(name: string, isSymlink: bool, target: Path)

  /** What the loop does with a link it has chosen. */
  datatype Action = WouldRemove(link: Path, target: Path) | Removed(link: Path, target: Path)

  /** Only dot-files that are symbolic links are looked at. */
  predicate Considered(e: Entry) {
    StartsWith(e.name, ".") && e.isSymlink
  }

  predicate Chosen(dotfiles: Path, e: Entry) {
    Considered(e) && Contains(dotfiles, PathValue(e.target))
  }

  function ActionFor(home: Path, e: Entry, dryRun: bool): Action {
    if dryRun then WouldRemove(home + [e.name], e.target) else Removed(home + [e.name], e.target)
  }

  /** The actions for the entries, in directory order. */
  function Actions(home: Path, dotfiles: Path, es: seq<Entry>, dryRun: bool): (r: seq<Action>)
    ensures |r| <= |es|
    decreases |es|
  {
    if es == [] then []
    else
      var prev := Actions(home, dotfiles, es[..|es| - 1], dryRun);
      var e := es[|es| - 1];
      if Chosen(dotfiles, e) then prev + [ActionFor(home, e, dryRun)] else prev
  }

  /** The line printed for an action. */
  function Message(a: Action): (m: string)
    ensures a.WouldRemove? ==> StartsWith(m, "Would remove link ")
    ensures a.Removed? ==> StartsWith(m, "Removed link ")
  {
    match a
    case WouldRemove(l, t) => "Would remove link " + PathString(l) + " -> " + PathString(t)
    case Removed(l, t) => "Removed link " + PathString(l) + " -> " + PathString(t)
  }

  /** `main`: the `--dry-run` flag is set whether or not it was given, so
      every chosen link is only reported. */
  method Uninstall(home: Path, entries: seq<Entry>, dryRunFlag: bool) returns (actions: seq<Action>)
    ensures actions == Actions(home, home + [".dotfiles"], entries, true)
  {
    var dryRun := dryRunFlag;
    if !dryRun {
      dryRun := true;
    }
    actions := UnlinkAll(home, home + [".dotfiles"], entries, dryRun);
  }

  /** The loop over the home directory. */
  method UnlinkAll(home: Path, dotfiles: Path, entries: seq<Entry>, dryRun: bool) returns (actions: seq<Action>)
    ensures actions == Actions(home, dotfiles, entries, dryRun)
  {
    actions := [];
    var i := 0;
    while i < |entries|
      invariant 0 <= i <= |entries|
      invariant actions == Actions(home, dotfiles, entries[..i], dryRun)
    {
      var file := entries[i];
      assert entries[..i + 1][..i] == entries[..i];
      if !StartsWith(file.name, ".") {
        i := i + 1;
        continue;
      }
      if !file.isSymlink {
        i := i + 1;
        continue;
      }
      if Contains(dotfiles, PathValue(file.target)) {
        if dryRun {
          actions := actions + [WouldRemove(home + [file.name], file.target)];
        } else {
          actions := actions + [Removed(home + [file.name], file.target)];
        }
      }
      i := i + 1;
    }
    assert entries[..i] == entries;
  }

  /** In a dry run nothing is removed. */
  lemma {:induction false} DryRunRemovesNothing(home: Path, dotfiles: Path, es: seq<Entry>)
    ensures forall k :: 0 <= k < |Actions(home, dotfiles, es, true)| ==>
              Actions(home, dotfiles, es, true)[k].WouldRemove?
    decreases |es|
  {
    if es != [] {
      DryRunRemovesNothing(home, dotfiles, es[..|es| - 1]);
    }
  }

  /** A link is acted on if and only if it is a dot-file symbolic link
      whose target lies inside the dotfiles directory. */
  lemma {:induction false} ActedOnIff(home: Path, dotfiles: Path, es: seq<Entry>, dryRun: bool, a: Action)
    ensures a in Actions(home, dotfiles, es, dryRun) <==>
            exists i :: 0 <= i < |es| && Chosen(dotfiles, es[i]) && a == ActionFor(home, es[i], dryRun)
    decreases |es|
  {
    if es != [] {
      var init := es[..|es| - 1];
      ActedOnIff(home, dotfiles, init, dryRun, a);
      if a in Actions(home, dotfiles, es, dryRun) {
        if a in Actions(home, dotfiles, init, dryRun) {
          var i :| 0 <= i < |init| && Chosen(dotfiles, init[i]) && a == ActionFor(home, init[i], dryRun);
          assert es[i] == init[i];
        } else {
          assert a == ActionFor(home, es[|es| - 1], dryRun);
        }
      }
      if exists i :: 0 <= i < |es| && Chosen(dotfiles, es[i]) && a == ActionFor(home, es[i], dryRun) {
        var i :| 0 <= i < |es| && Chosen(dotfiles, es[i]) && a == ActionFor(home, es[i], dryRun);
        if i < |init| {
          assert init[i] == es[i];
        }
      }
    }
  }

  /** The whole program: whatever the flag, every action is a report. */
  lemma NeverUnlinks(home: Path, entries: seq<Entry>)
    ensures forall a :: a in Actions(home, home + [".dotfiles"], entries, true) ==> a.WouldRemove?
  {
    DryRunRemovesNothing(home, home + [".dotfiles"], entries);
  }
}
