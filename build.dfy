/** The installer builder `installers/build.py`: it writes `install.sh` by
    copying `installers/install.sh` and expanding its `# ... source=FILE`
    directives, recursively, with the contents of the named files minus
    their prelude. Files are a map from path to their lines (each with
    its line end); the destination is the sequence of strings written. */
module Build {
  import opened Wrappers
  import opened Text

  // ---------------------------------------------------------------------
  // The two patterns

  /** `^set -eu\s*$`: the line that closes a prelude. */
  predicate IsPreludeEnd(line: string) {
    StartsWith(line, "set -eu") && forall k :: 7 <= k < |line| ==> IsSpace(line[k])
  }

  /** The end of the run of non-whitespace characters from `i`. */
  function NonSpaceRun(s: string, i: nat): (j: nat)
    requires i <= |s|
    ensures i <= j <= |s|
    ensures forall k :: i <= k < j ==> !IsSpace(s[k])
    ensures j < |s| ==> IsSpace(s[j])
    decreases |s| - i
  {
    if i < |s| && !IsSpace(s[i]) then NonSpaceRun(s, i + 1) else i
  }

  /** What `source=(\w\S+)` captures when the lazy `.*?` has consumed
      `line[1..i]`; otherwise `.*?` takes one more character, which may not
      be a newline. */
  function DirectiveFrom(line: string, i: nat): (r: Option<string>)
    requires 1 <= i <= |line|
    ensures r.Some? ==> |r.value| >= 2 && IsWordChar(r.value[0])
                        && forall k :: 0 <= k < |r.value| ==> !IsSpace(r.value[k])
    decreases |line| - i
  {
    if OccursAt(line, "source=", i) && i + 8 < |line|
       && IsWordChar(line[i + 7]) && !IsSpace(line[i + 8])
    then
      var n := line[i + 7..NonSpaceRun(line, i + 8)];
      assert forall k :: 0 <= k < |n| ==> n[k] == line[i + 7 + k];
      Some(n)
    else if i < |line| && line[i] != '\n' then DirectiveFrom(line, i + 1)
    else None
  }

  /** `^#.*?source=(\w\S+)`: the file an include directive names. */
  function Directive(line: string): (r: Option<string>)
    ensures r.Some? ==> |line| > 0 && line[0] == '#'
  {
    if |line| == 0 || line[0] != '#' then None else DirectiveFrom(line, 1)
  }

  /** A comment `# source=<name>` followed by whitespace names `name`. */
  lemma DirectiveNames(name: string, tail: string)
    requires |name| >= 2 && IsWordChar(name[0])
    requires forall k :: 0 <= k < |name| ==> !IsSpace(name[k])
    requires tail == [] || IsSpace(tail[0])
    ensures Directive("# source=" + name + tail) == Some(name)
  {
    var line := "# source=" + name + tail;
    assert line[1] == ' ';
    assert !OccursAt(line, "source=", 1);
    assert line[2..9] == "source=";
    assert line[9] == name[0] && line[10] == name[1];
    assert NonSpaceRun(line, 10) == 9 + |name| by {
      NonSpaceRunOver(line, 10, 9 + |name|);
    }
    assert line[9..9 + |name|] == name;
    assert DirectiveFrom(line, 2) == Some(name);
  }

  lemma {:induction false} NonSpaceRunOver(s: string, i: nat, j: nat)
    requires i <= j <= |s|
    requires forall k :: i <= k < j ==> !IsSpace(s[k])
    requires j < |s| ==> IsSpace(s[j])
    ensures NonSpaceRun(s, i) == j
    decreases j - i
  {
    if i < j {
      NonSpaceRunOver(s, i + 1, j);
    }
  }

  // ---------------------------------------------------------------------
  // Expansion

  datatype BuildError =
    | Missing(path: string)                 // the file cannot be opened
    | NoContentAfterPrelude(path: string)   // the `ValueError`
    | TooDeep(path: string)                 // the include nesting ran out

  /** What has been written, and the error that ended the build, if any. */
  datatype Written = Written(out: seq<string>, err: Option<BuildError>)

  /** Writing `out` and then carrying on as `w` does. */
  function Then(out: seq<string>, w: Written): Written {
    Written(out + w.out, w.err)
  }

  function Begin(path: string): string {
    "# BEGIN included from " + path + "\n"
  }

  function End(path: string): string {
    "# END included from " + path + "\n"
  }

  /** The first prelude end at or after `i`. */
  function PreludeEnd(ls: seq<string>, i: nat): (r: Option<nat>)
    requires i <= |ls|
    ensures r.Some? ==> i <= r.value < |ls| && IsPreludeEnd(ls[r.value])
                        && forall k :: i <= k < r.value ==> !IsPreludeEnd(ls[k])
    ensures r.None? ==> forall k :: i <= k < |ls| ==> !IsPreludeEnd(ls[k])
    decreases |ls| - i
  {
    if i == |ls| then None
    else if IsPreludeEnd(ls[i]) then Some(i)
    else PreludeEnd(ls, i + 1)
  }

  /** `process_includes` on a file: with `prelude` set every line is
      processed; without it, the lines up to the first prelude end are
      skipped, and a file without one is an error. Includes nest at most
      `fuel` deep. */
  function ExpandFile(files: map<string, seq<string>>, name: string, dotfiles: string,
                      prelude: bool, fuel: nat): (r: Written)
    ensures r.err.None? ==> name in files && (prelude || PreludeEnd(files[name], 0).Some?)
    decreases fuel, 1
  {
    if name !in files then Written([], Some(Missing(name)))
    else if prelude then ExpandLines(files, files[name], 0, dotfiles, fuel)
    else match PreludeEnd(files[name], 0)
      case None => Written([], Some(NoContentAfterPrelude(name)))
      case Some(k) => ExpandLines(files, files[name], k + 1, dotfiles, fuel)
  }

  /** The lines from `i` on, after the prelude: a directive is replaced by
      the included file between BEGIN and END markers, and the line after
      it is dropped; every other line is copied. */
  function ExpandLines(files: map<string, seq<string>>, ls: seq<string>, i: nat, dotfiles: string,
                       fuel: nat): Written
    decreases fuel, 0, |ls| - i
  {
    if i >= |ls| then Written([], None)
    else match Directive(ls[i])
      case None => Then([ls[i]], ExpandLines(files, ls, i + 1, dotfiles, fuel))
      case Some(n) =>
        var p := PathJoin(dotfiles, n);
        if fuel == 0 then Written([Begin(p)], Some(TooDeep(p)))
        else
          var inner := ExpandFile(files, p, dotfiles, false, fuel - 1);
          if inner.err.Some? then Then([Begin(p)], inner)
          else Then([Begin(p)] + inner.out + [End(p)], ExpandLines(files, ls, i + 2, dotfiles, fuel))
  }

  /** `process_includes`: one loop over the lines of the file, first in the
      prelude phase (unless `prelude` is given), then copying and
      expanding. */
  method ProcessIncludes(files: map<string, seq<string>>, filename: string, dotfiles: string,
                         prelude0: bool, fuel: nat)
    returns (out: seq<string>, err: Option<BuildError>)
    ensures Written(out, err) == ExpandFile(files, filename, dotfiles, prelude0, fuel)
    decreases fuel, 1
  {
    out := [];
    if filename !in files {
      return out, Some(Missing(filename));
    }
    var ls := files[filename];
    var prelude := prelude0;
    var i := 0;
    while true
      invariant i <= |ls| + 1
      invariant !prelude ==> out == [] && !prelude0 && i <= |ls|
                             && PreludeEnd(ls, i) == PreludeEnd(ls, 0)
      invariant prelude ==> Then(out, ExpandLines(files, ls, i, dotfiles, fuel))
                            == ExpandFile(files, filename, dotfiles, prelude0, fuel)
      decreases |ls| + 2 - i, if prelude then 0 else 1
    {
      if !prelude {
        if i == |ls| {
          return out, Some(NoContentAfterPrelude(filename));
        }
        if IsPreludeEnd(ls[i]) {
          prelude := true;
        }
        i := i + 1;
        continue;
      }
      if i >= |ls| {
        break;
      }
      var written, next, e := ProcessLine(files, ls, i, dotfiles, fuel);
      out := out + written;
      if e.Some? {
        return out, e;
      }
      i := next;
    }
    err := None;
  }

  /** One line after the prelude: copied, or, for a directive, the skipped
      line consumed and the include written between its markers. */
  method ProcessLine(files: map<string, seq<string>>, ls: seq<string>, i: nat, dotfiles: string, fuel: nat)
    returns (written: seq<string>, next: nat, e: Option<BuildError>)
    requires i < |ls|
    ensures i < next <= |ls| + 1
    ensures e.None? ==> ExpandLines(files, ls, i, dotfiles, fuel)
                        == Then(written, ExpandLines(files, ls, next, dotfiles, fuel))
    ensures e.Some? ==> ExpandLines(files, ls, i, dotfiles, fuel) == Written(written, e)
    decreases fuel, 0
  {
    var line := ls[i];
    next := i + 1;
    var m := Directive(line);
    if m.None? {
      return [line], next, None;
    }
    next := next + 1;
    var p := PathJoin(dotfiles, m.value);
    written := [Begin(p)];
    if fuel == 0 {
      return written, next, Some(TooDeep(p));
    }
    var sub;
    sub, e := ProcessIncludes(files, p, dotfiles, false, fuel - 1);
    written := written + sub;
    if e.None? {
      written := written + [End(p)];
    }
  }

  // ---------------------------------------------------------------------
  // Properties

  predicate NoDirectives(ls: seq<string>, i: nat) {
    forall k :: i <= k < |ls| ==> Directive(ls[k]).None?
  }

  /** Lines without directives are copied verbatim and in order. */
  lemma {:induction false} PlainLinesCopied(files: map<string, seq<string>>, ls: seq<string>, i: nat,
                                            dotfiles: string, fuel: nat)
    requires i <= |ls| && NoDirectives(ls, i)
    ensures ExpandLines(files, ls, i, dotfiles, fuel) == Written(ls[i..], None)
    decreases |ls| - i
  {
    if i < |ls| {
      PlainLinesCopied(files, ls, i + 1, dotfiles, fuel);
      assert ls[i..] == [ls[i]] + ls[i + 1..];
    }
  }

  /** The top-level file is processed with its prelude: without
      directives, it is written out whole. */
  lemma TopLevelCopied(files: map<string, seq<string>>, name: string, dotfiles: string, fuel: nat)
    requires name in files && NoDirectives(files[name], 0)
    ensures ExpandFile(files, name, dotfiles, true, fuel) == Written(files[name], None)
  {
    PlainLinesCopied(files, files[name], 0, dotfiles, fuel);
  }

  /** An included file loses its lines up to and including the first
      prelude end; one without a prelude end is an error and writes
      nothing. */
  lemma IncludedPreludeSkipped(files: map<string, seq<string>>, name: string, dotfiles: string, fuel: nat)
    requires name in files
    ensures var ls := files[name];
            var w := ExpandFile(files, name, dotfiles, false, fuel);
            (forall k :: 0 <= k < |ls| ==> !IsPreludeEnd(ls[k]))
              ==> w == Written([], Some(NoContentAfterPrelude(name)))
    ensures var ls := files[name];
            var w := ExpandFile(files, name, dotfiles, false, fuel);
            forall k :: 0 <= k < |ls| && IsPreludeEnd(ls[k])
                        && (forall j :: 0 <= j < k ==> !IsPreludeEnd(ls[j]))
                        && NoDirectives(ls, k + 1)
              ==> w == Written(ls[k + 1..], None)
  {
    var ls := files[name];
    forall k | 0 <= k < |ls| && IsPreludeEnd(ls[k])
               && (forall j :: 0 <= j < k ==> !IsPreludeEnd(ls[j]))
               && NoDirectives(ls, k + 1)
      ensures ExpandFile(files, name, dotfiles, false, fuel) == Written(ls[k + 1..], None)
    {
      assert PreludeEnd(ls, 0) == Some(k);
      PlainLinesCopied(files, ls, k + 1, dotfiles, fuel);
    }
  }

  /** A directive whose file expands without error is replaced by that
      expansion between the BEGIN and END markers of the joined path, and
      the next line, if there is one, is dropped. */
  lemma DirectiveExpanded(files: map<string, seq<string>>, ls: seq<string>, i: nat,
                          dotfiles: string, fuel: nat)
    requires i < |ls| && Directive(ls[i]).Some? && fuel > 0
    ensures var p := PathJoin(dotfiles, Directive(ls[i]).value);
            var inner := ExpandFile(files, p, dotfiles, false, fuel - 1);
            var w := ExpandLines(files, ls, i, dotfiles, fuel);
            (inner.err.None? ==>
               w == Then([Begin(p)] + inner.out + [End(p)],
                         if i + 2 <= |ls| then ExpandLines(files, ls, i + 2, dotfiles, fuel)
                         else Written([], None)))
            && (inner.err.Some? ==> w == Written([Begin(p)] + inner.out, inner.err))
  {
  }

  /** A directive on the last line ends the file without error once its
      include has expanded. */
  lemma DirectiveAtEnd(files: map<string, seq<string>>, ls: seq<string>, dotfiles: string, fuel: nat)
    requires |ls| > 0 && Directive(ls[|ls| - 1]).Some? && fuel > 0
    requires ExpandFile(files, PathJoin(dotfiles, Directive(ls[|ls| - 1]).value), dotfiles, false, fuel - 1).err.None?
    ensures ExpandLines(files, ls, |ls| - 1, dotfiles, fuel).err.None?
  {
  }

  /** A run of plain lines is written as it is before whatever the lines
      after it produce, error or not. */
  lemma {:induction false} PlainPrefixCopied(files: map<string, seq<string>>, ls: seq<string>, i: nat,
                                                   j: nat, dotfiles: string, fuel: nat)
    requires i <= j <= |ls| && NoDirectives(ls[..j], i)
    ensures ExpandLines(files, ls, i, dotfiles, fuel)
            == Then(ls[i..j], ExpandLines(files, ls, j, dotfiles, fuel))
    decreases j - i
  {
    if i < j {
      assert ls[..j][i] == ls[i];
      assert Directive(ls[i]).None?;
      assert NoDirectives(ls[..j], i + 1);
      PlainPrefixCopied(files, ls, i + 1, j, dotfiles, fuel);
      var rest := ExpandLines(files, ls, j, dotfiles, fuel);
      assert ExpandLines(files, ls, i, dotfiles, fuel)
             == Then([ls[i]], Then(ls[i + 1..j], rest));
      assert ls[i..j] == [ls[i]] + ls[i + 1..j];
      AppendAssoc([ls[i]], ls[i + 1..j], rest.out);
    } else {
      assert ls[i..j] == [];
    }
  }

  /** A line closes a prelude exactly when it is `set -eu` followed by
      whitespace only, its line end included; `set -eux` does not. */
  lemma PreludeEndLine(line: string)
    ensures IsPreludeEnd(line) <==>
      exists ws :: (forall k :: 0 <= k < |ws| ==> IsSpace(ws[k])) && line == "set -eu" + ws
    ensures IsPreludeEnd("set -eu\n") && IsPreludeEnd("set -eu")
    ensures !IsPreludeEnd("set -eux\n")
  {
    if IsPreludeEnd(line) {
      var ws := line[7..];
      assert forall k :: 0 <= k < |ws| ==> ws[k] == line[k + 7];
      assert line == "set -eu" + ws;
    }
    if exists ws :: (forall k :: 0 <= k < |ws| ==> IsSpace(ws[k])) && line == "set -eu" + ws {
      var ws :| (forall k :: 0 <= k < |ws| ==> IsSpace(ws[k])) && line == "set -eu" + ws;
      assert line[..7] == "set -eu";
      assert forall k :: 7 <= k < |line| ==> line[k] == ws[k - 7];
    }
    assert "set -eux\n"[7] == 'x';
    assert "set -eu\n"[..7] == "set -eu";
  }
}
