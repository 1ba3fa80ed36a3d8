/** The dotfile installer of `install.py`: every `.symlink` file and every
    `.dir` directory in a topic directory of the dotfiles repository is linked into the
    home directory as a dot-name; when the name is already taken the user
    chooses (once, or for all remaining items) to skip, back up or
    overwrite. The disk and the keyboard are objects the installer acts on. */
module Install {
  import opened Wrappers
  import opened Text

  /** A change the installer makes on disk. */
  datatype Effect = Renamed(from: string, to: string) | Removed(path: string) | Linked(source: string, target: string)

  /** Why an install run ends early: `q` at the prompt (`SystemExit`), the
      end of the input, or a mode `_install` does not understand (`ValueError`). */
  datatype Stop = Quit | NoInput | BadMode(mode: char)

  /** The paths that exist, and the changes made so far. */
  class Disk {
    var present: set<string>
    var log: seq<Effect>

    constructor (present0: set<string>)
      ensures present == present0 && log == []
    {
      present := present0;
      log := [];
    }

    /** `os.rename`, which replaces an existing destination. */
    method Rename(from: string, to: string)
      modifies this
      ensures present == old(present) - {from} + {to} && log == old(log) + [Renamed(from, to)]
    {
      present := present - {from} + {to};
      log := log + [Renamed(from, to)];
    }

    /** `os.remove`. */
    method Remove(path: string)
      modifies this
      ensures present == old(present) - {path} && log == old(log) + [Removed(path)]
    {
      present := present - {path};
      log := log + [Removed(path)];
    }

    /** `os.symlink`. */
    method Symlink(source: string, target: string)
      modifies this
      ensures present == old(present) + {target} && log == old(log) + [Linked(source, target)]
    {
      present := present + {target};
      log := log + [Linked(source, target)];
    }
  }

  /** The keys still to be read by `getch`. */
  class Keyboard {
    var keys: seq<char>

    constructor (keys0: seq<char>)
      ensures keys == keys0
    {
      keys := keys0;
    }
  }

  // ---------------------------------------------------------------------
  // ask

  const Choices: string := "sSoObB"
  const QuitKeys: string := "qQ"

  /** A key that ends the prompt. */
  predicate Decisive(c: char) {
    c in Choices || c in QuitKeys
  }

  /** How the prompt ends and how many keys it reads. */
  datatype Answer = Chosen(mode: char, used: nat) | Quits(used: nat) | Exhausted

  function Shift(a: Answer, n: nat): Answer {
    match a
    case Chosen(m, u) => Chosen(m, u + n)
    case Quits(u) => Quits(u + n)
    case Exhausted => Exhausted
  }

  /** `ask`'s loop on the keys typed: keys other than a choice or `q`/`Q`
      are refused and the prompt repeats. */
  function AnswerOf(keys: seq<char>): (a: Answer)
    ensures a.Chosen? || a.Quits? ==> 0 < a.used <= |keys|
    decreases |keys|
  {
    if keys == [] then Exhausted
    else if keys[0] in Choices then Chosen(keys[0], 1)
    else if keys[0] in QuitKeys then Quits(1)
    else Shift(AnswerOf(keys[1..]), 1)
  }

  /** The prompt ends on the first decisive key: a choice becomes the mode,
      `q`/`Q` quits, and without one the input runs out. */
  lemma {:induction false} AnswerIsFirstDecisive(keys: seq<char>)
    ensures match AnswerOf(keys)
      case Chosen(m, u) =>
        0 < u <= |keys| && keys[u - 1] == m && m in Choices && forall j :: 0 <= j < u - 1 ==> !Decisive(keys[j])
      case Quits(u) =>
        0 < u <= |keys| && keys[u - 1] in QuitKeys && forall j :: 0 <= j < u - 1 ==> !Decisive(keys[j])
      case Exhausted => forall j :: 0 <= j < |keys| ==> !Decisive(keys[j])
    decreases |keys|
  {
    if keys != [] && !Decisive(keys[0]) {
      AnswerIsFirstDecisive(keys[1..]);
      match AnswerOf(keys[1..])
      case Chosen(m, u) =>
        forall j | 0 <= j < u ensures !Decisive(keys[j]) {
          if j > 0 {
            assert keys[j] == keys[1..][j - 1];
          }
        }
      case Quits(u) =>
        forall j | 0 <= j < u ensures !Decisive(keys[j]) {
          if j > 0 {
            assert keys[j] == keys[1..][j - 1];
          }
        }
      case Exhausted =>
        forall j | 0 <= j < |keys| ensures !Decisive(keys[j]) {
          if j > 0 {
            assert keys[j] == keys[1..][j - 1];
          }
        }
    }
  }

  // ---------------------------------------------------------------------
  // backup

  /** The `i`-th backup name `backup` tries. */
  function Candidate(target: string, i: nat): string {
    target + ".backup" + (if i == 0 then "" else NatToDecimal(i))
  }

  /** The name `backup` renames to, trying candidates `i .. n - 1`: the
      first one that does not exist, else the last one tried. */
  function FirstFree(target: string, i: nat, n: nat, present: set<string>): (r: string)
    ensures r in present ==> forall j :: i <= j < n ==> Candidate(target, j) in present
    decreases n - i
  {
    if i >= n then Candidate(target, if n == 0 then 0 else n - 1)
    else if Candidate(target, i) !in present then Candidate(target, i)
    else FirstFree(target, i + 1, n, present)
  }

  /** The backup name: an existing file is overwritten only when every
      candidate exists. */
  function BackupName(target: string, n: nat, present: set<string>): (r: string)
    ensures r in present ==> forall j :: 0 <= j < n ==> Candidate(target, j) in present
  {
    FirstFree(target, 0, n, present)
  }

  /** The backup goes to the first candidate that does not exist. */
  lemma {:induction false} BackupPicksFirstFree(target: string, n: nat, present: set<string>, k: nat)
    requires k < n && Candidate(target, k) !in present
    requires forall j :: 0 <= j < k ==> Candidate(target, j) in present
    ensures BackupName(target, n, present) == Candidate(target, k)
  {
    var i := 0;
    while i < k
      invariant 0 <= i <= k
      invariant FirstFree(target, i, n, present) == BackupName(target, n, present)
    {
      i := i + 1;
    }
  }

  /** When every candidate exists, the last one is overwritten; with no
      candidates to try, the plain `.backup` name is. */
  lemma {:induction false} BackupOverwritesLast(target: string, n: nat, present: set<string>)
    requires forall j :: 0 <= j < n ==> Candidate(target, j) in present
    ensures BackupName(target, n, present) == Candidate(target, if n == 0 then 0 else n - 1)
  {
    var i := 0;
    while i < n
      invariant 0 <= i <= n
      invariant FirstFree(target, i, n, present) == BackupName(target, n, present)
    {
      i := i + 1;
    }
  }

  // ---------------------------------------------------------------------
  // the state of a run

  /** Everything an install run changes: the installer's mode, the disk,
      the keys left, and why it stopped. */
  datatype Run = Run(mode: char, present: set<string>, log: seq<Effect>, keys: seq<char>, stop: Option<Stop>)

  function Apply(r: Run, e: Effect): Run {
    match e
    case Renamed(from, to) => r.(present := r.present - {from} + {to}, log := r.log + [e])
    case Removed(p) => r.(present := r.present - {p}, log := r.log + [e])
    case Linked(_, t) => r.(present := r.present + {t}, log := r.log + [e])
  }

  /** `ask` on a run. */
  function AskRun(r: Run): Run {
    match AnswerOf(r.keys)
    case Chosen(m, u) => r.(mode := m, keys := r.keys[u..])
    case Quits(u) => r.(keys := r.keys[u..], stop := Some(Quit))
    case Exhausted => r.(keys := [], stop := Some(NoInput))
  }

  /** `_install(source, target)` with `n` backup candidates. */
  function InstallOne(n: nat, r: Run, source: string, target: string): (a: Run)
    ensures a.stop.None? ==> target in a.present
  {
    if target !in r.present then Apply(r, Linked(source, target))
    else
      var asked := if r.mode == 'i' then AskRun(r) else r;
      if asked.stop.Some? then asked
      else if asked.mode in "sS" then asked
      else if asked.mode in "bB" then
        Apply(Apply(asked, Renamed(target, BackupName(target, n, asked.present))), Linked(source, target))
      else if asked.mode in "oO" then Apply(Apply(asked, Removed(target)), Linked(source, target))
      else asked.(stop := Some(BadMode(asked.mode)))
  }

  /** A free target is linked at once: nothing is asked and the mode stays. */
  lemma FreeTargetLinked(n: nat, r: Run, source: string, target: string)
    requires target !in r.present
    ensures var a := InstallOne(n, r, source, target);
      a.log == r.log + [Linked(source, target)] && a.present == r.present + {target}
      && a.mode == r.mode && a.keys == r.keys && a.stop == r.stop
  {
  }

  /** A taken target, once the mode is known: skip changes nothing, backup
      renames to the backup name then links, overwrite removes then links,
      any other mode stops the run. */
  lemma TakenTargetByMode(n: nat, r: Run, source: string, target: string)
    requires target in r.present && r.mode != 'i' && r.stop.None?
    ensures var a := InstallOne(n, r, source, target);
      a.mode == r.mode && a.keys == r.keys
      && (r.mode in "sS" ==> a == r)
      && (r.mode in "bB" ==> a.stop.None? && a.log == r.log + [Renamed(target, BackupName(target, n, r.present)), Linked(source, target)])
      && (r.mode in "oO" ==> a.stop.None? && a.log == r.log + [Removed(target), Linked(source, target)]
                             && a.present == r.present)
      && (r.mode !in "sSbBoO" ==> a.stop == Some(BadMode(r.mode)) && a.log == r.log)
  {
  }

  /** Mode `i` asks: the chosen mode is used for this item. */
  lemma AskedModeUsed(n: nat, r: Run, source: string, target: string)
    requires target in r.present && r.mode == 'i' && r.stop.None?
    ensures var a := InstallOne(n, r, source, target);
      match AnswerOf(r.keys)
      case Chosen(m, u) => a.mode == m && a.keys == r.keys[u..] && (a.stop.None? <==> m in "bBoO" || m in "sS")
      case Quits(_) => a.stop == Some(Quit) && a.log == r.log
      case Exhausted => a.stop == Some(NoInput) && a.log == r.log
  {
    AnswerIsFirstDecisive(r.keys);
  }

  // ---------------------------------------------------------------------
  // install

  /** One glob match: its path, the path the link points to (relative to
      home), and whether the target already resolves inside the dotfiles
      directory (`correct`). */
  datatype Item = Item(filename: string, source: string, linked: bool)

  /** `join(home, "." + splitext(basename(filename))[0])`. */
  function TargetOf(home: string, filename: string): string {
    PathJoin(home, "." + SplitExtRoot(Basename(filename)))
  }

  /** The mode after an item: a lowercase choice applies to one item only. */
  function Reset(mode: char): char {
    if 'a' <= mode <= 'z' then 'i' else mode
  }

  /** One iteration of `install`'s loops. */
  function InstallItem(n: nat, home: string, r: Run, it: Item): Run {
    var target := TargetOf(home, it.filename);
    var after := if target in r.present && it.linked then r else InstallOne(n, r, it.source, target);
    if after.stop.Some? then after else after.(mode := Reset(after.mode))
  }

  /** `install` over the glob matches in order, ending at the first stop. */
  function InstallAll(n: nat, home: string, r: Run, items: seq<Item>): Run
    decreases |items|
  {
    if items == [] then r
    else
      var prev := InstallAll(n, home, r, items[..|items| - 1]);
      if prev.stop.Some? then prev else InstallItem(n, home, prev, items[|items| - 1])
  }

  /** The modes a run can be in between items. */
  predicate Resting(mode: char) {
    mode == 'i' || mode in "SOB"
  }

  /** One item keeps the mode resting. */
  lemma ItemKeepsResting(n: nat, home: string, r: Run, it: Item)
    requires Resting(r.mode) && r.stop.None?
    ensures InstallItem(n, home, r, it).stop.None? ==> Resting(InstallItem(n, home, r, it).mode)
  {
    var target := TargetOf(home, it.filename);
    var after := if target in r.present && it.linked then r else InstallOne(n, r, it.source, target);
    assert InstallItem(n, home, r, it) == if after.stop.Some? then after else after.(mode := Reset(after.mode));
    if after.stop.None? {
      if !(target in r.present && it.linked) {
        InstallOneMode(n, r, it.source, target);
      }
      assert after.mode == r.mode || after.mode in Choices;
    }
  }

  /** `_install` leaves the mode as it was or sets it to a choice. */
  lemma InstallOneMode(n: nat, r: Run, source: string, target: string)
    requires r.stop.None?
    ensures var a := InstallOne(n, r, source, target);
      a.stop.None? ==> a.mode == r.mode || a.mode in Choices
  {
    if target in r.present && r.mode == 'i' {
      AnswerIsFirstDecisive(r.keys);
    }
  }

  /** Between items the mode is `i` or an uppercase choice. */
  lemma {:induction false} ModeBetweenItems(n: nat, home: string, r: Run, items: seq<Item>)
    requires Resting(r.mode) && r.stop.None?
    ensures InstallAll(n, home, r, items).stop.None? ==> Resting(InstallAll(n, home, r, items).mode)
    decreases |items|
  {
    if items != [] {
      var prev := InstallAll(n, home, r, items[..|items| - 1]);
      ModeBetweenItems(n, home, r, items[..|items| - 1]);
      if prev.stop.None? {
        ItemKeepsResting(n, home, prev, items[|items| - 1]);
      }
    }
  }

  /** With an uppercase mode an item asks nothing and keeps the mode. */
  lemma ItemKeepsUppercase(n: nat, home: string, r: Run, it: Item)
    requires r.mode in "SOB" && r.stop.None?
    ensures var a := InstallItem(n, home, r, it);
      a.mode == r.mode && a.keys == r.keys && a.stop.None?
  {
    var target := TargetOf(home, it.filename);
    if !(target in r.present && it.linked) {
      InstallOneDecided(n, r, it.source, target);
    }
  }

  /** With a mode already chosen `_install` asks nothing and keeps it. */
  lemma InstallOneDecided(n: nat, r: Run, source: string, target: string)
    requires r.mode in "SOB" && r.stop.None?
    ensures var a := InstallOne(n, r, source, target);
      a.mode == r.mode && a.keys == r.keys && a.stop.None?
  {
  }

  /** An uppercase choice holds for every later item: nothing more is asked. */
  lemma {:induction false} UppercasePersists(n: nat, home: string, r: Run, items: seq<Item>)
    requires r.mode in "SOB" && r.stop.None?
    ensures var a := InstallAll(n, home, r, items);
      a.mode == r.mode && a.keys == r.keys && a.stop.None?
    decreases |items|
  {
    if items != [] {
      UppercasePersists(n, home, r, items[..|items| - 1]);
      ItemKeepsUppercase(n, home, InstallAll(n, home, r, items[..|items| - 1]), items[|items| - 1]);
    }
  }

  /** An item whose target exists and already points into the dotfiles
      leaves the disk alone. */
  lemma LinkedItemUntouched(n: nat, home: string, r: Run, it: Item)
    requires TargetOf(home, it.filename) in r.present && it.linked && r.stop.None?
    ensures InstallItem(n, home, r, it) == r.(mode := Reset(r.mode))
  {
  }

  /** A `name.symlink` (or `name.dir`) file in a topic directory is linked
      as `home/.name`. */
  lemma TargetNaming(home: string, topic: string, name: string, ext: string)
    requires name != [] && '/' !in name && '.' !in name && '/' !in ext && '.' !in ext
    ensures TargetOf(home, topic + "/" + name + "." + ext) == PathJoin(home, "." + name)
  {
    var base := name + "." + ext;
    BasenameOfLast(topic, base);
    assert topic + "/" + name + "." + ext == topic + "/" + base;
    assert base[|name|] == '.' && base[..|name|] == name;
    assert forall j :: |name| < j < |base| ==> base[j] == ext[j - |name| - 1];
    assert LastDot(base) == |name|;
    assert LeadingDots(base) == 0;
  }

  lemma {:induction false} BasenameOfLast(dir: string, base: string)
    requires '/' !in base
    ensures Basename(dir + "/" + base) == base
    decreases |base|
  {
    var p := dir + "/" + base;
    if base == [] {
      assert p[|p| - 1] == '/';
    } else {
      var init, last := base[..|base| - 1], base[|base| - 1];
      var q := dir + "/" + init;
      assert base == init + [last];
      assert p == q + [last];
      assert p[..|p| - 1] == q;
      assert forall j :: 0 <= j < |init| ==> init[j] == base[j];
      assert '/' !in init;
      BasenameOfLast(dir, init);
      assert Basename(p) == Basename(q) + [last];
    }
  }

  /** The installer: its mode and the number of backup names it tries. */
  class Installer {
    var mode: char
    const backupCheck: nat

    constructor (mode0: char, backupCheck0: nat)
      ensures mode == mode0 && backupCheck == backupCheck0
    {
      mode := mode0;
      backupCheck := backupCheck0;
    }

    /** The run the installer, the disk and the keyboard make up. */
    function State(disk: Disk, kb: Keyboard, stop: Option<Stop>): Run
      reads this, disk, kb
    {
      Run(mode, disk.present, disk.log, kb.keys, stop)
    }

    /** `ask`: prompt until a decisive key. */
    method Ask(kb: Keyboard) returns (stop: Option<Stop>)
      modifies this, kb
      ensures mode == AskRun(Run(old(mode), {}, [], old(kb.keys), None)).mode
      ensures kb.keys == AskRun(Run(old(mode), {}, [], old(kb.keys), None)).keys
      ensures stop == AskRun(Run(old(mode), {}, [], old(kb.keys), None)).stop
    {
      ghost var keys0 := kb.keys;
      if kb.keys == [] {
        stop := Some(NoInput);
        return;
      }
      var c := kb.keys[0];
      kb.keys := kb.keys[1..];
      ghost var n: nat := 0;
      while c !in Choices
        invariant n < |keys0| && keys0[n] == c && kb.keys == keys0[n + 1..] && mode == old(mode)
        invariant AnswerOf(keys0) == Shift(AnswerOf(keys0[n..]), n)
        decreases |kb.keys|
      {
        assert keys0[n..][0] == c && keys0[n..][1..] == keys0[n + 1..];
        if c in QuitKeys {
          stop := Some(Quit);
          return;
        }
        if kb.keys == [] {
          kb.keys := [];
          stop := Some(NoInput);
          assert AnswerOf(keys0[n + 1..]) == Exhausted;
          return;
        }
        c := kb.keys[0];
        kb.keys := kb.keys[1..];
        n := n + 1;
      }
      mode := c;
      stop := None;
    }

    /** `backup`: rename the target to the first free backup name. */
    method Backup(target: string, disk: Disk)
      modifies disk
      ensures disk.present == old(disk.present) - {target} + {BackupName(target, backupCheck, old(disk.present))}
      ensures disk.log == old(disk.log) + [Renamed(target, BackupName(target, backupCheck, old(disk.present)))]
    {
      var name := target + ".backup";
      assert name == Candidate(target, 0);
      var i := 0;
      while i < backupCheck
        invariant 0 <= i <= backupCheck && disk.present == old(disk.present) && disk.log == old(disk.log)
        invariant FirstFree(target, i, backupCheck, disk.present) == BackupName(target, backupCheck, disk.present)
        invariant name == Candidate(target, if i == 0 then 0 else i - 1)
      {
        if i != 0 {
          name := target + ".backup" + NatToDecimal(i);
        }
        if name !in disk.present {
          disk.Rename(target, name);
          return;
        }
        i := i + 1;
      }
      disk.Rename(target, name);
    }

    /** `_install`: link the source at the target, deciding by mode when the
        target exists. */
    method InstallFile(source: string, target: string, disk: Disk, kb: Keyboard) returns (stop: Option<Stop>)
      requires disk != kb as object
      modifies this, disk, kb
      ensures State(disk, kb, stop) == InstallOne(backupCheck, old(State(disk, kb, None)), source, target)
    {
      stop := None;
      if target in disk.present {
        if mode == 'i' {
          stop := Ask(kb);
          if stop.Some? {
            return;
          }
        }
        if mode in "sS" {
          return;
        } else if mode in "bB" {
          Backup(target, disk);
        } else if mode in "oO" {
          disk.Remove(target);
        } else {
          stop := Some(BadMode(mode));
          return;
        }
      }
      disk.Symlink(source, target);
    }

    /** One iteration of `install`'s loops. */
    method InstallMatch(home: string, it: Item, disk: Disk, kb: Keyboard) returns (stop: Option<Stop>)
      requires disk != kb as object
      modifies this, disk, kb
      ensures State(disk, kb, stop) == InstallItem(backupCheck, home, old(State(disk, kb, None)), it)
    {
      stop := None;
      var target := TargetOf(home, it.filename);
      if !(target in disk.present && it.linked) {
        stop := InstallFile(it.source, target, disk, kb);
        if stop.Some? {
          return;
        }
      }
      if 'a' <= mode <= 'z' {
        mode := 'i';
      }
    }

    /** One of `install`'s loops, over the matches of one glob. */
    method InstallMatches(home: string, items: seq<Item>, disk: Disk, kb: Keyboard) returns (stop: Option<Stop>)
      requires disk != kb as object
      modifies this, disk, kb
      ensures State(disk, kb, stop) == InstallAll(backupCheck, home, old(State(disk, kb, None)), items)
    {
      ghost var r0 := State(disk, kb, None);
      stop := None;
      var i := 0;
      while i < |items|
        invariant 0 <= i <= |items|
        invariant State(disk, kb, None) == InstallAll(backupCheck, home, r0, items[..i]) && stop.None?
      {
        stop := NextMatch(home, items, i, r0, disk, kb);
        if stop.Some? {
          return;
        }
        i := i + 1;
      }
      assert items[..i] == items;
    }

    /** The loop body of `InstallMatches`: item `i` continues the run, or
        stops it for good. */
    method NextMatch(home: string, items: seq<Item>, i: nat, ghost r0: Run, disk: Disk, kb: Keyboard) returns (stop: Option<Stop>)
      requires disk != kb as object && i < |items|
      requires State(disk, kb, None) == InstallAll(backupCheck, home, r0, items[..i])
      modifies this, disk, kb
      ensures stop.None? ==> State(disk, kb, None) == InstallAll(backupCheck, home, r0, items[..i + 1])
      ensures stop.Some? ==> State(disk, kb, stop) == InstallAll(backupCheck, home, r0, items)
    {
      ghost var prev := State(disk, kb, None);
      stop := InstallMatch(home, items[i], disk, kb);
      NextItem(backupCheck, home, r0, items, i, prev, State(disk, kb, stop));
    }

    /** `install`: the `.symlink` files, then the `.dir` directories. */
    method InstallAllItems(home: string, links: seq<Item>, dirs: seq<Item>, disk: Disk, kb: Keyboard) returns (stop: Option<Stop>)
      requires disk != kb as object
      modifies this, disk, kb
      ensures State(disk, kb, stop) == InstallAll(backupCheck, home, old(State(disk, kb, None)), links + dirs)
    {
      ghost var r0 := State(disk, kb, None);
      InstallAllAppend(backupCheck, home, r0, links, dirs);
      stop := InstallMatches(home, links, disk, kb);
      if stop.Some? {
        StoppedRunIgnores(backupCheck, home, State(disk, kb, stop), dirs);
        return;
      }
      stop := InstallMatches(home, dirs, disk, kb);
    }
  }

  /** A stopped run stays as it is. */
  lemma {:induction false} StoppedRunIgnores(n: nat, home: string, r: Run, items: seq<Item>)
    requires r.stop.Some?
    ensures InstallAll(n, home, r, items) == r
    decreases |items|
  {
    if items != [] {
      StoppedRunIgnores(n, home, r, items[..|items| - 1]);
    }
  }

  /** The two loops make one run over both lists. */
  lemma {:induction false} InstallAllAppend(n: nat, home: string, r: Run, a: seq<Item>, b: seq<Item>)
    ensures InstallAll(n, home, r, a + b) == InstallAll(n, home, InstallAll(n, home, r, a), b)
    decreases |b|
  {
    if b == [] {
      assert a + b == a;
    } else {
      var init := b[..|b| - 1];
      InstallAllAppend(n, home, r, a, init);
      assert (a + b)[..|a + b| - 1] == a + init;
      assert (a + b)[|a + b| - 1] == b[|b| - 1];
    }
  }

  lemma InstallAllSnoc(n: nat, home: string, r: Run, items: seq<Item>, it: Item)
    ensures InstallAll(n, home, r, items + [it])
      == if InstallAll(n, home, r, items).stop.Some? then InstallAll(n, home, r, items)
         else InstallItem(n, home, InstallAll(n, home, r, items), it)
  {
    assert (items + [it])[..|items|] == items;
  }

  /** One more item continues the run over the first `i` items, or stops
      it for good. */
  lemma NextItem(n: nat, home: string, r: Run, items: seq<Item>, i: nat, prev: Run, next: Run)
    requires i < |items| && prev == InstallAll(n, home, r, items[..i]) && prev.stop.None?
    requires next == InstallItem(n, home, prev, items[i])
    ensures next.stop.None? ==> next == InstallAll(n, home, r, items[..i + 1])
    ensures next.stop.Some? ==> next == InstallAll(n, home, r, items)
  {
    SnocSlice(items, i);
    NextItemExtends(n, home, r, items[..i], items[i], prev, next);
    if next.stop.Some? {
      StoppedStaysStopped(n, home, r, items, i + 1);
    }
  }

  lemma SnocSlice<T>(s: seq<T>, i: nat)
    requires i < |s|
    ensures s[..i] + [s[i]] == s[..i + 1]
  {
  }

  /** An item after a run that has not stopped extends it. */
  lemma NextItemExtends(n: nat, home: string, r: Run, done: seq<Item>, it: Item, prev: Run, next: Run)
    requires prev == InstallAll(n, home, r, done) && prev.stop.None?
    requires next == InstallItem(n, home, prev, it)
    ensures next == InstallAll(n, home, r, done + [it])
  {
    InstallAllSnoc(n, home, r, done, it);
  }

  /** A stopped run ignores the rest of the items. */
  lemma {:induction false} StoppedStaysStopped(n: nat, home: string, r: Run, items: seq<Item>, i: nat)
    requires i <= |items| && InstallAll(n, home, r, items[..i]).stop.Some?
    ensures InstallAll(n, home, r, items) == InstallAll(n, home, r, items[..i])
    decreases |items| - i
  {
    if i < |items| {
      assert items[..i + 1][..i] == items[..i];
      StoppedStaysStopped(n, home, r, items, i + 1);
    } else {
      assert items[..i] == items;
    }
  }
}
