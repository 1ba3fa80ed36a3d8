/**
 * The supervision loop of bin/jt.py: `ContinuousSSH` launches ssh again
 * and again, classifies every line ssh prints into a session state, kills
 * an unresponsive connection, keeps a status line up to date and waits
 * with exponential backoff between quick failures.
 *
 * Time is an integer number of microseconds passed in by the caller; the
 * process, its output and its exit are given as data (an `Attempt`), and
 * what the supervisor does to the outside world is recorded as `Effect`s.
 */
module Tunnel {
  import opened Wrappers
  import opened Text
  import opened Terminal
  import opened TunnelArgs

  datatype Session = Disconnected | Connecting | Connected

  /** The label `status(...)` shows; colours are not modelled. */
  function Label(s: Session): string
  {
    match s
    case Disconnected => "disconnected"
    case Connecting => "connecting"
    case Connected => "connected"
  }

  const DebugPrefix: string := "debug1:"
  const EnteredMarker: string := "Entering interactive session"
  const UnresponsiveMarker: string := "not responding"

  // ---------------------------------------------------------------------
  // Backoff

  /** The initial and reset backoff, 0.1 s. */
  const BackoffFloor: int := 100000
  /** `_max_backoff_time`, 1.0 s. */
  const BackoffMax: int := 1000000

  /** The backoff after a run of `elapsed` microseconds: doubled up to the
      maximum after a run shorter than the backoff, the floor otherwise. */
  function NextBackoff(b: int, elapsed: int): (r: int)
    ensures elapsed < b ==> r == if 2 * b < BackoffMax then 2 * b else BackoffMax
    ensures elapsed >= b ==> r == BackoffFloor
  {
    if elapsed < b then (if 2 * b < BackoffMax then 2 * b else BackoffMax) else BackoffFloor
  }

  /** One backoff step keeps the backoff within [0.1 s, 1.0 s]. */
  lemma NextBackoffInRange(b: int, elapsed: int)
    requires BackoffFloor <= b <= BackoffMax
    ensures BackoffFloor <= NextBackoff(b, elapsed) <= BackoffMax
  {
  }

  /** The backoff after `n` runs that all exit at once. */
  function ImmediateBackoff(n: nat): (b: int)
  {
    if n == 0 then BackoffFloor else NextBackoff(ImmediateBackoff(n - 1), 0)
  }

  /** Under immediate exits the backoff is 0.1, 0.2, 0.4, 0.8 s, then 1.0 s
      for ever. */
  lemma {:induction false} ImmediateBackoffSequence(n: nat)
    ensures n == 0 ==> ImmediateBackoff(n) == 100000
    ensures n == 1 ==> ImmediateBackoff(n) == 200000
    ensures n == 2 ==> ImmediateBackoff(n) == 400000
    ensures n == 3 ==> ImmediateBackoff(n) == 800000
    ensures n >= 4 ==> ImmediateBackoff(n) == 1000000
  {
    if n > 0 {
      ImmediateBackoffSequence(n - 1);
    }
  }

  // ---------------------------------------------------------------------
  // Line classification

  /** What `_run_once` makes of a received line: the text the markers are
      looked for in and whether each marker occurs in it. */
  datatype Reading = Reading(text: string, entered: bool, lost: bool)

  /** The line is stripped (`strip('\r\n').strip()` removes exactly what
      one `strip()` does), a leading "debug1:" is removed and the rest
      stripped again; both markers are then looked for in that text. */
  function Classify(raw: string): (r: Reading)
    ensures r.entered <==> Contains(r.text, EnteredMarker)
    ensures r.lost <==> Contains(r.text, UnresponsiveMarker)
  {
    var line := Strip(raw);
    var text := if StartsWith(line, DebugPrefix) then Strip(line[|DebugPrefix|..]) else line;
    Reading(text, Contains(text, EnteredMarker), Contains(text, UnresponsiveMarker))
  }

  /** The text the markers are looked for in has no whitespace at either
      end, and is the whole stripped line unless that starts with "debug1:". */
  lemma ClassifiedTextTrimmed(raw: string)
    ensures var t := Classify(raw).text; t == [] || (!IsSpace(t[0]) && !IsSpace(t[|t| - 1]))
    ensures !StartsWith(Strip(raw), DebugPrefix) ==> Classify(raw).text == Strip(raw)
  {
  }

  /** For a line as it is received (already stripped), a "debug1:" prefix
      is dropped and the rest trimmed before the markers are looked for. */
  lemma DebugPrefixRemoved(rest: string)
    requires rest == [] || !IsSpace(rest[|rest| - 1])
    ensures Classify(DebugPrefix + rest).text == Strip(rest)
  {
    var line := DebugPrefix + rest;
    DebugLineStripped(rest);
    assert StartsWith(line, DebugPrefix) && line[|DebugPrefix|..] == rest;
  }

  lemma DebugLineStripped(rest: string)
    requires rest == [] || !IsSpace(rest[|rest| - 1])
    ensures Strip(DebugPrefix + rest) == DebugPrefix + rest
  {
    var line := DebugPrefix + rest;
    assert line[0] == 'd';
    if rest != [] {
      assert line[|line| - 1] == rest[|rest| - 1];
    }
    StripUnchanged(line);
  }

  /** The status line `update(msg)` shows:
      "[label] H:MM:SS | msg", the time being that since the last status change. */
  function StatusLine(status: Session, change: int, now: int, msg: string): (r: string)
    ensures EndsWith(r, " | " + msg)
    ensures StartsWith(r, "[" + Label(status) + "] ")
  {
    var r := "[" + Label(status) + "] " + FormatTimedelta(now - change) + " | " + msg;
    assert r == ("[" + Label(status) + "] ") + (FormatTimedelta(now - change) + " | " + msg);
    r
  }

  /** What one run of ssh produces, as `_run_once` sees it: a received line
      and when it arrived, or a wait of more than a second with no output
      (which calls `timeout()`). */
  datatype Item = Line(raw: string, at: int) | Idle(at: int)

  /** An item once its line is classified. */
  datatype Event = Heard(reading: Reading, at: int) | Quiet(at: int)

  function Perceive(item: Item): Event
  {
    match item
    case Line(raw, at) => Heard(Classify(raw), at)
    case Idle(at) => Quiet(at)
  }

  function Perceived(items: seq<Item>): (es: seq<Event>)
    ensures |es| == |items|
    decreases |items|
  {
    if items == [] then [] else Perceived(items[..|items| - 1]) + [Perceive(items[|items| - 1])]
  }

  /** The session the status line shows and when it last changed. */
  datatype Shown = Shown(status: Session, change: int)

  /** The shown state after one event. Both marker checks are made, the
      "not responding" one last, so a line with both ends disconnected; a
      timeout changes nothing. */
  function Advance(s: Shown, e: Event): (r: Shown)
    ensures e.Heard? && e.reading.lost ==> r == Shown(Disconnected, e.at)
    ensures e.Heard? && !e.reading.lost && e.reading.entered ==> r == Shown(Connected, e.at)
    ensures e.Heard? && !e.reading.lost && !e.reading.entered ==> r == s
    ensures e.Quiet? ==> r == s
  {
    match e
    case Quiet(_) => s
    case Heard(reading, at) =>
      var s1 := if reading.entered then Shown(Connected, at) else s;
      if reading.lost then Shown(Disconnected, at) else s1
  }

  /** The shown state after a run of events. */
  function After(s: Shown, es: seq<Event>): Shown
    decreases |es|
  {
    if es == [] then s else Advance(After(s, es[..|es| - 1]), es[|es| - 1])
  }

  /** The text an event forwards to `update`: the line, or nothing for a
      timeout. */
  function Forwarded(e: Event): string
  {
    if e.Heard? then e.reading.text else ""
  }

  /** The message `update` receives for event `e`, shown after the state
      `t` the event leaves. */
  function Note(t: Shown, e: Event): string
  {
    StatusLine(t.status, t.change, e.at, Forwarded(e))
  }

  /** The messages passed to `update` during a run of events: each one is
      shown after the state the event leaves. */
  function Messages(s: Shown, es: seq<Event>): (ms: seq<string>)
    ensures |ms| == |es|
    decreases |es|
  {
    if es == [] then [] else Messages(s, es[..|es| - 1]) + [Note(After(s, es), es[|es| - 1])]
  }

  /** The number of kills: one per line that says "not responding". */
  function KillsIn(es: seq<Event>): (n: nat)
    ensures n <= |es|
    decreases |es|
  {
    if es == [] then 0
    else
      var e := es[|es| - 1];
      KillsIn(es[..|es| - 1]) + if e.Heard? && e.reading.lost then 1 else 0
  }

  /** Every line is forwarded to `update`, in order: the k-th message ends
      with the k-th event's text. */
  lemma {:induction false} MessagesForwardEveryEvent(s: Shown, es: seq<Event>, k: int)
    requires 0 <= k < |es|
    ensures EndsWith(Messages(s, es)[k], " | " + Forwarded(es[k]))
    decreases |es|
  {
    var init := es[..|es| - 1];
    if k < |es| - 1 {
      MessagesForwardEveryEvent(s, init, k);
      assert init[k] == es[k];
    }
  }

  /** The process is killed exactly once per line that carries
      "not responding". */
  lemma {:induction false} KillsInCount(es: seq<Event>)
    ensures KillsIn(es) == |set k | 0 <= k < |es| && es[k].Heard? && es[k].reading.lost|
    decreases |es|
  {
    if es != [] {
      var n := |es| - 1;
      var init := es[..n];
      KillsInCount(init);
      var before := set k | 0 <= k < n && init[k].Heard? && init[k].reading.lost;
      var after := set k | 0 <= k < |es| && es[k].Heard? && es[k].reading.lost;
      assert before == set k | 0 <= k < n && es[k].Heard? && es[k].reading.lost;
      if es[n].Heard? && es[n].reading.lost {
        assert after == before + {n};
      } else {
        assert after == before;
      }
    }
  }

  /** Output that carries neither marker leaves the shown state as it was
      and kills nothing. */
  lemma {:induction false} WithoutMarkersNothingChanges(s: Shown, es: seq<Event>)
    requires forall k :: 0 <= k < |es| && es[k].Heard? ==> !es[k].reading.lost && !es[k].reading.entered
    ensures After(s, es) == s && KillsIn(es) == 0
    decreases |es|
  {
    if es != [] {
      var init := es[..|es| - 1];
      assert forall k :: 0 <= k < |init| ==> init[k] == es[k];
      WithoutMarkersNothingChanges(s, init);
    }
  }

  /** After a line saying the session started, and nothing else of note,
      the state is "connected" since that line. */
  lemma {:induction false} ConnectedUntilNoted(s: Shown, es: seq<Event>, k: int)
    requires 0 <= k < |es| && es[k].Heard? && es[k].reading.entered && !es[k].reading.lost
    requires forall j :: k < j < |es| && es[j].Heard? ==> !es[j].reading.lost && !es[j].reading.entered
    ensures After(s, es) == Shown(Connected, es[k].at)
    decreases |es|
  {
    var init := es[..|es| - 1];
    if k < |es| - 1 {
      assert forall j :: k < j < |init| ==> init[j] == es[j];
      ConnectedUntilNoted(s, init, k);
    } else {
      assert es[..|es| - 1] == init;
    }
  }

  // ---------------------------------------------------------------------
  // The supervisor

  /** What the supervisor does outside the status line: start ssh, kill it,
      wait for it to end, roll the ssh log over, terminate it, or sleep. */
  datatype Effect = Launch(args: seq<string>) | Kill | Reaped | Rollover | Terminate | Sleep(micros: int)

  /** One completed run of ssh: when it started, its output, and when it
      ended (also the time the backoff check is made). */
  datatype Attempt = Attempt(start: int, items: seq<Item>, end: int)

  function Elapsed(a: Attempt): int
  {
    a.end - a.start
  }

  function Kills(n: nat): (r: seq<Effect>)
    ensures |r| == n
  {
    if n == 0 then [] else Kills(n - 1) + [Kill]
  }

  /** The state one run's output leaves, from "connecting" at `start`. */
  function RunState(start: int, items: seq<Item>): Shown
  {
    After(Shown(Connecting, start), Perceived(items))
  }

  /** The messages one run's output passes to `update`. */
  function RunMessages(start: int, items: seq<Item>): seq<string>
  {
    Messages(Shown(Connecting, start), Perceived(items))
  }

  /** The effects of one completed `_run_once`: launch, a kill per
      unresponsive line, wait for the end, roll the log over. The process
      has ended, so `finally` terminates nothing. */
  function OnceEffects(args: seq<string>, a: Attempt): seq<Effect>
  {
    [Launch(args)] + Kills(KillsIn(Perceived(a.items))) + [Reaped, Rollover]
  }

  /** The sleep `run` makes after a run of `elapsed` at backoff `b`. */
  function Pause(b: int, elapsed: int): (r: seq<Effect>)
    ensures elapsed < b ==> r == [Sleep(b - elapsed)]
    ensures elapsed >= b ==> r == []
  {
    if elapsed < b then [Sleep(b - elapsed)] else []
  }

  /** The backoff after a sequence of completed runs. */
  function Backoffs(b: int, attempts: seq<Attempt>): int
    decreases |attempts|
  {
    if attempts == [] then b
    else NextBackoff(Backoffs(b, attempts[..|attempts| - 1]), Elapsed(attempts[|attempts| - 1]))
  }

  /** Whatever the runs, the backoff never leaves [0.1 s, 1.0 s]. */
  lemma {:induction false} BackoffsInRange(b: int, attempts: seq<Attempt>)
    requires BackoffFloor <= b <= BackoffMax
    ensures BackoffFloor <= Backoffs(b, attempts) <= BackoffMax
    decreases |attempts|
  {
    if attempts != [] {
      BackoffsInRange(b, attempts[..|attempts| - 1]);
      NextBackoffInRange(Backoffs(b, attempts[..|attempts| - 1]), Elapsed(attempts[|attempts| - 1]));
    }
  }

  /** Effects of a sequence of completed runs with their pauses. */
  function AttemptsEffects(args: seq<string>, b: int, attempts: seq<Attempt>): seq<Effect>
    decreases |attempts|
  {
    if attempts == [] then []
    else
      var init := attempts[..|attempts| - 1];
      var a := attempts[|attempts| - 1];
      AttemptsEffects(args, b, init) + OnceEffects(args, a) + Pause(Backoffs(b, init), Elapsed(a))
  }

  /** Messages passed to `update` over a sequence of completed runs. */
  function AttemptsMessages(attempts: seq<Attempt>): seq<string>
    decreases |attempts|
  {
    if attempts == [] then []
    else
      var a := attempts[|attempts| - 1];
      AttemptsMessages(attempts[..|attempts| - 1]) + RunMessages(a.start, a.items)
  }

  /** How the spec functions of the completed runs grow by one run. */
  lemma AttemptsStep(args: seq<string>, b: int, attempts: seq<Attempt>, a: Attempt)
    ensures Backoffs(b, attempts + [a]) == NextBackoff(Backoffs(b, attempts), Elapsed(a))
    ensures AttemptsEffects(args, b, attempts + [a]) ==
      AttemptsEffects(args, b, attempts) + OnceEffects(args, a) + Pause(Backoffs(b, attempts), Elapsed(a))
    ensures AttemptsMessages(attempts + [a]) == AttemptsMessages(attempts) + RunMessages(a.start, a.items)
  {
    assert (attempts + [a])[..|attempts|] == attempts;
  }

  /** Every sleep between runs lasts more than nothing and at most 1.0 s. */
  lemma {:induction false} PausesBounded(args: seq<string>, b: int, attempts: seq<Attempt>, i: int)
    requires BackoffFloor <= b <= BackoffMax
    requires forall j :: 0 <= j < |attempts| ==> attempts[j].start <= attempts[j].end
    requires 0 <= i < |AttemptsEffects(args, b, attempts)|
    requires AttemptsEffects(args, b, attempts)[i].Sleep?
    ensures 0 < AttemptsEffects(args, b, attempts)[i].micros <= BackoffMax
    decreases |attempts|
  {
    var init := attempts[..|attempts| - 1];
    var a := attempts[|attempts| - 1];
    var head := AttemptsEffects(args, b, init);
    var once := OnceEffects(args, a);
    var pause := Pause(Backoffs(b, init), Elapsed(a));
    ThreePartsAt(head, once, pause, i);
    if i < |head| {
      assert forall j :: 0 <= j < |init| ==> init[j] == attempts[j];
      PausesBounded(args, b, init, i);
    } else if i < |head| + |once| {
      OnceNeverSleeps(args, a, i - |head|);
      assert false;
    } else {
      assert a.start <= a.end;
      BackoffsInRange(b, init);
    }
  }

  /** Indexing into three concatenated sequences. */
  lemma ThreePartsAt<T>(x: seq<T>, y: seq<T>, z: seq<T>, i: int)
    requires 0 <= i < |x + y + z|
    ensures (x + y + z)[i] == if i < |x| then x[i] else if i < |x| + |y| then y[i - |x|] else z[i - |x| - |y|]
  {
  }

  /** A kill is all `Kills(n)` holds. */
  lemma {:induction false} KillsAreKills(n: nat, j: int)
    requires 0 <= j < n
    ensures Kills(n)[j] == Kill
  {
    if j < n - 1 {
      KillsAreKills(n - 1, j);
    }
  }

  /** A completed run has no sleep in it. */
  lemma OnceNeverSleeps(args: seq<string>, a: Attempt, j: int)
    requires 0 <= j < |OnceEffects(args, a)|
    ensures !OnceEffects(args, a)[j].Sleep?
  {
    var k := KillsIn(Perceived(a.items));
    if 0 < j < 1 + k {
      KillsAreKills(k, j - 1);
      assert OnceEffects(args, a)[j] == Kills(k)[j - 1];
    }
  }

  /** The events of one more item. */
  lemma PerceivedStep(items: seq<Item>, i: int)
    requires 0 <= i < |items|
    ensures Perceived(items[..i + 1]) == Perceived(items[..i]) + [Perceive(items[i])]
  {
    assert items[..i + 1][..i] == items[..i];
  }

  /** How the spec functions of a run's events grow by one event. */
  lemma EventStep(s0: Shown, es: seq<Event>, e: Event)
    ensures After(s0, es + [e]) == Advance(After(s0, es), e)
    ensures Messages(s0, es + [e]) == Messages(s0, es) + [Note(After(s0, es + [e]), e)]
    ensures KillsIn(es + [e]) == KillsIn(es) + if e.Heard? && e.reading.lost then 1 else 0
  {
    assert (es + [e])[..|es|] == es;
  }

  /** The effects of one more event: a kill after a "not responding" line. */
  lemma KillsStep(e0: seq<Effect>, es: seq<Event>, e: Event, before: seq<Effect>, after: seq<Effect>)
    requires before == e0 + Kills(KillsIn(es))
    requires after == before + if e.Heard? && e.reading.lost then [Kill] else []
    ensures after == e0 + Kills(KillsIn(es + [e]))
  {
    EventStep(Shown(Disconnected, 0), es, e);
    if e.Heard? && e.reading.lost {
      assert Kills(KillsIn(es) + 1) == Kills(KillsIn(es)) + [Kill];
    } else {
      assert after == before;
    }
  }

  class ContinuousSSH {
    const args: seq<string>
    const messenger: StatusMessage
    var status: Session
    /** When `status` last changed. */
    var change: int
    /** `_backoff_time`, in microseconds. */
    var backoff: int
    var effects: seq<Effect>

    /** `ContinuousSSH(args, stream)`: a status line over the terminal, and
        the state "disconnected" from `now` on. */
    constructor (args: seq<string>, ti: Terminfo, now: int)
      requires ti.Valid()
      modifies ti
      ensures ti.Valid()
      ensures this.args == args && fresh(messenger)
      ensures messenger.enabled <==> forall i :: 0 <= i < |StatusCaps| ==> Probe(ti.tty, ti.db, StatusCaps[i]).Some?
      ensures messenger.last == None && messenger.out == [] && messenger.calls == []
      ensures status == Disconnected && change == now
      ensures backoff == BackoffFloor && effects == []
    {
      this.args := args;
      var m := NewStatusMessage(ti);
      messenger := m;
      backoff := BackoffFloor;
      effects := [];
      status := Disconnected;
      change := now;
    }

    /** `status(msg)`: the new state, changed at `now`. */
    method SetStatus(s: Session, now: int)
      modifies this
      ensures status == s && change == now
      ensures backoff == old(backoff) && effects == old(effects)
    {
      status := s;
      change := now;
    }

    /** `update(msg)`: shows msg after the state and the time since it
        changed. */
    method Update(msg: string, now: int)
      requires !messenger.enabled || messenger.last.Some?
      modifies messenger
      ensures messenger.calls == old(messenger.calls) + [StatusLine(status, change, now, msg)]
      ensures messenger.out == old(messenger.out) +
        UpdateStep(messenger.enabled, old(messenger.last), StatusLine(status, change, now, msg)).1
      ensures messenger.last == UpdateStep(messenger.enabled, old(messenger.last), StatusLine(status, change, now, msg)).0
    {
      messenger.Update(StatusLine(status, change, now, msg));
    }

    /** `timeout()`: refreshes the status line with an empty message. */
    method Timeout(now: int)
      requires !messenger.enabled || messenger.last.Some?
      modifies messenger
      ensures messenger.calls == old(messenger.calls) + [StatusLine(status, change, now, "")]
      ensures messenger.out == old(messenger.out) +
        UpdateStep(messenger.enabled, old(messenger.last), StatusLine(status, change, now, "")).1
      ensures messenger.last == UpdateStep(messenger.enabled, old(messenger.last), StatusLine(status, change, now, "")).0
    {
      Update("", now);
    }

    /** One pass of the loop over ssh's output: a line is classified, may
        change the state (and kill the process), and is forwarded to the
        status line; a timeout refreshes the status line. */
    method Handle(item: Item)
      requires !messenger.enabled || messenger.last.Some?
      modifies this, messenger
      ensures Shown(status, change) == Advance(old(Shown(status, change)), Perceive(item))
      ensures effects == old(effects) + if Perceive(item).Heard? && Perceive(item).reading.lost then [Kill] else []
      ensures messenger.calls == old(messenger.calls) + [Note(Shown(status, change), Perceive(item))]
      ensures messenger.out == old(messenger.out) +
        UpdateStep(messenger.enabled, old(messenger.last), Note(Shown(status, change), Perceive(item))).1
      ensures messenger.last == UpdateStep(messenger.enabled, old(messenger.last), Note(Shown(status, change), Perceive(item))).0
      ensures backoff == old(backoff)
    {
      match item
      case Idle(at) =>
        assert effects == old(effects) + [];
        Timeout(at);
      case Line(raw, at) =>
        var r := Classify(raw);
        if r.entered {
          SetStatus(Connected, at);
        }
        if r.lost {
          SetStatus(Disconnected, at);
          effects := effects + [Kill];
        } else {
          assert effects == old(effects) + [];
        }
        Update(r.text, at);
    }

    /** The state after the events `es` of a run that started from `s0`,
        with effects `e0`, messages `c0`, output `o0` and last message `l0`
        before them. */
    ghost predicate Pumped(s0: Shown, e0: seq<Effect>, c0: seq<string>, o0: seq<Out>, l0: Option<string>, es: seq<Event>)
      reads this, messenger
    {
      && Shown(status, change) == After(s0, es)
      && effects == e0 + Kills(KillsIn(es))
      && messenger.calls == c0 + Messages(s0, es)
      && messenger.out == o0 + UpdatesOutput(messenger.enabled, l0, Messages(s0, es))
      && messenger.last == LastShown(messenger.enabled, l0, Messages(s0, es))
      && (!messenger.enabled || messenger.last.Some?)
    }

    /** One more item of the loop keeps the run's state in step with its
        events. */
    method PumpOne(item: Item, ghost s0: Shown, ghost e0: seq<Effect>, ghost c0: seq<string>,
                   ghost o0: seq<Out>, ghost l0: Option<string>, ghost es: seq<Event>)
      requires Pumped(s0, e0, c0, o0, l0, es)
      modifies this, messenger
      ensures Pumped(s0, e0, c0, o0, l0, es + [Perceive(item)])
      ensures backoff == old(backoff)
    {
      ghost var e := Perceive(item);
      ghost var en := messenger.enabled;
      ghost var ms := Messages(s0, es);
      ghost var m := Note(After(s0, es + [e]), e);
      EventStep(s0, es, e);
      UpdatesOutputSnoc(en, l0, ms, m);
      ghost var effects1, out1 := effects, messenger.out;
      Handle(item);
      assert Shown(status, change) == After(s0, es + [e]);
      assert messenger.out == out1 + UpdateStep(en, LastShown(en, l0, ms), m).1;
      AppendAssoc(o0, UpdatesOutput(en, l0, ms), UpdateStep(en, LastShown(en, l0, ms), m).1);
      AppendAssoc(c0, ms, [m]);
      KillsStep(e0, es, e, effects1, effects);
    }

    /** The launch and the loop over ssh's output shared by a completed and
        an interrupted run: "connecting" from `start`, then every item
        classified, forwarded to the status line, and a kill per
        unresponsive line. */
    method Pumping(start: int, items: seq<Item>)
      requires !messenger.enabled || messenger.last.Some?
      modifies this, messenger
      ensures Shown(status, change) == RunState(start, items)
      ensures effects == old(effects) + [Launch(args)] + Kills(KillsIn(Perceived(items)))
      ensures messenger.calls == old(messenger.calls) + RunMessages(start, items)
      ensures messenger.out == old(messenger.out) + UpdatesOutput(messenger.enabled, old(messenger.last), RunMessages(start, items))
      ensures messenger.last == LastShown(messenger.enabled, old(messenger.last), RunMessages(start, items))
      ensures backoff == old(backoff)
    {
      effects := effects + [Launch(args)];
      SetStatus(Connecting, start);
      ghost var s0 := Shown(Connecting, start);
      ghost var e0, c0, o0, l0 := effects, old(messenger.calls), old(messenger.out), old(messenger.last);
      var i := 0;
      while i < |items|
        invariant 0 <= i <= |items|
        invariant Pumped(s0, e0, c0, o0, l0, Perceived(items[..i]))
        invariant backoff == old(backoff)
      {
        PerceivedStep(items, i);
        PumpOne(items[i], s0, e0, c0, o0, l0, Perceived(items[..i]));
        i := i + 1;
      }
      assert items[..i] == items;
    }

  /** `_run_once()` for a run that ends by itself at `end`: after the
        output the process is waited for, the state becomes "disconnected"
        and the ssh log rolls over. */
    method RunOnce(a: Attempt)
      requires !messenger.enabled || messenger.last.Some?
      modifies this, messenger
      ensures status == Disconnected && change == a.end
      ensures effects == old(effects) + OnceEffects(args, a)
      ensures messenger.calls == old(messenger.calls) + RunMessages(a.start, a.items)
      ensures messenger.out == old(messenger.out) + UpdatesOutput(messenger.enabled, old(messenger.last), RunMessages(a.start, a.items))
      ensures messenger.last == LastShown(messenger.enabled, old(messenger.last), RunMessages(a.start, a.items))
      ensures backoff == old(backoff)
    {
      Pumping(a.start, a.items);
      effects := effects + [Reaped];
      SetStatus(Disconnected, a.end);
      effects := effects + [Rollover];
    }

    /** The state after the completed runs `attempts`, from backoff `b0`,
        effects `e0`, messages `c0` and output `o0`, once the status line
        shows the empty message. */
    ghost predicate Ran(b0: int, e0: seq<Effect>, c0: seq<string>, o0: seq<Out>, attempts: seq<Attempt>)
      reads this, messenger
    {
      && backoff == Backoffs(b0, attempts)
      && effects == e0 + AttemptsEffects(args, b0, attempts)
      && messenger.calls == c0 + AttemptsMessages(attempts)
      && messenger.out == o0 + UpdatesOutput(messenger.enabled, Some(""), AttemptsMessages(attempts))
      && messenger.last == LastShown(messenger.enabled, Some(""), AttemptsMessages(attempts))
      && (!messenger.enabled || messenger.last.Some?)
    }

    /** One pass of `run`'s loop: a completed run, then the sleep for the
        rest of the backoff and the doubled backoff, or the reset backoff. */
    method RunAgain(a: Attempt, ghost b0: int, ghost e0: seq<Effect>, ghost c0: seq<string>,
                    ghost o0: seq<Out>, ghost attempts: seq<Attempt>)
      requires Ran(b0, e0, c0, o0, attempts)
      modifies this, messenger
      ensures Ran(b0, e0, c0, o0, attempts + [a])
    {
      ghost var en := messenger.enabled;
      ghost var before := AttemptsMessages(attempts);
      ghost var run := RunMessages(a.start, a.items);
      AttemptsStep(args, b0, attempts, a);
      UpdatesOutputAppend(en, Some(""), before, run);
      ghost var effects1, out1 := effects, messenger.out;
      RunOnce(a);
      ghost var effects2 := effects;
      var elapsed := a.end - a.start;
      if elapsed < backoff {
        effects := effects + [Sleep(backoff - elapsed)];
        backoff := if 2 * backoff < BackoffMax then 2 * backoff else BackoffMax;
      } else {
        backoff := BackoffFloor;
      }
      assert effects == effects2 + Pause(Backoffs(b0, attempts), Elapsed(a));
      AppendAssoc(o0, UpdatesOutput(en, Some(""), before), UpdatesOutput(en, LastShown(en, Some(""), before), run));
      AppendAssoc(c0, before, run);
      AppendAssoc(e0, AttemptsEffects(args, b0, attempts), OnceEffects(args, a));
      AppendAssoc(e0, AttemptsEffects(args, b0, attempts) + OnceEffects(args, a), Pause(Backoffs(b0, attempts), Elapsed(a)));
    }

    /** `run()`: inside the status line's `with` block, runs ssh again and
        again. After a run shorter than the backoff it sleeps for the rest
        of the backoff and doubles it (up to 1.0 s); after a longer run the
        backoff resets to 0.1 s. The `while True` loop is ended by a
        keyboard interrupt; here it arrives during the run after
        `attempts`, after that run's output `cut`, which `finally`
        answers by terminating the still running process. */
    method Run(attempts: seq<Attempt>, cutStart: int, cut: seq<Item>)
      modifies this, messenger
      ensures backoff == Backoffs(old(backoff), attempts)
      ensures effects == old(effects) + AttemptsEffects(args, old(backoff), attempts)
        + [Launch(args)] + Kills(KillsIn(Perceived(cut))) + [Terminate]
      ensures messenger.calls == old(messenger.calls) + [""] + AttemptsMessages(attempts) + RunMessages(cutStart, cut)
      ensures messenger.out == old(messenger.out)
        + UpdatesOutput(messenger.enabled, Some(""), AttemptsMessages(attempts) + RunMessages(cutStart, cut))
        + (if messenger.enabled then [Cap("cr"), Cap("el"), Flush] else [])
    {
      messenger.Enter();
      ghost var b0, e0, c0, o0 := backoff, effects, messenger.calls, messenger.out;
      var i := 0;
      while i < |attempts|
        invariant 0 <= i <= |attempts|
        invariant Ran(b0, e0, c0, o0, attempts[..i])
      {
        assert attempts[..i + 1] == attempts[..i] + [attempts[i]];
        RunAgain(attempts[i], b0, e0, c0, o0, attempts[..i]);
        i := i + 1;
      }
      assert attempts[..i] == attempts;
      ghost var en, done, rest := messenger.enabled, AttemptsMessages(attempts), RunMessages(cutStart, cut);
      UpdatesOutputAppend(en, Some(""), done, rest);
      AppendAssoc(o0, UpdatesOutput(en, Some(""), done), UpdatesOutput(en, LastShown(en, Some(""), done), rest));
      Pumping(cutStart, cut);
      assert messenger.out == o0 + UpdatesOutput(en, Some(""), done + rest);
      effects := effects + [Terminate];
      messenger.Exit();
    }
  }
}
