/**
 * The terminal side of the tunnel supervisor in bin/jt.py: the
 * capability probe `_Terminfo` with its per-capability cache, and the
 * de-duplicating one-line status display `StatusMessage`.
 *
 * The terminal database is a map from capability name to the bytes that
 * `curses.tigetstr` would return; what is written to the terminal is
 * recorded as a sequence of `Out` events.
 */
module Terminal {
  import opened Wrappers

  newtype byte = x: int | 0 <= x < 256

  /** The terminal database as `curses.tigetstr` sees it. */
  type TermDb = map<string, seq<byte>>

  /** The capabilities the status line needs: carriage return, clear to end
      of line, and turning automatic margins off and on. */
  const StatusCaps: seq<string> := ["cr", "el", "rmam", "smam"]

  /** A capability string carrying a padding delay `$<...>`. */
  predicate HasDelay(s: seq<byte>) {
    exists i :: 0 <= i < |s| - 1 && s[i] == 36 && s[i + 1] == 60
  }

  /** What the probe records for `cap`: absent when standard output is not
      a terminal, when the database lacks it, or when it carries a delay. */
  function Probe(tty: bool, db: TermDb, cap: string): (r: Option<seq<byte>>)
    ensures r.Some? <==> tty && cap in db && !HasDelay(db[cap])
    ensures r.Some? ==> r.value == db[cap]
  {
    if tty && cap in db && !HasDelay(db[cap]) then Some(db[cap]) else None
  }

  /** Index of the first capability of `caps` that the probe finds absent,
      or |caps| when all are present; `all(...)` stops there. */
  function FirstAbsent(tty: bool, db: TermDb, caps: seq<string>): (k: nat)
    ensures k <= |caps|
    ensures forall j :: 0 <= j < k ==> Probe(tty, db, caps[j]).Some?
    ensures k < |caps| ==> Probe(tty, db, caps[k]).None?
  {
    if caps == [] || Probe(tty, db, caps[0]).None? then 0
    else 1 + FirstAbsent(tty, db, caps[1..])
  }

  /** The capabilities `has(*caps)` looks at before `all` stops. */
  function Examined(tty: bool, db: TermDb, caps: seq<string>): set<string>
  {
    var k := FirstAbsent(tty, db, caps);
    set j | 0 <= j < |caps| && j <= k :: caps[j]
  }

  /** The first `i` capabilities, as a set. */
  function FirstCaps(caps: seq<string>, i: nat): set<string>
    requires i <= |caps|
  {
    set j | 0 <= j < i :: caps[j]
  }

  lemma FirstCapsStep(caps: seq<string>, i: nat)
    requires i < |caps|
    ensures FirstCaps(caps, i + 1) == FirstCaps(caps, i) + {caps[i]}
  {
    assert caps[i] in FirstCaps(caps, i + 1);
  }

  /** `all` stops after the first absent capability, or looks at all. */
  lemma ExaminedIsFirstCaps(tty: bool, db: TermDb, caps: seq<string>)
    ensures var k := FirstAbsent(tty, db, caps);
      Examined(tty, db, caps) == FirstCaps(caps, if k < |caps| then k + 1 else |caps|)
  {
  }

  class Terminfo {
    const tty: bool
    const db: TermDb
    /** `__ti`: what each capability looked at so far resolved to. */
    var cache: map<string, Option<seq<byte>>>
    /** Every query made to the terminal database, in order. */
    var lookups: seq<string>

    ghost predicate Valid()
      reads this
    {
      && (forall c :: c in cache ==> cache[c] == Probe(tty, db, c))
      && (forall i, j :: 0 <= i < j < |lookups| ==> lookups[i] != lookups[j])
      && (forall i :: 0 <= i < |lookups| ==> lookups[i] in cache)
      && (tty ==> forall c :: c in cache ==> c in lookups)
      && (!tty ==> lookups == [])
    }

    /** `_Terminfo()`: remembers whether standard output is a terminal and
        starts with an empty cache. */
    constructor (tty: bool, db: TermDb)
      ensures Valid()
      ensures this.tty == tty && this.db == db
      ensures cache == map[] && lookups == []
    {
      this.tty := tty;
      this.db := db;
      cache := map[];
      lookups := [];
    }

    /** `__ensure(cap)`: the cached probe result, querying the database only
        the first time `cap` is asked for and only on a terminal. */
    method Ensure(cap: string) returns (r: Option<seq<byte>>)
      requires Valid()
      modifies this
      ensures Valid()
      ensures r == Probe(tty, db, cap)
      ensures cache == old(cache)[cap := r]
      ensures lookups == if cap in old(cache) || !tty then old(lookups) else old(lookups) + [cap]
    {
      if cap !in cache {
        var s: Option<seq<byte>>;
        if !tty {
          s := None;
        } else {
          lookups := lookups + [cap];
          s := if cap in db then Some(db[cap]) else None;
          if s.None? || HasDelay(s.value) {
            s := None;
          }
        }
        cache := cache[cap := s];
      }
      r := cache[cap];
    }

    /** `has(*caps)`: whether every capability is present; like `all(...)`
        it stops probing at the first absent one. */
    method Has(caps: seq<string>) returns (all: bool)
      requires Valid()
      modifies this
      ensures Valid()
      ensures all <==> forall i :: 0 <= i < |caps| ==> Probe(tty, db, caps[i]).Some?
      ensures cache.Keys == old(cache).Keys + Examined(tty, db, caps)
    {
      ghost var k := FirstAbsent(tty, db, caps);
      ExaminedIsFirstCaps(tty, db, caps);
      var i := 0;
      while i < |caps|
        invariant 0 <= i <= |caps| && i <= k
        invariant Valid()
        invariant cache.Keys == old(cache).Keys + FirstCaps(caps, i)
      {
        var v := Ensure(caps[i]);
        FirstCapsStep(caps, i);
        if v.None? {
          return false;
        }
        i := i + 1;
      }
      return true;
    }
  }

  /** What reaches the terminal: a capability string, text, or a flush. */
  datatype Out = Cap(name: string) | Text(s: string) | Flush

  /** Redrawing the status line with `msg`: back to column 0, clear the
      line, no wrapping while writing, wrapping back on, flush. */
  function Redraw(msg: string): (o: seq<Out>)
    ensures |o| == 6 && o[3] == Text(msg)
  {
    [Cap("cr"), Cap("el"), Cap("rmam"), Text(msg), Cap("smam"), Flush]
  }

  /** One `update(msg)`: the new `last` and what is written. */
  function UpdateStep(enabled: bool, last: Option<string>, msg: string): (r: (Option<string>, seq<Out>))
    ensures !enabled ==> r == (last, [])
    ensures enabled ==> r.0 == Some(msg)
    ensures r.1 != [] <==> enabled && last != Some(msg)
    ensures r.1 != [] ==> r.1 == Redraw(msg)
  {
    if !enabled then (last, [])
    else if last != Some(msg) then (Some(msg), Redraw(msg))
    else (last, [])
  }

  /** The message `last` holds after a run of updates. */
  function LastShown(enabled: bool, last: Option<string>, msgs: seq<string>): Option<string>
  {
    if enabled && msgs != [] then Some(msgs[|msgs| - 1]) else last
  }

  /** The output of a run of updates that starts from `last`. */
  function UpdatesOutput(enabled: bool, last: Option<string>, msgs: seq<string>): seq<Out>
    decreases |msgs|
  {
    if msgs == [] then []
    else
      var init := msgs[..|msgs| - 1];
      UpdatesOutput(enabled, last, init) + UpdateStep(enabled, LastShown(enabled, last, init), msgs[|msgs| - 1]).1
  }

  /** Number of redraws a run of updates causes: one per message that
      differs from the one shown before it. */
  function Changes(enabled: bool, last: Option<string>, msgs: seq<string>): nat
    decreases |msgs|
  {
    if msgs == [] || !enabled then 0
    else
      var init := msgs[..|msgs| - 1];
      Changes(enabled, last, init) + if LastShown(enabled, last, init) != Some(msgs[|msgs| - 1]) then 1 else 0
  }

  /** Each redraw writes six events, and nothing else is written. */
  lemma {:induction false} UpdatesOutputLength(enabled: bool, last: Option<string>, msgs: seq<string>)
    ensures |UpdatesOutput(enabled, last, msgs)| == 6 * Changes(enabled, last, msgs)
    decreases |msgs|
  {
    if msgs != [] {
      UpdatesOutputLength(enabled, last, msgs[..|msgs| - 1]);
    }
  }

  /** A run of updates followed by one more is the run, then that update
      from the message the run left shown. */
  lemma UpdatesOutputSnoc(enabled: bool, last: Option<string>, msgs: seq<string>, m: string)
    ensures UpdatesOutput(enabled, last, msgs + [m]) ==
      UpdatesOutput(enabled, last, msgs) + UpdateStep(enabled, LastShown(enabled, last, msgs), m).1
    ensures LastShown(enabled, last, msgs + [m]) == UpdateStep(enabled, LastShown(enabled, last, msgs), m).0
  {
    assert (msgs + [m])[..|msgs|] == msgs;
  }

  /** Two runs of updates write what the first writes, then what the second
      writes from the message the first left shown. */
  lemma {:induction false} UpdatesOutputAppend(enabled: bool, last: Option<string>, a: seq<string>, b: seq<string>)
    ensures UpdatesOutput(enabled, last, a + b) ==
      UpdatesOutput(enabled, last, a) + UpdatesOutput(enabled, LastShown(enabled, last, a), b)
    ensures LastShown(enabled, last, a + b) == LastShown(enabled, LastShown(enabled, last, a), b)
    decreases |b|
  {
    if b == [] {
      assert a + b == a;
    } else {
      var init := b[..|b| - 1];
      var m := b[|b| - 1];
      assert a + b == (a + init) + [m];
      assert b == init + [m];
      UpdatesOutputAppend(enabled, last, a, init);
      UpdatesOutputSnoc(enabled, last, a + init, m);
      UpdatesOutputSnoc(enabled, LastShown(enabled, last, a), init, m);
    }
  }

  /** Two identical consecutive updates write once; two different ones
      write twice. */
  lemma RepeatedUpdateWritesOnce(last: Option<string>, a: string, b: string)
    requires last != Some(a)
    ensures Changes(true, last, [a, b]) == if a == b then 1 else 2
  {
    assert [a, b][..1] == [a] && [a][..0] == [];
    assert Changes(true, last, [a]) == 1;
  }

  lemma DisabledUpdatesWriteNothing(last: Option<string>, msgs: seq<string>)
    ensures UpdatesOutput(false, last, msgs) == []
    decreases |msgs|
  {
    if msgs != [] {
      DisabledUpdatesWriteNothing(last, msgs[..|msgs| - 1]);
    }
  }

  /** The one status line; `enabled` is the probe's verdict on
      `StatusCaps`, and `last` is unset until the block is entered. */
  class StatusMessage {
    const enabled: bool
    var last: Option<string>
    var out: seq<Out>
    /** Every message passed to `update`, written or not. */
    ghost var calls: seq<string>

    constructor (enabled: bool)
      ensures this.enabled == enabled
      ensures last == None && out == [] && calls == []
    {
      this.enabled := enabled;
      last := None;
      out := [];
      calls := [];
    }

    /** `update(msg)`: redraws only when enabled and `msg` differs from the
        message last shown; before `__enter__` an enabled display has no
        `last` yet, which Python reports as an error. */
    method Update(msg: string)
      requires !enabled || last.Some?
      modifies this
      ensures last == UpdateStep(enabled, old(last), msg).0
      ensures out == old(out) + UpdateStep(enabled, old(last), msg).1
      ensures calls == old(calls) + [msg]
    {
      calls := calls + [msg];
      if !enabled {
        assert out == old(out) + [];
        return;
      }
      if last != Some(msg) {
        out := out + Redraw(msg);
        last := Some(msg);
      } else {
        assert out == old(out) + [];
      }
    }

    /** `__enter__`: resets `last` to the empty message, so the initial blank
        update writes nothing. */
    method Enter()
      modifies this
      ensures last == Some("") && out == old(out)
      ensures calls == old(calls) + [""]
    {
      last := Some("");
      Update("");
    }

    /** `__exit__`: when enabled, returns to column 0, clears the line and
        flushes; otherwise writes nothing. */
    method Exit()
      modifies this
      ensures out == old(out) + (if enabled then [Cap("cr"), Cap("el"), Flush] else [])
      ensures last == old(last) && calls == old(calls)
    {
      if enabled {
        out := out + [Cap("cr"), Cap("el"), Flush];
      }
    }
  }

  /** `StatusMessage(stream)`: the display is enabled exactly when the
      terminal has all four status capabilities. */
  method NewStatusMessage(ti: Terminfo) returns (m: StatusMessage)
    requires ti.Valid()
    modifies ti
    ensures ti.Valid() && fresh(m)
    ensures m.enabled <==> forall i :: 0 <= i < |StatusCaps| ==> Probe(ti.tty, ti.db, StatusCaps[i]).Some?
    ensures m.last == None && m.out == [] && m.calls == []
  {
    var enabled := ti.Has(StatusCaps);
    m := new StatusMessage(enabled);
  }
}
