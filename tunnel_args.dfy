/**
 * The value builders of the tunnel supervisor bin/jt.py: the `--port`
 * converter `int_or_pair`, the elapsed-time formatter `format_timedelta`,
 * and the ssh command line that `main` assembles.
 */
module TunnelArgs {
  import opened Wrappers
  import opened Text

  // ---------------------------------------------------------------------
  // int_or_pair

  /** A port forwarding rule: one port forwarded to itself, or a
      (remote, local) pair. */
  datatype PortSpec = Single(port: int) | Pair(remote: int, local: int)

  /** What click hands to the converter: the default (an int), an already
      converted tuple, or the text of a `-p` option. */
  datatype PortArg = IntArg(n: int) | TupleArg(remote: int, local: int) | StrArg(s: string)

  /** The converter's `ValueError`, which click reports as a bad parameter. */
  datatype PortError = BadPort(text: string)

  /** `int_or_pair(value)`: ints and tuples pass through; text with a comma
      must be exactly two integers "remote,local"; other text one integer. */
  function IntOrPair(value: PortArg): (r: Result<PortSpec, PortError>)
    ensures value.IntArg? ==> r == Ok(Single(value.n))
    ensures value.TupleArg? ==> r == Ok(Pair(value.remote, value.local))
    ensures value.StrArg? && ',' !in value.s ==>
      (r.Ok? <==> ParseInt(value.s).Some?) && (r.Ok? ==> r.value == Single(ParseInt(value.s).value))
    ensures value.StrArg? && ',' in value.s ==>
      (r.Ok? <==> (|SplitOn(value.s, ',')| == 2
                   && ParseInt(SplitOn(value.s, ',')[0]).Some?
                   && ParseInt(SplitOn(value.s, ',')[1]).Some?))
    ensures value.StrArg? && ',' in value.s && r.Ok? ==>
      r.value == Pair(ParseInt(SplitOn(value.s, ',')[0]).value, ParseInt(SplitOn(value.s, ',')[1]).value)
  {
    match value
    case IntArg(n) => Ok(Single(n))
    case TupleArg(a, b) => Ok(Pair(a, b))
    case StrArg(s) =>
      if ',' in s then
        var parts := SplitOn(s, ',');
        if |parts| != 2 then Err(BadPort(s))
        else
          match (ParseInt(parts[0]), ParseInt(parts[1]))
          case (Some(a), Some(b)) => Ok(Pair(a, b))
          case _ => Err(BadPort(s))
      else
        match ParseInt(s)
        case Some(n) => Ok(Single(n))
        case None => Err(BadPort(s))
  }

  lemma NoCommaInInt(i: int)
    ensures ',' !in IntToString(i)
  {
    var a := IntToString(i);
    if i < 0 {
      assert a == "-" + NatToDecimal(-i);
      assert forall k :: 1 <= k < |a| ==> IsDigit(a[k]);
    }
  }

  /** The text "r,l" of two integers converts to the pair (r, l). */
  lemma PairTextRoundTrip(remote: int, local: int)
    ensures IntOrPair(StrArg(IntToString(remote) + "," + IntToString(local))) == Ok(Pair(remote, local))
  {
    var a, b := IntToString(remote), IntToString(local);
    NoCommaInInt(remote);
    NoCommaInInt(local);
    var s := a + "," + b;
    assert s == a + [','] + b;
    SplitOnAfter(a, ',', b);
    SplitOnNoSeparator(b, ',');
    assert SplitOn(s, ',') == [a, b];
    assert s[|a|] == ',';
    ParseIntRoundTrip(remote);
    ParseIntRoundTrip(local);
  }

  /** The text of one integer converts to that single port. */
  lemma SingleTextRoundTrip(port: int)
    ensures IntOrPair(StrArg(IntToString(port))) == Ok(Single(port))
  {
    NoCommaInInt(port);
    ParseIntRoundTrip(port);
  }

  /** Text with more than one comma is refused. */
  lemma TooManyCommasRefused(a: string, b: string, c: string)
    requires ',' !in a && ',' !in b
    ensures IntOrPair(StrArg(a + "," + b + "," + c)).Err?
  {
    var s := a + "," + b + "," + c;
    assert s == a + [','] + (b + [','] + c);
    SplitOnAfter(a, ',', b + [','] + c);
    SplitOnAfter(b, ',', c);
    assert s[|a|] == ',';
  }

  // ---------------------------------------------------------------------
  // format_timedelta

  const MicrosPerSecond: int := 1000000

  /** `td.seconds` of the `timedelta` spanning `micros` microseconds: the
      whole seconds within the last day, 0..86399 (Python keeps whole days
      in `td.days`, also for negative spans). */
  function DaySeconds(micros: int): (s: int)
    ensures 0 <= s < 86400
  {
    (micros / MicrosPerSecond) % 86400
  }

  datatype Clock = Clock(hours: int, minutes: int, seconds: int)

  /** The split `format_timedelta` computes: hours by `// 3600`, minutes as
      `seconds // 60 - hours * 60`, seconds by `% 60`. */
  function SplitSeconds(secs: int): (c: Clock)
    requires 0 <= secs < 86400
    ensures c.hours * 3600 + c.minutes * 60 + c.seconds == secs
    ensures 0 <= c.hours < 24 && 0 <= c.minutes < 60 && 0 <= c.seconds < 60
  {
    var hr := secs / 3600;
    Clock(hr, secs / 60 - hr * 60, secs % 60)
  }

  /** `"{:02d}"` of a value below 100. */
  function Pad2(n: int): (r: string)
    requires 0 <= n < 100
    ensures |r| == 2 && AllDigits(r) && DecimalValue(r) == n
  {
    var r := [DigitChar(n / 10), DigitChar(n % 10)];
    assert r[..1] == [DigitChar(n / 10)] && r[..1][..0] == [];
    assert DecimalValue(r[..1]) == n / 10;
    r
  }

  /** `format_timedelta(td)`: "H:MM:SS" of the seconds within the day. */
  function FormatTimedelta(micros: int): (r: string)
    ensures 7 <= |r| <= 8
  {
    var c := SplitSeconds(DaySeconds(micros));
    assert |NatToDecimal(c.hours)| <= 2 by {
      if c.hours >= 10 {
        assert NatToDecimal(c.hours) == NatToDecimal(c.hours / 10) + [DigitChar(c.hours % 10)];
      }
    }
    NatToDecimal(c.hours) + ":" + Pad2(c.minutes) + ":" + Pad2(c.seconds)
  }

  /** Reads an "H:MM:SS" display back into seconds; the partner of
      `FormatTimedelta`. */
  function ReadClock(s: string): Option<int>
  {
    if |s| < 7 then None
    else
      var h, m, sec := s[..|s| - 6], s[|s| - 5..|s| - 3], s[|s| - 2..];
      if s[|s| - 6] == ':' && s[|s| - 3] == ':' && AllDigits(h) && AllDigits(m) && AllDigits(sec)
        && DecimalValue(m) < 60 && DecimalValue(sec) < 60
      then Some(DecimalValue(h) * 3600 + DecimalValue(m) * 60 + DecimalValue(sec))
      else None
  }

  /** The display is the seconds within the day, with two-digit minutes and
      seconds below 60. */
  lemma FormatTimedeltaReadsBack(micros: int)
    ensures ReadClock(FormatTimedelta(micros)) == Some(DaySeconds(micros))
  {
    var c := SplitSeconds(DaySeconds(micros));
    var h, m, sec := NatToDecimal(c.hours), Pad2(c.minutes), Pad2(c.seconds);
    var s := FormatTimedelta(micros);
    assert s == h + ":" + m + ":" + sec;
    assert s[..|s| - 6] == h;
    assert s[|s| - 5..|s| - 3] == m;
    assert s[|s| - 2..] == sec;
    DecimalRoundTrip(c.hours);
  }

  lemma FormatTimedeltaShape(micros: int)
    ensures var s := FormatTimedelta(micros);
      |s| >= 7 && s[|s| - 3] == ':' && s[|s| - 6] == ':' && AllDigits(s[..|s| - 6])
  {
    var c := SplitSeconds(DaySeconds(micros));
    var s := FormatTimedelta(micros);
    assert s[..|s| - 6] == NatToDecimal(c.hours);
  }

  // ---------------------------------------------------------------------
  // The ssh command line of main

  /** `'{0:d}:localhost:{1:d}'` of one rule; a single port is forwarded to
      itself. */
  function ForwardArg(p: PortSpec): string
  {
    match p
    case Single(n) => IntToString(n) + ":localhost:" + IntToString(n)
    case Pair(r, l) => IntToString(r) + ":localhost:" + IntToString(l)
  }

  /** The (remote, local) ports a rule forwards. */
  function Ends(p: PortSpec): (int, int)
  {
    match p
    case Single(n) => (n, n)
    case Pair(r, l) => (r, l)
  }

  /** Reads "remote:localhost:local" back into its two ports; the partner
      of `ForwardArg`. */
  function ReadForward(s: string): Option<(int, int)>
  {
    var parts := SplitOn(s, ':');
    if |parts| == 3 && parts[1] == "localhost" && ParseInt(parts[0]).Some? && ParseInt(parts[2]).Some?
    then Some((ParseInt(parts[0]).value, ParseInt(parts[2]).value))
    else None
  }

  lemma NoColonInInt(i: int)
    ensures ':' !in IntToString(i)
  {
    var a := IntToString(i);
    if i < 0 {
      assert a == "-" + NatToDecimal(-i);
      assert forall k :: 1 <= k < |a| ==> IsDigit(a[k]);
    }
  }

  lemma SplitOnThree(a: string, mid: string, b: string, c: char)
    requires c !in a && c !in mid && c !in b
    ensures SplitOn(a + [c] + mid + [c] + b, c) == [a, mid, b]
  {
    assert a + [c] + mid + [c] + b == a + [c] + (mid + [c] + b);
    SplitOnAfter(a, c, mid + [c] + b);
    SplitOnAfter(mid, c, b);
    SplitOnNoSeparator(b, c);
  }

  /** "a:localhost:b" reads back as the values of its two integer texts. */
  lemma ReadForwardOf(a: string, b: string, r: int, l: int)
    requires ':' !in a && ':' !in b
    requires ParseInt(a) == Some(r) && ParseInt(b) == Some(l)
    ensures ReadForward(a + ":localhost:" + b) == Some((r, l))
  {
    var loc := "localhost";
    assert ':' !in loc;
    LocalhostSeparated();
    calc {
      a + ":localhost:" + b;
      a + ([':'] + loc + [':']) + b;
      { AppendAssoc(a, [':'] + loc, [':']); AppendAssoc(a, [':'], loc); }
      a + [':'] + loc + [':'] + b;
    }
    SplitOnThree(a, loc, b, ':');
  }

  lemma LocalhostSeparated()
    ensures ":localhost:" == [':'] + "localhost" + [':']
  {
  }

  /** Every "-L" argument names exactly the rule's two ports, so a single
      port p is forwarded as p:localhost:p. */
  lemma ForwardArgReadsBack(p: PortSpec)
    ensures ReadForward(ForwardArg(p)) == Some(Ends(p))
  {
    var r, l := Ends(p).0, Ends(p).1;
    NoColonInInt(r);
    NoColonInInt(l);
    ParseIntRoundTrip(r);
    ParseIntRoundTrip(l);
    ReadForwardOf(IntToString(r), IntToString(l), r, l);
  }

  /** The fixed head of the command: verbose, no remote command, keep-alive
      interval and connect timeout. */
  function SshHead(interval: int, connectTimeout: int): seq<string>
  {
    ["ssh", "-v", "-N",
     "-o", "ServerAliveInterval " + IntToString(interval),
     "-o", "ConnectTimeout " + IntToString(connectTimeout)]
  }

  /** "-L rule" for every rule, in the given order. */
  function Forwards(order: seq<PortSpec>): (r: seq<string>)
    ensures |r| == 2 * |order|
  {
    if order == [] then [] else ["-L", ForwardArg(order[0])] + Forwards(order[1..])
  }

  predicate Distinct<T(==)>(s: seq<T>) {
    forall i, j :: 0 <= i < j < |s| ==> s[i] != s[j]
  }

  /** `main`'s argument list: the head, one "-L" per distinct rule of
      `ports` (in the unspecified iteration order of `set(ports)`, returned
      as `order`), then the host; `warned` tells whether the "No ports
      selected" warning was printed. */
  method SshArgs(host: string, ports: seq<PortSpec>, interval: int, connectTimeout: int)
    returns (args: seq<string>, warned: bool, ghost order: seq<PortSpec>)
    ensures Distinct(order) && forall p :: p in order <==> p in ports
    ensures args == SshHead(interval, connectTimeout) + Forwards(order) + [host]
    ensures warned <==> ports == []
  {
    args := SshHead(interval, connectTimeout);
    warned := ports == [];
    order := [];
    var remaining := set p | p in ports;
    while remaining != {}
      invariant forall p :: p in order ==> p in ports && p !in remaining
      invariant forall p :: p in ports ==> p in order || p in remaining
      invariant forall p :: p in remaining ==> p in ports
      invariant Distinct(order)
      invariant args == SshHead(interval, connectTimeout) + Forwards(order)
      decreases remaining
    {
      var port :| port in remaining;
      ForwardsAppend(order, port);
      AppendAssoc(SshHead(interval, connectTimeout), Forwards(order), ["-L", ForwardArg(port)]);
      args := args + ["-L", ForwardArg(port)];
      assert port !in order;
      order := order + [port];
      remaining := remaining - {port};
    }
    args := args + [host];
  }

  lemma {:induction false} ForwardsAppend(order: seq<PortSpec>, p: PortSpec)
    ensures Forwards(order + [p]) == Forwards(order) + ["-L", ForwardArg(p)]
  {
    if order != [] {
      assert (order + [p])[1..] == order[1..] + [p];
      ForwardsAppend(order[1..], p);
    } else {
      assert order + [p] == [p];
    }
  }

  /** The command ends with the host, after the head and 2 arguments per
      distinct rule. */
  lemma SshArgsShape(host: string, order: seq<PortSpec>, interval: int, connectTimeout: int)
    ensures var args := SshHead(interval, connectTimeout) + Forwards(order) + [host];
      |args| == 8 + 2 * |order| && args[|args| - 1] == host && args[..7] == SshHead(interval, connectTimeout)
  {
    var args := SshHead(interval, connectTimeout) + Forwards(order) + [host];
    assert args[..7] == SshHead(interval, connectTimeout);
  }
}
