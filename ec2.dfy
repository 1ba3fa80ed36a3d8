/** The SSH-config rewriter of `get-ec2-ip.py`: a scan over the lines of
    a config that tracks the current `Host` block and rewrites the
    `HostName` lines of the target block with a new address.

    The two patterns `\s*host(=|\s+)(.+?)(#.+)?` and
    `\s*hostname(=|\s+)(.+?)(#.+)?` are anchored only at the start, so
    the lazy group captures a single character. `AsWritten` models that
    capture; `Intended` captures the whole value, without a trailing
    comment and surrounding whitespace. */
module Ec2 {
  import opened Wrappers
  import opened Text

  datatype Grammar = AsWritten | Intended

  // ---------------------------------------------------------------------
  // The two patterns

  /** The end of the run of whitespace that starts at `i`. */
  function SpaceRun(s: string, i: nat): (j: nat)
    requires i <= |s|
    ensures i <= j <= |s|
    ensures forall k :: i <= k < j ==> IsSpace(s[k])
    ensures j < |s| ==> !IsSpace(s[j])
    decreases |s| - i
  {
    if i < |s| && IsSpace(s[i]) then SpaceRun(s, i + 1) else i
  }

  /** `kw` (lower-case) matches `s` at `i`, ignoring the case of letters. */
  predicate MatchesAt(s: string, i: nat, kw: string) {
    i + |kw| <= |s| && forall k :: 0 <= k < |kw| ==> Lower(s[i + k]) == kw[k]
  }

  /** Where `\s*` followed by the keyword ends, when the line starts that way. */
  function KeywordEnd(kw: string, line: string): (r: Option<nat>)
    ensures r.Some? ==> |kw| <= r.value <= |line|
  {
    var p := SpaceRun(line, 0);
    if MatchesAt(line, p, kw) then Some(p + |kw|) else None
  }

  /** The one character `(.+?)` captures after the keyword ends at `p`.
      After `=` it is the next character. After whitespace it is the first
      character past the run; when the run reaches the end of the line,
      the greedy `\s+` gives back characters until `.` can match one that
      is not a newline. */
  function OneCharValue(line: string, p: nat): (r: Option<string>)
    requires p <= |line|
    ensures r.Some? ==> |r.value| == 1 && r.value[0] != '\n'
  {
    if p < |line| && line[p] == '=' then
      (if p + 1 < |line| && line[p + 1] != '\n' then Some([line[p + 1]]) else None)
    else
      var q := SpaceRun(line, p);
      if q == p then None
      else if q < |line| then Some([line[q]])
      else LastNonNewline(line, p + 1, q)
  }

  /** The last character in `line[lo..hi]` that is not a newline. */
  function LastNonNewline(line: string, lo: nat, hi: nat): (r: Option<string>)
    requires hi <= |line|
    ensures r.Some? ==> |r.value| == 1 && r.value[0] != '\n'
    decreases hi
  {
    if hi <= lo then None
    else if line[hi - 1] != '\n' then Some([line[hi - 1]])
    else LastNonNewline(line, lo, hi - 1)
  }

  /** The text before the first `#`. */
  function BeforeComment(s: string): (r: string)
    ensures '#' !in r && StartsWith(s, r)
    ensures '#' !in s ==> r == s
  {
    if s == [] || s[0] == '#' then [] else [s[0]] + BeforeComment(s[1..])
  }

  /** The whole value after the separator, without a comment, stripped;
      an empty value does not match. */
  function FullValue(line: string, p: nat): (r: Option<string>)
    requires p <= |line|
    ensures r.Some? ==> r.value != [] && '#' !in r.value
  {
    var start := if p < |line| && line[p] == '=' then p + 1 else SpaceRun(line, p);
    if start == p then None
    else
      var v := Strip(BeforeComment(line[start..]));
      StripInside(BeforeComment(line[start..]));
      if v == [] then None else Some(v)
  }

  lemma {:induction false} StripInside(s: string)
    ensures forall c :: c in Strip(s) ==> c in s
    decreases |s|
  {
    if |s| > 0 && IsSpace(s[0]) {
      StripInside(s[1..]);
    } else {
      RStripInside(s);
    }
  }

  lemma {:induction false} RStripInside(s: string)
    ensures forall c :: c in RStrip(s) ==> c in s
    decreases |s|
  {
    if |s| > 0 && IsSpace(s[|s| - 1]) {
      RStripInside(s[..|s| - 1]);
    }
  }

  /** Group 2 of the pattern for `kw`, or `None` when the line does not match. */
  function Capture(g: Grammar, kw: string, line: string): (r: Option<string>)
  {
    match KeywordEnd(kw, line)
    case None => None
    case Some(p) => if g == AsWritten then OneCharValue(line, p) else FullValue(line, p)
  }

  /** A `HostName` line never matches the `Host` pattern: after `host`
      comes `n`, which is neither `=` nor whitespace. */
  lemma HostNameIsNotHost(g: Grammar, line: string)
    requires KeywordEnd("hostname", line).Some?
    ensures Capture(g, "host", line) == None
  {
    var p := SpaceRun(line, 0);
    assert MatchesAt(line, p, "hostname");
    assert forall k :: 0 <= k < 4 ==> Lower(line[p + k]) == "host"[k] by {
      forall k | 0 <= k < 4 ensures Lower(line[p + k]) == "host"[k] {
        assert "hostname"[k] == "host"[k];
      }
    }
    assert Lower(line[p + 4]) == "hostname"[4];
    assert SpaceRun(line, p + 4) == p + 4;
  }

  lemma HostNameExcludesHost(g: Grammar, line: string)
    requires Capture(g, "host", line).Some?
    ensures Capture(g, "hostname", line) == None
  {
    if KeywordEnd("hostname", line).Some? {
      HostNameIsNotHost(g, line);
    }
  }

  /** As written, every capture is a single character. */
  lemma AsWrittenCapturesOneChar(kw: string, line: string)
    ensures Capture(AsWritten, kw, line).Some? ==> |Capture(AsWritten, kw, line).value| == 1
  {
  }

  /** A keyword of the patterns: lower-case letters only. */
  predicate LowerWord(kw: string) {
    |kw| > 0 && forall k :: 0 <= k < |kw| ==> 'a' <= kw[k] <= 'z'
  }

  lemma KeywordsLower()
    ensures LowerWord("host") && LowerWord("hostname")
  {
  }

  /** The intended grammar captures the whole value of a line
      `<lead><keyword> <value><end>`, whatever the case of the keyword. */
  lemma IntendedCapturesValue(kw: string, lead: string, word: string, v: string, end: string)
    requires LowerWord(kw)
    requires |word| == |kw| && forall k :: 0 <= k < |kw| ==> Lower(word[k]) == kw[k]
    requires forall k :: 0 <= k < |lead| ==> IsSpace(lead[k])
    requires v != [] && !IsSpace(v[0]) && !IsSpace(v[|v| - 1]) && '#' !in v
    requires forall k :: 0 <= k < |end| ==> IsSpace(end[k])
    ensures Capture(Intended, kw, lead + word + " " + v + end) == Some(v)
  {
    var line := lead + word + " " + v + end;
    KeywordThenSpace(kw, lead, word, v + end);
    assert line == lead + word + " " + (v + end);
    var p := |lead| + |kw|;
    assert KeywordEnd(kw, line) == Some(p);
    assert line[p + 1..] == v + end;
    FullValueAfterSpace(line, p, v, end);
  }

  /** The value after one space, followed by trailing whitespace only. */
  lemma FullValueAfterSpace(line: string, p: nat, v: string, end: string)
    requires p < |line| && line[p] == ' ' && SpaceRun(line, p) == p + 1
    requires line[p + 1..] == v + end
    requires v != [] && !IsSpace(v[0]) && !IsSpace(v[|v| - 1]) && '#' !in v
    requires forall k :: 0 <= k < |end| ==> IsSpace(end[k])
    ensures FullValue(line, p) == Some(v)
  {
    EndHasNoComment(v, end);
    StripTrailing(v, end);
  }

  /** As written, the same line yields only the first character of the
      value. */
  lemma AsWrittenCapturesFirstChar(kw: string, lead: string, word: string, v: string, end: string)
    requires LowerWord(kw)
    requires |word| == |kw| && forall k :: 0 <= k < |kw| ==> Lower(word[k]) == kw[k]
    requires forall k :: 0 <= k < |lead| ==> IsSpace(lead[k])
    requires v != [] && !IsSpace(v[0])
    ensures Capture(AsWritten, kw, lead + word + " " + v + end) == Some([v[0]])
  {
    KeywordThenSpace(kw, lead, word, v + end);
    assert lead + word + " " + v + end == lead + word + " " + (v + end);
  }

  /** The keyword `kw`, written as `word` after the whitespace `lead`,
      followed by one space and a non-space character. */
  lemma KeywordThenSpace(kw: string, lead: string, word: string, rest: string)
    requires LowerWord(kw)
    requires |word| == |kw| && forall k :: 0 <= k < |kw| ==> Lower(word[k]) == kw[k]
    requires forall k :: 0 <= k < |lead| ==> IsSpace(lead[k])
    requires rest != [] && !IsSpace(rest[0])
    ensures var line := lead + word + " " + rest;
            var p := |lead| + |kw|;
            KeywordEnd(kw, line) == Some(p)
            && p < |line| && line[p] == ' ' && SpaceRun(line, p) == p + 1
            && line[p + 1] == rest[0]
  {
    var line := lead + word + " " + rest;
    var p := |lead| + |kw|;
    assert |line| == p + 1 + |rest|;
    assert forall k :: 0 <= k < |lead| ==> line[k] == lead[k];
    assert forall k :: 0 <= k < |kw| ==> line[|lead| + k] == word[k];
    assert line[p] == ' ' && line[p + 1] == rest[0];
    assert !IsSpace(line[|lead|]) by {
      assert Lower(word[0]) == kw[0];
    }
    SpaceRunOver(line, 0, |lead|);
    assert MatchesAt(line, |lead|, kw);
    SpaceRunOver(line, p, p + 1);
  }

  lemma {:induction false} SpaceRunOver(s: string, i: nat, j: nat)
    requires i <= j < |s|
    requires forall k :: i <= k < j ==> IsSpace(s[k])
    requires !IsSpace(s[j])
    ensures SpaceRun(s, i) == j
    decreases j - i
  {
    if i < j {
      SpaceRunOver(s, i + 1, j);
    }
  }

  lemma {:induction false} EndHasNoComment(v: string, end: string)
    requires '#' !in v
    requires forall k :: 0 <= k < |end| ==> IsSpace(end[k])
    ensures BeforeComment(v + end) == v + end
  {
    assert '#' !in v + end by {
      forall k | 0 <= k < |v + end| ensures (v + end)[k] != '#' {
        if k >= |v| { assert (v + end)[k] == end[k - |v|]; }
      }
    }
  }

  lemma {:induction false} StripTrailing(v: string, end: string)
    requires v != [] && !IsSpace(v[0]) && !IsSpace(v[|v| - 1])
    requires forall k :: 0 <= k < |end| ==> IsSpace(end[k])
    ensures Strip(v + end) == v
    decreases |end|
  {
    if end == [] {
      assert v + end == v;
      StripUnchanged(v);
    } else {
      var e := end[..|end| - 1];
      StripTrailing(v, e);
      assert (v + end)[..|v + end| - 1] == v + e;
      assert (v + end)[0] == v[0];
      assert (v + e)[0] == v[0];
    }
  }

  // ---------------------------------------------------------------------
  // The scan

  /** The current host after the lines `ls`: the value of the last line
      that matches the `Host` pattern, `None` before any. */
  function HostAfter(g: Grammar, ls: seq<string>): (h: Option<string>)
    ensures h.None? <==> forall k :: 0 <= k < |ls| ==> Capture(g, "host", ls[k]).None?
    ensures h.Some? ==> exists k :: 0 <= k < |ls| && Capture(g, "host", ls[k]) == h
    decreases |ls|
  {
    if ls == [] then None
    else match Capture(g, "host", ls[|ls| - 1])
      case Some(v) => Some(v)
      case None => HostAfter(g, ls[..|ls| - 1])
  }

  /** One line of output, given the current host. */
  function Rewrite(g: Grammar, host: Option<string>, line: string, target: string, address: string): string {
    if host == Some(target) then
      match Capture(g, "hostname", line)
      case Some(prev) => ReplaceAll(line, prev, address)
      case None => line
    else line
  }

  /** The rewritten config. */
  function NewConfig(g: Grammar, ls: seq<string>, target: string, address: string): (out: seq<string>)
    ensures |out| == |ls|
    decreases |ls|
  {
    if ls == [] then []
    else NewConfig(g, ls[..|ls| - 1], target, address)
         + [Rewrite(g, HostAfter(g, ls), ls[|ls| - 1], target, address)]
  }

  /** `iter_new_config`: the host is updated first, then a `HostName` line
      of the target block has its old value replaced by the address. */
  method IterNewConfig(g: Grammar, lines: seq<string>, target: string, address: string) returns (out: seq<string>)
    ensures out == NewConfig(g, lines, target, address)
  {
    var host: Option<string> := None;
    out := [];
    var i := 0;
    while i < |lines|
      invariant 0 <= i <= |lines|
      invariant host == HostAfter(g, lines[..i])
      invariant out == NewConfig(g, lines[..i], target, address)
    {
      var line;
      host, line := RewriteLine(g, host, lines[i], target, address);
      NewConfigStep(g, lines, target, address, i);
      out := out + [line];
      i := i + 1;
    }
    assert lines[..i] == lines;
  }

  /** The body of `iter_new_config`'s loop: the host is updated first,
      then a `HostName` line of the target block is rewritten. */
  method RewriteLine(g: Grammar, host: Option<string>, line: string, target: string, address: string)
    returns (host': Option<string>, line': string)
    ensures host' == if Capture(g, "host", line).Some? then Capture(g, "host", line) else host
    ensures line' == Rewrite(g, host', line, target, address)
  {
    host', line' := host, line;
    var m := Capture(g, "host", line);
    if m.Some? {
      host' := m;
    }
    m := Capture(g, "hostname", line);
    if m.Some? && host' == Some(target) {
      line' := ReplaceAll(line, m.value, address);
    }
  }

  /** The config up to line `i` grows by the rewrite of line `i`. */
  lemma NewConfigStep(g: Grammar, ls: seq<string>, target: string, address: string, i: nat)
    requires i < |ls|
    ensures NewConfig(g, ls[..i + 1], target, address)
            == NewConfig(g, ls[..i], target, address) + [Rewrite(g, HostAfter(g, ls[..i + 1]), ls[i], target, address)]
    ensures HostAfter(g, ls[..i + 1])
            == (if Capture(g, "host", ls[i]).Some? then Capture(g, "host", ls[i]) else HostAfter(g, ls[..i]))
  {
    assert ls[..i + 1][..i] == ls[..i];
  }

  /** One output line per input line, each the rewrite of its input under
      the host current at that line. */
  lemma {:induction false} NewConfigAt(g: Grammar, ls: seq<string>, target: string, address: string, i: nat)
    requires i < |ls|
    ensures NewConfig(g, ls, target, address)[i]
            == Rewrite(g, HostAfter(g, ls[..i + 1]), ls[i], target, address)
    decreases |ls|
  {
    if i < |ls| - 1 {
      NewConfigAt(g, ls[..|ls| - 1], target, address, i);
      assert ls[..|ls| - 1][..i + 1] == ls[..i + 1];
    } else {
      assert ls[..i + 1] == ls;
    }
  }

  /** Lines outside the target block, including the lines before any
      `Host` line, pass through unchanged; so do the lines of the block
      that are not `HostName` lines. Inside the block a `HostName` line
      has every occurrence of its old value replaced. */
  lemma BlockRewrite(g: Grammar, ls: seq<string>, target: string, address: string, i: nat)
    requires i < |ls|
    ensures var out := NewConfig(g, ls, target, address);
            var host := HostAfter(g, ls[..i + 1]);
            var m := Capture(g, "hostname", ls[i]);
            (host != Some(target) ==> out[i] == ls[i])
            && (host == Some(target) && m.None? ==> out[i] == ls[i])
            && (host == Some(target) && m.Some? ==> out[i] == ReplaceAll(ls[i], m.value, address))
  {
    NewConfigAt(g, ls, target, address, i);
  }

  /** Before the first `Host` line there is no current host. */
  lemma {:induction false} NoHostYet(g: Grammar, ls: seq<string>)
    requires forall k :: 0 <= k < |ls| ==> Capture(g, "host", ls[k]).None?
    ensures HostAfter(g, ls) == None
    decreases |ls|
  {
    if ls != [] {
      NoHostYet(g, ls[..|ls| - 1]);
    }
  }

  /** The current host changes only on a line that matches the `Host`
      pattern, and then it becomes that line's value. */
  lemma HostChanges(g: Grammar, ls: seq<string>, i: nat)
    requires i < |ls|
    ensures var m := Capture(g, "host", ls[i]);
            HostAfter(g, ls[..i + 1]) == (if m.Some? then m else HostAfter(g, ls[..i]))
  {
    assert ls[..i + 1][..i] == ls[..i];
  }

  // ---------------------------------------------------------------------
  // What the one-character capture does

  lemma {:induction false} AsWrittenHostIsOneChar(ls: seq<string>)
    ensures HostAfter(AsWritten, ls).Some? ==> |HostAfter(AsWritten, ls).value| == 1
    decreases |ls|
  {
    if ls != [] {
      AsWrittenHostIsOneChar(ls[..|ls| - 1]);
    }
  }

  /** As written, a target host longer than one character is never the
      current host, so the config comes back unchanged. */
  lemma {:induction false} AsWrittenIgnoresLongTargets(ls: seq<string>, target: string, address: string)
    requires |target| != 1
    ensures NewConfig(AsWritten, ls, target, address) == ls
    decreases |ls|
  {
    if ls != [] {
      AsWrittenIgnoresLongTargets(ls[..|ls| - 1], target, address);
      AsWrittenHostIsOneChar(ls);
      assert ls == ls[..|ls| - 1] + [ls[|ls| - 1]];
    }
  }

  /** A two-line config: the block `Host <t>` with the address `v`. */
  function BlockConfig(t: string, v: string): seq<string> {
    ["Host " + t + "\n", "  HostName " + v + "\n"]
  }

  /** A value that `IntendedCapturesValue` accepts. */
  predicate Token(v: string) {
    v != [] && !IsSpace(v[0]) && !IsSpace(v[|v| - 1]) && '#' !in v
  }

  /** As written, a block whose host has more than one character keeps its
      address. */
  lemma BlockAsWritten(t: string, v: string, address: string)
    requires |t| > 1
    ensures NewConfig(AsWritten, BlockConfig(t, v), t, address) == BlockConfig(t, v)
  {
    AsWrittenIgnoresLongTargets(BlockConfig(t, v), t, address);
  }

  lemma BlockHostCaptured(t: string)
    requires Token(t)
    ensures Capture(Intended, "host", "Host " + t + "\n") == Some(t)
  {
    KeywordsLower();
    IntendedCapturesValue("host", "", "Host", t, "\n");
    assert "" + "Host" + " " == "Host ";
  }

  lemma HostNameLead()
    ensures "  " + "HostName" + " " == "  HostName "
  {
  }

  lemma BlockAddressCaptured(v: string)
    requires Token(v)
    ensures Capture(Intended, "hostname", "  HostName " + v + "\n") == Some(v)
    ensures Capture(Intended, "host", "  HostName " + v + "\n") == None
  {
    KeywordsLower();
    IntendedCapturesValue("hostname", "  ", "HostName", v, "\n");
    HostNameLead();
    HostNameIsNotHost(Intended, "  HostName " + v + "\n");
  }

  lemma BlockAddressReplaced(v: string, address: string)
    requires Token(v) && IsDigit(v[0])
    ensures ReplaceAll("  HostName " + v + "\n", v, address) == "  HostName " + address + "\n"
  {
    var a := "  HostName ";
    forall i | 0 <= i < |a| ensures !OccursAt(a + v + "\n", v, i) {
      assert (a + v + "\n")[i] == a[i];
    }
    assert !Contains("\n", v) by {
      if |v| == 1 {
        assert !OccursAt("\n", v, 0);
      }
    }
    ReplaceAfter(a, v, "\n", address);
  }

  /** With the intended capture, the block's address is replaced by the
      new one; the `Host` line stays. */
  lemma BlockIntended(t: string, v: string, address: string)
    requires Token(t) && Token(v) && IsDigit(v[0])
    ensures NewConfig(Intended, BlockConfig(t, v), t, address)
            == ["Host " + t + "\n", "  HostName " + address + "\n"]
  {
    var ls := BlockConfig(t, v);
    BlockHostCaptured(t);
    BlockAddressCaptured(v);
    BlockAddressReplaced(v, address);
    assert Capture(Intended, "hostname", ls[0]) == None by {
      assert Capture(Intended, "host", ls[0]).Some?;
      HostNameExcludesHost(Intended, ls[0]);
    }
    assert ls[..1] == [ls[0]] && [ls[0]][..0] == [];
    assert HostAfter(Intended, ls[..1]) == Some(t);
    assert ls[..2] == ls;
    HostChanges(Intended, ls, 1);
    NewConfigAt(Intended, ls, t, address, 0);
    NewConfigAt(Intended, ls, t, address, 1);
  }

  /** `replace` of a value that occurs once, after a prefix that does not
      run into it, and before a tail without it. */
  lemma {:induction false} ReplaceAfter(a: string, v: string, b: string, rep: string)
    requires |v| > 0
    requires forall i :: 0 <= i < |a| ==> !OccursAt(a + v + b, v, i)
    requires !Contains(b, v)
    ensures ReplaceAll(a + v + b, v, rep) == a + rep + b
    decreases |a|
  {
    if a == [] {
      assert a + v + b == v + b;
      assert (v + b)[|v|..] == b;
      assert StartsWith(v + b, v) by { assert (v + b)[..|v|] == v; }
      ReplaceAbsent(b, v, rep);
    } else {
      assert !OccursAt(a + v + b, v, 0);
      assert (a + v + b)[1..] == a[1..] + v + b;
      forall i | 0 <= i < |a| - 1 ensures !OccursAt(a[1..] + v + b, v, i) {
        assert !OccursAt(a + v + b, v, i + 1);
        assert (a + v + b)[i + 1..i + 1 + |v|] == (a[1..] + v + b)[i..i + |v|];
      }
      ReplaceAfter(a[1..], v, b, rep);
      assert a + rep + b == [a[0]] + (a[1..] + rep + b);
    }
  }

  /** With the intended capture, a `HostName` line of the target block has
      its whole value replaced. */
  lemma IntendedRewritesAddress(ls: seq<string>, target: string, address: string, i: nat,
                                lead: string, word: string, v: string, end: string)
    requires i < |ls|
    requires HostAfter(Intended, ls[..i + 1]) == Some(target)
    requires |word| == 8 && forall k :: 0 <= k < 8 ==> Lower(word[k]) == "hostname"[k]
    requires forall k :: 0 <= k < |lead| ==> IsSpace(lead[k])
    requires v != [] && !IsSpace(v[0]) && !IsSpace(v[|v| - 1]) && '#' !in v
    requires forall k :: 0 <= k < |end| ==> IsSpace(end[k])
    requires ls[i] == lead + word + " " + v + end
    ensures NewConfig(Intended, ls, target, address)[i] == ReplaceAll(ls[i], v, address)
  {
    KeywordsLower();
    IntendedCapturesValue("hostname", lead, word, v, end);
    NewConfigAt(Intended, ls, target, address, i);
  }
}
