/** bin/aws-vault-read.py: print one value, or several `key=value`
    lines, from a profile of an AWS credentials file. */
module Vault {
  import opened Wrappers
  import opened Text

  /** A profile section in file order: its keys are distinct. */
  type Section = seq<(string, string)>

  predicate DistinctKeys(sec: Section) {
    forall i, j :: 0 <= i < j < |sec| ==> sec[i].0 != sec[j].0
  }

  /** `section[key]`, if the key is present. */
  function Lookup(sec: Section, key: string): (r: Option<string>)
    ensures r.None? <==> forall i :: 0 <= i < |sec| ==> sec[i].0 != key
    ensures r.Some? ==> exists i :: 0 <= i < |sec| && sec[i] == (key, r.value)
  {
    if sec == [] then None
    else if sec[0].0 == key then Some(sec[0].1)
    else
      var r := Lookup(sec[1..], key);
      assert r.Some? ==> exists i :: 0 <= i < |sec[1..]| && sec[1..][i] == (key, r.value);
      r
  }

  /** The entries whose key contains `key`, values stripped, in order. */
  function Matching(sec: Section, key: string): (r: seq<(string, string)>)
    ensures |r| <= |sec|
    decreases |sec|
  {
    if sec == [] then []
    else
      var prev := Matching(sec[..|sec| - 1], key);
      var (k, v) := sec[|sec| - 1];
      if Contains(k, key) then prev + [(k, Strip(v))] else prev
  }

  /** Which entries are printed: the key itself when it is present,
      otherwise every key containing it. */
  function Selection(sec: Section, key: string): seq<(string, string)> {
    match Lookup(sec, key)
    case Some(v) => [(key, Strip(v))]
    case None => Matching(sec, key)
  }

  /** The outcome of a run: the profile is missing (`KeyError`), nothing
      was selected (a message, then `Abort`), or the echoed lines. */
  datatype Outcome = MissingProfile | NotFound(message: string) | Echo(lines: seq<string>)

  function Report(items: seq<(string, string)>, key: string, profile: string): Outcome {
    if items == [] then NotFound("Can't find key=" + key + " in profile=" + profile)
    else if |items| > 1 then Echo(seq(|items|, i requires 0 <= i < |items| => items[i].0 + "=" + items[i].1))
    else Echo([items[0].1])
  }

  function Run(config: map<string, Section>, key: string, profile: string): Outcome {
    if profile !in config then MissingProfile
    else Report(Selection(config[profile], key), key, profile)
  }

  /** The selection as `main` builds it, appending to `items`. */
  method Select(sec: Section, key: string) returns (items: seq<(string, string)>)
    ensures items == Selection(sec, key)
  {
    items := [];
    var exact := Lookup(sec, key);
    if exact.Some? {
      items := items + [(key, Strip(exact.value))];
    } else {
      var i := 0;
      while i < |sec|
        invariant 0 <= i <= |sec|
        invariant items == Matching(sec[..i], key)
      {
        var (pkey, value) := sec[i];
        assert sec[..i + 1][..i] == sec[..i];
        if Contains(pkey, key) {
          items := items + [(pkey, Strip(value))];
        }
        i := i + 1;
      }
      assert sec[..i] == sec;
    }
  }

  /** `main`, after the credentials file has been read. */
  method ReadKey(config: map<string, Section>, key: string, profile: string) returns (out: Outcome)
    ensures out == Run(config, key, profile)
  {
    if profile !in config {
      return MissingProfile;
    }
    var items := Select(config[profile], key);
    if items == [] {
      out := NotFound("Can't find key=" + key + " in profile=" + profile);
    } else if |items| > 1 {
      var lines := [];
      var i := 0;
      while i < |items|
        invariant 0 <= i <= |items|
        invariant |lines| == i && forall j :: 0 <= j < i ==> lines[j] == items[j].0 + "=" + items[j].1
      {
        lines := lines + [items[i].0 + "=" + items[i].1];
        i := i + 1;
      }
      out := Echo(lines);
    } else {
      out := Echo([items[0].1]);
    }
  }

  // ---------------------------------------------------------------------
  // Properties

  /** A key present exactly wins over every key that merely contains it. */
  lemma ExactKeyWins(sec: Section, key: string, i: nat)
    requires DistinctKeys(sec) && i < |sec| && sec[i].0 == key
    ensures Selection(sec, key) == [(key, Strip(sec[i].1))]
  {
    var v := Lookup(sec, key).value;
    var j :| 0 <= j < |sec| && sec[j] == (key, v);
    assert j == i;
  }

  /** Without an exact key, an entry is selected if and only if its key
      contains the one asked for; its value is then stripped. */
  lemma {:induction false} MatchingIff(sec: Section, key: string, e: (string, string))
    ensures e in Matching(sec, key) <==> exists i :: 0 <= i < |sec| && Selects(sec[i], key, e)
    decreases |sec|
  {
    if sec != [] {
      var init, last := sec[..|sec| - 1], sec[|sec| - 1];
      MatchingIff(init, key, e);
      assert sec == init + [last];
      MatchingSnoc(init, last, key);
      assert e in Found(last, key) <==> Selects(last, key, e);
      if e in Matching(init, key) {
        var i :| 0 <= i < |init| && Selects(init[i], key, e);
        assert sec[i] == init[i];
      }
      if exists i :: 0 <= i < |sec| && Selects(sec[i], key, e) {
        var i :| 0 <= i < |sec| && Selects(sec[i], key, e);
        if i < |init| {
          assert init[i] == sec[i];
        }
      }
    }
  }

  /** Entry `d` of the section yields `e`: its key contains the one asked
      for, and `e` is the entry with its value stripped. */
  predicate Selects(d: (string, string), key: string, e: (string, string)) {
    d.0 == e.0 && Contains(e.0, key) && e.1 == Strip(d.1)
  }

  /** The matches keep the order of the file. */
  lemma {:induction false} MatchingAppend(a: Section, b: Section, key: string)
    ensures Matching(a + b, key) == Matching(a, key) + Matching(b, key)
    decreases |b|
  {
    if b == [] {
      assert a + b == a;
    } else {
      var b0, e := b[..|b| - 1], b[|b| - 1];
      MatchingAppend(a, b0, key);
      assert b == b0 + [e];
      assert a + b == (a + b0) + [e];
      MatchingSnoc(a + b0, e, key);
      MatchingSnoc(b0, e, key);
      AppendAssoc(Matching(a, key), Matching(b0, key), Found(e, key));
    }
  }

  /** What one entry adds to the matches. */
  function Found(e: (string, string), key: string): seq<(string, string)> {
    if Contains(e.0, key) then [(e.0, Strip(e.1))] else []
  }

  lemma MatchingSnoc(s: Section, e: (string, string), key: string)
    ensures Matching(s + [e], key) == Matching(s, key) + Found(e, key)
  {
    assert (s + [e])[..|s|] == s;
  }

  lemma StripIdempotent(s: string)
    ensures Strip(Strip(s)) == Strip(s)
  {
    StripUnchanged(Strip(s));
  }

  /** Every selected value has no surrounding whitespace. */
  lemma {:induction false} ValuesStripped(sec: Section, key: string)
    ensures forall k :: 0 <= k < |Selection(sec, key)| ==>
              Strip(Selection(sec, key)[k].1) == Selection(sec, key)[k].1
  {
    if Lookup(sec, key).None? {
      MatchingStripped(sec, key);
    } else {
      StripIdempotent(Lookup(sec, key).value);
    }
  }

  lemma {:induction false} MatchingStripped(sec: Section, key: string)
    ensures forall k :: 0 <= k < |Matching(sec, key)| ==> Strip(Matching(sec, key)[k].1) == Matching(sec, key)[k].1
    decreases |sec|
  {
    if sec != [] {
      MatchingStripped(sec[..|sec| - 1], key);
      StripIdempotent(sec[|sec| - 1].1);
    }
  }

  lemma ContainsItself(s: string)
    ensures Contains(s, s)
  {
    assert OccursAt(s, s, 0);
  }

  /** The lookup fails exactly when no key of the profile contains the one
      asked for. */
  lemma NotFoundIff(sec: Section, key: string, profile: string)
    ensures Report(Selection(sec, key), key, profile).NotFound? <==>
            forall i :: 0 <= i < |sec| ==> !Contains(sec[i].0, key)
  {
    if Lookup(sec, key).None? {
      if exists i :: 0 <= i < |sec| && Contains(sec[i].0, key) {
        var i :| 0 <= i < |sec| && Contains(sec[i].0, key);
        MatchingIff(sec, key, (sec[i].0, Strip(sec[i].1)));
      }
      if Matching(sec, key) != [] {
        MatchingIff(sec, key, Matching(sec, key)[0]);
      }
    } else {
      var i :| 0 <= i < |sec| && sec[i] == (key, Lookup(sec, key).value);
      ContainsItself(key);
    }
  }

  /** What is printed: a single selection prints its value alone, several
      print one `key=value` line each, in order. */
  lemma OutputShape(items: seq<(string, string)>, key: string, profile: string)
    ensures |items| == 1 ==> Report(items, key, profile) == Echo([items[0].1])
    ensures |items| > 1 ==>
              (Report(items, key, profile).Echo? &&
               |Report(items, key, profile).lines| == |items| &&
               forall i :: 0 <= i < |items| ==>
                 StartsWith(Report(items, key, profile).lines[i], items[i].0 + "=") &&
                 EndsWith(Report(items, key, profile).lines[i], items[i].1))
    ensures items == [] ==>
              (Report(items, key, profile).NotFound? &&
               StartsWith(Report(items, key, profile).message, "Can't find key=" + key))
  {
    if |items| > 1 {
      var ls := Report(items, key, profile).lines;
      forall i | 0 <= i < |items|
        ensures StartsWith(ls[i], items[i].0 + "=") && EndsWith(ls[i], items[i].1)
      {
        assert ls[i] == (items[i].0 + "=") + items[i].1;
      }
    }
    if items == [] {
      var m := Report(items, key, profile).message;
      assert m == ("Can't find key=" + key) + (" in profile=" + profile);
    }
  }
}
