/** The TODO list reader `bin/todo.py`: each non-blank line of the list is
    an item whose trailing `#tag` words are its tags; the `t` command
    groups the items by tag and prints the groups in tag order. */
module Todo {
  import opened Wrappers
  import opened Text

  datatype TodoItem = TodoItem(text: string, tags: set<string>)

  // ---------------------------------------------------------------------
  // Parsing a line

  predicate IsTag(token: string) {
    StartsWith(token, "#")
  }

  /** The length of the trailing run of tag tokens. */
  function TrailingTags(ts: seq<string>): (n: nat)
    ensures n <= |ts|
    ensures forall k :: |ts| - n <= k < |ts| ==> IsTag(ts[k])
    ensures n < |ts| ==> !IsTag(ts[|ts| - n - 1])
    decreases |ts|
  {
    if ts == [] || !IsTag(ts[|ts| - 1]) then 0 else 1 + TrailingTags(ts[..|ts| - 1])
  }

  /** The names of the tag tokens of `ts`, without their `#`. */
  function TagNames(ts: seq<string>): set<string> {
    set k | 0 <= k < |ts| && IsTag(ts[k]) :: ts[k][1..]
  }

  /** Every tag name of a trailing run of tokens is the name of one of
      its tag tokens. */
  lemma TagNamesOfSuffix(ts: seq<string>, n: nat, suffix: seq<string>)
    requires n <= |ts| && suffix == ts[|ts| - n..]
    requires forall k :: |ts| - n <= k < |ts| ==> IsTag(ts[k])
    ensures n == 0 ==> TagNames(suffix) == {}
    ensures n > 0 ==> IsTag(ts[|ts| - 1]) && ts[|ts| - 1][1..] in TagNames(suffix)
    ensures forall x :: x in TagNames(suffix) ==> exists k :: |ts| - n <= k < |ts| && IsTag(ts[k]) && ts[k][1..] == x
  {
    if n > 0 {
      assert suffix[|suffix| - 1] == ts[|ts| - 1];
    }
    forall x | x in TagNames(suffix)
      ensures exists k :: |ts| - n <= k < |ts| && IsTag(ts[k]) && ts[k][1..] == x
    {
      var j :| 0 <= j < |suffix| && IsTag(suffix[j]) && suffix[j][1..] == x;
      assert ts[|ts| - n + j] == suffix[j];
    }
  }

  /** The item a line stands for: the tags are the trailing run of tag
      tokens; they are cut from the text unless every token is a tag. */
  function Item(line: string): Option<TodoItem> {
    var s := Strip(line);
    if s == [] then None else Some(FromTokens(Words(s)))
  }

  /** The item made of the tokens of a non-blank line. */
  function FromTokens(ts: seq<string>): (r: TodoItem)
    ensures r.tags == {} <==> TrailingTags(ts) == 0
    ensures TrailingTags(ts) == 0 ==> r.text == Join(" ", ts)
  {
    var n := TrailingTags(ts);
    var kept := if n == |ts| then ts else ts[..|ts| - n];
    TagNamesOfSuffix(ts, n, ts[|ts| - n..]);
    assert ts[..|ts|] == ts;
    TodoItem(Join(" ", kept), TagNames(ts[|ts| - n..]))
  }

  /** The body of the loop over the lines of the list: the tokens are
      looked at from the last one back, collecting tags until the first
      token that is not one. */
  method ParseLine(line: string) returns (item: Option<TodoItem>)
    ensures item == Item(line)
  {
    var s := Strip(line);
    if s == [] {
      return None;
    }
    var tags: set<string> := {};
    var tokens := Words(s);
    var all := tokens;
    var n := TrailingTags(all);
    var idx := 0;
    while idx < |all|
      invariant 0 <= idx <= n
      invariant tokens == all
      invariant tags == TagNames(all[|all| - idx..])
    {
      var token := all[|all| - 1 - idx];
      if StartsWith(token, "#") {
        assert all[|all| - (idx + 1)..] == [token] + all[|all| - idx..];
        TagNamesCons(token, all[|all| - idx..]);
        tags := tags + {token[1..]};
      } else if idx != 0 {
        assert idx == n;
        tokens := tokens[..|tokens| - idx];
        break;
      } else {
        assert idx == n;
        assert all[..|all| - 0] == all;
        break;
      }
      idx := idx + 1;
    }
    assert idx == n;
    assert n == |all| ==> all[|all| - n..] == all;
    return Some(TodoItem(Join(" ", tokens), tags));
  }

  lemma TagNamesCons(t: string, ts: seq<string>)
    requires IsTag(t)
    ensures TagNames([t] + ts) == {t[1..]} + TagNames(ts)
  {
    var u := [t] + ts;
    forall x | x in TagNames(u) ensures x in {t[1..]} + TagNames(ts) {
      var k :| 0 <= k < |u| && IsTag(u[k]) && u[k][1..] == x;
      if k > 0 { assert u[k] == ts[k - 1]; }
    }
    forall x | x in TagNames(ts) ensures x in TagNames(u) {
      var k :| 0 <= k < |ts| && IsTag(ts[k]) && ts[k][1..] == x;
      assert u[k + 1] == ts[k];
    }
    assert u[0] == t;
  }

  lemma {:induction false} StripEmpty(s: string)
    ensures Strip(s) == [] <==> forall k :: 0 <= k < |s| ==> IsSpace(s[k])
    decreases |s|
  {
    if |s| > 0 && IsSpace(s[0]) {
      StripEmpty(s[1..]);
      assert forall k :: 1 <= k < |s| ==> s[k] == s[1..][k - 1];
    } else {
      RStripEmpty(s);
    }
  }

  lemma {:induction false} RStripEmpty(s: string)
    ensures RStrip(s) == [] <==> forall k :: 0 <= k < |s| ==> IsSpace(s[k])
    decreases |s|
  {
    if |s| > 0 && IsSpace(s[|s| - 1]) {
      RStripEmpty(s[..|s| - 1]);
    }
  }

  /** Blank and whitespace-only lines produce no item; every other line
      produces one. */
  lemma BlankLines(line: string)
    ensures Item(line).None? <==> forall k :: 0 <= k < |line| ==> IsSpace(line[k])
  {
    StripEmpty(line);
  }

  /** A line whose last token is not a tag has no tags, and its tokens
      joined by single spaces as text. */
  lemma ItemUntagged(ts: seq<string>)
    requires ts != [] && !IsTag(ts[|ts| - 1])
    ensures FromTokens(ts).tags == {}
    ensures FromTokens(ts).text == Join(" ", ts)
  {
    assert TrailingTags(ts) == 0;
    assert ts[..|ts| - 0] == ts;
    assert ts[|ts| - 0..] == [];
  }

  /** A line whose tokens are all tags keeps them all in its text. */
  lemma ItemAllTags(ts: seq<string>)
    requires TrailingTags(ts) == |ts|
    ensures FromTokens(ts).text == Join(" ", ts)
    ensures FromTokens(ts).tags == TagNames(ts)
  {
    assert ts[|ts| - |ts|..] == ts;
  }

  /** Otherwise the trailing tags are cut off the text, and a tag token
      before the last plain token stays text. */
  lemma ItemTagsCut(ts: seq<string>, n: nat)
    requires n == TrailingTags(ts) && 0 < n < |ts|
    ensures FromTokens(ts).text == Join(" ", ts[..|ts| - n])
    ensures FromTokens(ts).tags == TagNames(ts[|ts| - n..])
    ensures FromTokens(ts).tags != {}
    ensures !IsTag(ts[|ts| - n - 1])
  {
    var tail := ts[|ts| - n..];
    var item := FromTokens(ts);
    assert item.text == Join(" ", ts[..|ts| - n]);
    assert item.tags == TagNames(tail);
    assert tail[0] == ts[|ts| - n];
    assert 0 < |tail| && IsTag(tail[0]);
    assert tail[0][1..] in TagNames(tail);
  }

  /** A line made of plain words followed by tags: the words are the text
      and the tags' names are the tags. */
  lemma ItemOfWordsAndTags(words: seq<string>, tags: seq<string>)
    requires words != [] && !IsTag(words[|words| - 1])
    requires forall k :: 0 <= k < |words| ==> IsToken(words[k])
    requires forall k :: 0 <= k < |tags| ==> IsToken(tags[k]) && IsTag(tags[k])
    ensures Item(Join(" ", words + tags)) == Some(TodoItem(Join(" ", words), TagNames(tags)))
  {
    var ts := words + tags;
    assert forall k :: 0 <= k < |ts| ==> IsToken(ts[k]);
    JoinedTokensStripped(ts);
    WordsOfJoin(ts);
    TrailingTagsOf(words, tags);
    assert ts[..|ts| - |tags|] == words;
    assert ts[|ts| - |tags|..] == tags;
    assert FromTokens(ts) == TodoItem(Join(" ", words), TagNames(tags));
  }

  lemma {:induction false} TrailingTagsOf(words: seq<string>, tags: seq<string>)
    requires words != [] && !IsTag(words[|words| - 1])
    requires forall k :: 0 <= k < |tags| ==> IsTag(tags[k])
    ensures TrailingTags(words + tags) == |tags|
    decreases |tags|
  {
    var ts := words + tags;
    if tags == [] {
      assert ts == words;
    } else {
      assert ts[..|ts| - 1] == words + tags[..|tags| - 1];
      TrailingTagsOf(words, tags[..|tags| - 1]);
    }
  }

  /** Tokens joined by single spaces split back into the same tokens. */
  lemma {:induction false} WordsOfJoin(ts: seq<string>)
    requires forall k :: 0 <= k < |ts| ==> IsToken(ts[k])
    ensures Words(Join(" ", ts)) == ts
    decreases |ts|
  {
    if ts == [] {
      assert LStrip("") == "";
    } else if |ts| == 1 {
      WordsOfToken(ts[0]);
      HeadTail(ts);
      assert ts[1..] == [];
    } else {
      var rest := Join(" ", ts[1..]);
      WordsOfJoin(ts[1..]);
      JoinEnds(ts[1..]);
      assert IsToken(ts[0]);
      WordsCons(ts[0], rest, ts[1..]);
      assert Join(" ", ts) == ts[0] + " " + rest;
      HeadTail(ts);
    }
  }

  lemma HeadTail<T>(s: seq<T>)
    requires s != []
    ensures [s[0]] + s[1..] == s
  {
  }

  /** One more token in front of text that splits into `tail`. */
  lemma WordsCons(t: string, rest: string, tail: seq<string>)
    requires IsToken(t) && rest != [] && !IsSpace(rest[0])
    requires Words(rest) == tail
    ensures Words(t + " " + rest) == [t] + tail
  {
    TokenSpaceWords(t, rest);
  }

  lemma WordsOfToken(t: string)
    requires IsToken(t)
    ensures Words(t) == [t]
  {
    assert LStrip(t) == t by { assert !IsSpace(t[0]); }
    TokenLenOf(t, []);
    assert t + [] == t;
    assert t[..|t|] == t && t[|t|..] == [];
    assert LStrip([]) == [];
    assert Words([]) == [];
  }

  /** A token, one space, and text that does not start with whitespace. */
  lemma TokenSpaceWords(t: string, rest: string)
    requires IsToken(t) && rest != [] && !IsSpace(rest[0])
    ensures Words(t + " " + rest) == [t] + Words(rest)
  {
    TokenWords(t, " " + rest);
    AppendAssoc(t, " ", rest);
    assert LStrip(" " + rest) == LStrip(rest);
    assert LStrip(rest) == rest;
    assert Words(" " + rest) == Words(rest);
  }

  /** A token followed by text that is empty or starts with a space. */
  lemma TokenWords(t: string, rest: string)
    requires IsToken(t) && (rest == [] || IsSpace(rest[0]))
    ensures Words(t + rest) == [t] + Words(rest)
  {
    var s := t + rest;
    assert LStrip(s) == s by { assert !IsSpace(s[0]); }
    TokenLenOf(t, rest);
    assert s[..|t|] == t && s[|t|..] == rest;
  }

  lemma {:induction false} TokenLenOf(t: string, rest: string)
    requires forall k :: 0 <= k < |t| ==> !IsSpace(t[k])
    requires rest == [] || IsSpace(rest[0])
    ensures TokenLen(t + rest) == |t|
    decreases |t|
  {
    if t != [] {
      TokenLenOf(t[1..], rest);
      assert (t + rest)[1..] == t[1..] + rest;
    } else {
      assert t + rest == rest;
    }
  }

  /** A join of tokens has no whitespace at either end. */
  lemma JoinedTokensStripped(ts: seq<string>)
    requires forall k :: 0 <= k < |ts| ==> IsToken(ts[k])
    ensures var j := Join(" ", ts);
            (ts == [] <==> j == []) && Strip(j) == j
  {
    var j := Join(" ", ts);
    if ts != [] {
      JoinEnds(ts);
      StripUnchanged(j);
    }
  }

  lemma {:induction false} JoinEnds(ts: seq<string>)
    requires ts != [] && forall k :: 0 <= k < |ts| ==> IsToken(ts[k])
    ensures var j := Join(" ", ts);
            j != [] && !IsSpace(j[0]) && !IsSpace(j[|j| - 1])
    decreases |ts|
  {
    assert IsToken(ts[0]);
    if |ts| > 1 {
      JoinEnds(ts[1..]);
      var r := Join(" ", ts[1..]);
      var j := ts[0] + " " + r;
      assert Join(" ", ts) == j;
      assert j[0] == ts[0][0];
      assert j[|j| - 1] == r[|r| - 1];
    }
  }

  /** All the items of a list, in order. */
  function Items(lines: seq<string>): (todos: seq<TodoItem>)
    ensures |todos| <= |lines|
    decreases |lines|
  {
    if lines == [] then []
    else
      var rest := Items(lines[..|lines| - 1]);
      match Item(lines[|lines| - 1])
      case None => rest
      case Some(it) => rest + [it]
  }

  /** The loop of `main` over the lines of the list. */
  method ParseTodos(lines: seq<string>) returns (todos: seq<TodoItem>)
    ensures todos == Items(lines)
  {
    todos := [];
    var i := 0;
    while i < |lines|
      invariant 0 <= i <= |lines|
      invariant todos == Items(lines[..i])
    {
      var item := ParseLine(lines[i]);
      assert lines[..i + 1][..i] == lines[..i];
      if item.Some? {
        todos := todos + [item.value];
      }
      i := i + 1;
    }
    assert lines[..i] == lines;
  }

  lemma LastSplit<T>(a: seq<T>, b: seq<T>)
    requires b != []
    ensures (a + b)[..|a + b| - 1] == a + b[..|b| - 1]
    ensures (a + b)[|a + b| - 1] == b[|b| - 1]
  {
  }

  /** Every non-blank line yields its item, and the items keep the order of
      their lines. */
  lemma {:induction false} ItemsAppend(a: seq<string>, b: seq<string>)
    ensures Items(a + b) == Items(a) + Items(b)
    decreases |b|
  {
    if b == [] {
      assert a + b == a;
    } else {
      var b0 := b[..|b| - 1];
      ItemsAppend(a, b0);
      LastSplit(a, b);
    }
  }

  // ---------------------------------------------------------------------
  // Grouping by tag

  const NoTag := "<NO TAG>"

  /** The groups an item goes into. */
  function GroupsOf(t: TodoItem): set<string> {
    if t.tags == {} then {NoTag} else t.tags
  }

  /** The items of group `k`, in list order. */
  function Members(todos: seq<TodoItem>, k: string): (r: seq<TodoItem>)
    ensures forall j :: 0 <= j < |r| ==> k in GroupsOf(r[j])
    decreases |todos|
  {
    if todos == [] then []
    else
      var rest := Members(todos[..|todos| - 1], k);
      if k in GroupsOf(todos[|todos| - 1]) then rest + [todos[|todos| - 1]] else rest
  }

  function AllGroups(todos: seq<TodoItem>): set<string>
    decreases |todos|
  {
    if todos == [] then {} else AllGroups(todos[..|todos| - 1]) + GroupsOf(todos[|todos| - 1])
  }

  /** The groups of `by_tags`. */
  function Grouped(todos: seq<TodoItem>): (r: map<string, seq<TodoItem>>)
    ensures r.Keys == AllGroups(todos)
    ensures forall k :: k in r ==> forall j :: 0 <= j < |r[k]| ==> k in GroupsOf(r[k][j])
  {
    map k | k in AllGroups(todos) :: Members(todos, k)
  }

  /** `groups` after `t` has been appended to each group in `done`. */
  function Added<K, V>(groups: map<K, seq<V>>, t: V, done: set<K>): map<K, seq<V>> {
    map k | k in groups.Keys + done :: (if k in groups then groups[k] else []) + (if k in done then [t] else [])
  }

  lemma {:induction false} MembersOutside(todos: seq<TodoItem>, k: string)
    requires k !in AllGroups(todos)
    ensures Members(todos, k) == []
    decreases |todos|
  {
    if todos != [] {
      MembersOutside(todos[..|todos| - 1], k);
    }
  }

  lemma GroupedSnoc(todos: seq<TodoItem>, t: TodoItem)
    ensures Grouped(todos + [t]) == Added(Grouped(todos), t, GroupsOf(t))
  {
    var u := todos + [t];
    assert u[..|u| - 1] == todos;
    var g := Grouped(todos);
    var a := Added(g, t, GroupsOf(t));
    assert AllGroups(u) == AllGroups(todos) + GroupsOf(t);
    forall k | k in AllGroups(u) ensures Grouped(u)[k] == a[k] {
      if k !in AllGroups(todos) {
        MembersOutside(todos, k);
      } else {
        assert g[k] == Members(todos, k);
      }
    }
    assert Grouped(u).Keys == a.Keys;
  }

  lemma AddedNone<K, V>(groups: map<K, seq<V>>, t: V)
    ensures Added(groups, t, {}) == groups
  {
    var a := Added(groups, t, {});
    forall k | k in groups ensures a[k] == groups[k] {
      assert a[k] == groups[k] + [];
    }
    assert a.Keys == groups.Keys;
  }

  lemma AddedStep<K, V>(groups: map<K, seq<V>>, t: V, done: set<K>, k: K)
    requires k !in done
    ensures var a := Added(groups, t, done);
            a[k := (if k in a then a[k] else []) + [t]] == Added(groups, t, done + {k})
  {
    var a := Added(groups, t, done);
    var b := Added(groups, t, done + {k});
    var c := a[k := (if k in a then a[k] else []) + [t]];
    forall x | x in b ensures x in c && c[x] == b[x] {
      if x == k {
        if k in groups {
          assert a[k] == groups[k] + [];
        }
      }
    }
    assert c.Keys == b.Keys;
  }

  /** `by_tags`: each item is appended to `<NO TAG>` when it has no tags,
      and to the group of each of its tags. */
  method ByTags(todos: seq<TodoItem>) returns (groups: map<string, seq<TodoItem>>)
    ensures groups == Grouped(todos)
  {
    groups := map[];
    var i := 0;
    while i < |todos|
      invariant 0 <= i <= |todos|
      invariant groups == Grouped(todos[..i])
    {
      GroupedSnoc(todos[..i], todos[i]);
      assert todos[..i + 1] == todos[..i] + [todos[i]];
      groups := AddItem(groups, todos[i]);
      i := i + 1;
    }
    assert todos[..i] == todos;
  }

  /** One pass of the outer loop of `by_tags`. */
  method AddItem(groups: map<string, seq<TodoItem>>, t: TodoItem) returns (after: map<string, seq<TodoItem>>)
    ensures after == Added(groups, t, GroupsOf(t))
  {
    after := groups;
    if t.tags == {} {
      AddedNone(groups, t);
      AddedStep(groups, t, {}, NoTag);
      after := after[NoTag := (if NoTag in after then after[NoTag] else []) + [t]];
      assert {} + {NoTag} == GroupsOf(t);
    }
    var tagged := AppendEach(after, t.tags, t);
    if t.tags == {} {
      AddedNone(after, t);
    }
    after := tagged;
  }

  /** `t` appended to the group of each key, in whatever order the set
      yields the keys; a missing group starts empty. */
  method AppendEach<K, V>(groups: map<K, seq<V>>, keys: set<K>, t: V) returns (after: map<K, seq<V>>)
    ensures after == Added(groups, t, keys)
  {
    after := groups;
    AddedNone(groups, t);
    var done: set<K> := {};
    var rest := keys;
    while rest != {}
      invariant done !! rest && done + rest == keys
      invariant after == Added(groups, t, done)
      decreases |rest|
    {
      var k :| k in rest;
      AddedStep(groups, t, done, k);
      MoveKey(done, rest, keys, k);
      after := after[k := (if k in after then after[k] else []) + [t]];
      done := done + {k};
      rest := rest - {k};
    }
  }

  lemma MoveKey<K>(done: set<K>, rest: set<K>, keys: set<K>, k: K)
    requires done !! rest && done + rest == keys && k in rest
    ensures (done + {k}) !! (rest - {k}) && (done + {k}) + (rest - {k}) == keys
  {
  }

  lemma {:induction false} InAllGroups(todos: seq<TodoItem>, i: nat, k: string)
    requires i < |todos| && k in GroupsOf(todos[i])
    ensures k in AllGroups(todos) && todos[i] in Members(todos, k)
    decreases |todos|
  {
    if i < |todos| - 1 {
      InAllGroups(todos[..|todos| - 1], i, k);
    }
  }

  /** Every item is listed under each of its tags, an untagged item under
      `<NO TAG>`, and a group holds only items that belong to it. */
  lemma GroupMembership(todos: seq<TodoItem>, i: nat)
    requires i < |todos|
    ensures forall k :: k in todos[i].tags ==> k in Grouped(todos) && todos[i] in Grouped(todos)[k]
    ensures todos[i].tags == {} ==> NoTag in Grouped(todos) && todos[i] in Grouped(todos)[NoTag]
    ensures forall k :: k in Grouped(todos) ==> forall j :: 0 <= j < |Grouped(todos)[k]| ==>
              k in GroupsOf(Grouped(todos)[k][j])
  {
    forall k | k in todos[i].tags ensures k in Grouped(todos) && todos[i] in Grouped(todos)[k] {
      InAllGroups(todos, i, k);
    }
    if todos[i].tags == {} {
      InAllGroups(todos, i, NoTag);
    }
  }

  /** Within a group, items keep the order of the list. */
  lemma {:induction false} MembersAppend(a: seq<TodoItem>, b: seq<TodoItem>, k: string)
    ensures Members(a + b, k) == Members(a, k) + Members(b, k)
    decreases |b|
  {
    if b == [] {
      assert a + b == a;
    } else {
      var b0 := b[..|b| - 1];
      MembersAppend(a, b0, k);
      assert (a + b)[..|a + b| - 1] == a + b0;
      assert (a + b)[|a + b| - 1] == b[|b| - 1];
    }
  }

  // ---------------------------------------------------------------------
  // The report

  /** Python's ordering of strings: by code point, a proper prefix first. */
  predicate StrLess(a: string, b: string)
    decreases |a|
  {
    if a == [] then b != []
    else if b == [] then false
    else if a[0] != b[0] then a[0] < b[0]
    else StrLess(a[1..], b[1..])
  }

  lemma {:induction false} StrLessIrreflexive(a: string)
    ensures !StrLess(a, a)
    decreases |a|
  {
    if a != [] {
      StrLessIrreflexive(a[1..]);
    }
  }

  lemma {:induction false} StrLessTrans(a: string, b: string, c: string)
    requires StrLess(a, b) && StrLess(b, c)
    ensures StrLess(a, c)
    decreases |a|
  {
    if a != [] && b != [] && c != [] && a[0] == b[0] && b[0] == c[0] {
      StrLessTrans(a[1..], b[1..], c[1..]);
    }
  }

  lemma {:induction false} StrLessTotal(a: string, b: string)
    requires a != b
    ensures StrLess(a, b) != StrLess(b, a)
    decreases |a|
  {
    if a != [] && b != [] && a[0] == b[0] {
      assert a == [a[0]] + a[1..] && b == [b[0]] + b[1..];
      StrLessTotal(a[1..], b[1..]);
    }
  }

  /** Every non-empty set of strings has a least element. */
  lemma {:induction false} LeastExists(s: set<string>)
    requires s != {}
    ensures exists m :: m in s && forall y :: y in s && y != m ==> StrLess(m, y)
    decreases |s|
  {
    var x :| x in s;
    if s == {x} {
      assert forall y :: y in s && y != x ==> StrLess(x, y);
    } else {
      var rest := s - {x};
      LeastExists(rest);
      var m :| m in rest && forall y :: y in rest && y != m ==> StrLess(m, y);
      StrLessTotal(x, m);
      if StrLess(x, m) {
        forall y | y in s && y != x ensures StrLess(x, y) {
          if y != m { StrLessTrans(x, m, y); }
        }
        assert x in s;
      } else {
        forall y | y in s && y != m ensures StrLess(m, y) {
          if y != x { assert y in rest; }
        }
        assert m in s;
      }
    }
  }

  predicate Sorted(order: seq<string>) {
    forall i, j :: 0 <= i < j < |order| ==> StrLess(order[i], order[j])
  }

  /** The printed lines for the groups, taken in `order`: the tag, the
      texts of its items, and a blank line. */
  function Render(groups: map<string, seq<TodoItem>>, order: seq<string>): seq<string>
    requires forall j :: 0 <= j < |order| ==> order[j] in groups
    decreases |order|
  {
    if order == [] then []
    else
      var k := order[|order| - 1];
      Render(groups, order[..|order| - 1]) + ["#" + k] + Texts(groups[k]) + [""]
  }

  function Texts(items: seq<TodoItem>): (r: seq<string>)
    ensures |r| == |items| && forall j :: 0 <= j < |r| ==> r[j] == items[j].text
  {
    seq(|items|, j requires 0 <= j < |items| => items[j].text)
  }

  /** The printing loop of `by_tags`: every group once, in increasing
      order of its tag. */
  method Report(groups: map<string, seq<TodoItem>>) returns (order: seq<string>, out: seq<string>)
    ensures Sorted(order)
    ensures forall k :: k in groups <==> k in order
    ensures forall i, j :: 0 <= i < j < |order| ==> order[i] != order[j]
    ensures out == Render(groups, order)
  {
    order := SortedKeys(groups.Keys);
    out := [];
    var i := 0;
    while i < |order|
      invariant 0 <= i <= |order|
      invariant out == Render(groups, order[..i])
    {
      var k := order[i];
      assert order[..i + 1][..i] == order[..i];
      out := out + ["#" + k] + Texts(groups[k]) + [""];
      i := i + 1;
    }
    assert order[..i] == order;
  }

  /** Python's `sorted` on a set of strings. */
  method SortedKeys(keys: set<string>) returns (order: seq<string>)
    ensures Sorted(order)
    ensures forall k :: k in keys <==> k in order
    ensures forall i, j :: 0 <= i < j < |order| ==> order[i] != order[j]
  {
    var rest := keys;
    order := [];
    while rest != {}
      invariant forall k :: k in keys ==> (k in rest <==> k !in order)
      invariant forall k :: k in rest ==> k in keys
      invariant forall j :: 0 <= j < |order| ==> order[j] in keys
      invariant Sorted(order)
      invariant forall j, y :: 0 <= j < |order| && y in rest ==> StrLess(order[j], y)
      decreases |rest|
    {
      LeastExists(rest);
      var m :| m in rest && forall y :: y in rest && y != m ==> StrLess(m, y);
      SortedSnoc(order, m);
      order := order + [m];
      rest := rest - {m};
    }
    SortedDistinct(order);
  }

  lemma SortedSnoc(order: seq<string>, m: string)
    requires Sorted(order) && forall j :: 0 <= j < |order| ==> StrLess(order[j], m)
    ensures Sorted(order + [m])
  {
  }

  lemma SortedDistinct(order: seq<string>)
    requires Sorted(order)
    ensures forall i, j :: 0 <= i < j < |order| ==> order[i] != order[j]
  {
    forall i, j | 0 <= i < j < |order| ensures order[i] != order[j] {
      StrLessIrreflexive(order[i]);
    }
  }
}
