/** The codeowners comment parser and the notification triage of
    `gh-unsubscribe-rr.py`: which review-request notifications are
    unsubscribed, and which repository subscriptions are deleted. */
module Codeowners {
  import opened Wrappers
  import opened Text

  // ---------------------------------------------------------------------
  // The owner-link pattern

  /** The marker the codeowners bot puts in its comments. */
  const Marker := "<!-- automated codeowners info comment -->"

  /** What the owner-link pattern captures from a line: the emoji name and
      the team text, before it is stripped. */
  datatype OwnerLink = OwnerLink(emoji: string, team: string)

  /** A character of the team group `[\w\s]`. */
  predicate IsTeamChar(c: char) {
    IsWordChar(c) || IsSpace(c)
  }

  predicate AllWord(s: string) {
    forall i :: 0 <= i < |s| ==> IsWordChar(s[i])
  }

  predicate AllTeam(s: string) {
    forall i :: 0 <= i < |s| ==> IsTeamChar(s[i])
  }

  predicate AllSpace(s: string) {
    forall i :: 0 <= i < |s| ==> IsSpace(s[i])
  }

  /** What may follow the team: the optional group `(:?\(required\))?`
      (a colon, then "(required)", the colon itself optional), then what
      `Bracket` accepts. */
  predicate ClosesLink(v: string) {
    if StartsWith(v, "(required)") then Bracket(v[10..])
    else if StartsWith(v, ":(required)") then Bracket(v[11..])
    else Bracket(v)
  }

  /** `\s*\]\(`: whitespace, then "](". */
  predicate Bracket(w: string)
    decreases |w|
  {
    if |w| > 0 && IsSpace(w[0]) then Bracket(w[1..]) else StartsWith(w, "](")
  }

  lemma {:induction false} BracketAfterSpaces(sp: string, w: string)
    requires AllSpace(sp) && (w == [] || !IsSpace(w[0]))
    ensures Bracket(sp + w) == Bracket(w)
  {
    if sp != [] {
      assert (sp + w)[0] == sp[0] && IsSpace(sp[0]);
      assert (sp + w)[1..] == sp[1..] + w;
      BracketAfterSpaces(sp[1..], w);
    } else {
      assert sp + w == w;
    }
  }

  /** `FIND_OWNER_LINK.match(line)`, anchored at the start of the line, read
      as an automaton with one state per part of the pattern: the leading
      `\s*`, then a colon. Each run (`\w+`, `\s+`, `[\w\s]+`) is greedy,
      and no shorter run can make the rest match, since the character after
      a run is what the next part must start with. */
  function MatchOwnerLink(line: string): Option<OwnerLink>
    decreases |line|
  {
    if |line| > 0 && IsSpace(line[0]) then MatchOwnerLink(line[1..])
    else if |line| > 0 && line[0] == ':' then Emoji(line[1..], "")
    else None
  }

  /** The `\w+` of the emoji name, read so far into `name`, then a colon. */
  function Emoji(s: string, name: string): Option<OwnerLink>
    decreases |s|
  {
    if |s| > 0 && IsWordChar(s[0]) then Emoji(s[1..], name + [s[0]])
    else if name != [] && |s| > 0 && s[0] == ':' then Gap(s[1..], name, false)
    else None
  }

  /** The `\s+` after the emoji (`seen` once one whitespace character is
      read), then the opening bracket. */
  function Gap(s: string, emoji: string, seen: bool): Option<OwnerLink>
    decreases |s|
  {
    if |s| > 0 && IsSpace(s[0]) then Gap(s[1..], emoji, true)
    else if seen && |s| > 0 && s[0] == '[' then Team(s[1..], emoji, "")
    else None
  }

  /** The `[\w\s]+` of the team, read so far into `team`, then what
      `ClosesLink` accepts. */
  function Team(s: string, emoji: string, team: string): Option<OwnerLink>
    decreases |s|
  {
    if |s| > 0 && IsTeamChar(s[0]) then Team(s[1..], emoji, team + [s[0]])
    else if team != [] && ClosesLink(s) then Some(OwnerLink(emoji, team))
    else None
  }

  lemma {:induction false} SpacesSkipped(indent: string, s: string)
    requires AllSpace(indent) && (s == [] || !IsSpace(s[0]))
    ensures MatchOwnerLink(indent + s) == MatchOwnerLink(s)
  {
    if indent != [] {
      assert (indent + s)[0] == indent[0] && IsSpace(indent[0]);
      assert (indent + s)[1..] == indent[1..] + s;
      SpacesSkipped(indent[1..], s);
    } else {
      assert indent + s == s;
    }
  }

  lemma {:induction false} EmojiRead(w: string, name: string, x: string)
    requires AllWord(w) && (x == [] || !IsWordChar(x[0]))
    ensures Emoji(w + x, name) == Emoji(x, name + w)
  {
    if w != [] {
      assert (w + x)[0] == w[0] && IsWordChar(w[0]);
      assert (w + x)[1..] == w[1..] + x;
      assert name + [w[0]] + w[1..] == name + w;
      EmojiRead(w[1..], name + [w[0]], x);
    } else {
      assert w + x == x && name + w == name;
    }
  }

  lemma {:induction false} GapRead(sp: string, emoji: string, seen: bool, x: string)
    requires AllSpace(sp) && (x == [] || !IsSpace(x[0]))
    ensures Gap(sp + x, emoji, seen) == Gap(x, emoji, seen || sp != [])
  {
    if sp != [] {
      assert (sp + x)[0] == sp[0] && IsSpace(sp[0]);
      assert (sp + x)[1..] == sp[1..] + x;
      GapRead(sp[1..], emoji, true, x);
    } else {
      assert sp + x == x;
    }
  }

  lemma {:induction false} TeamRead(t: string, emoji: string, team: string, x: string)
    requires AllTeam(t) && (x == [] || !IsTeamChar(x[0]))
    ensures Team(t + x, emoji, team) == Team(x, emoji, team + t)
  {
    if t != [] {
      assert (t + x)[0] == t[0] && IsTeamChar(t[0]);
      assert (t + x)[1..] == t[1..] + x;
      assert team + [t[0]] + t[1..] == team + t;
      TeamRead(t[1..], emoji, team + [t[0]], x);
    } else {
      assert t + x == x && team + t == team;
    }
  }

  /** A line written the way the bot writes one — indentation, `:emoji:`,
      a gap, `[team`, an optional "(required)" mark, padding, "](" and the
      link — is matched, and the pattern gives back the emoji and the team
      (with the padding, when no mark separates the two). */
  lemma OwnerLinkMatches(indent: string, emoji: string, gap: string, team: string, mark: string, pad: string, link: string)
    requires AllSpace(indent) && AllSpace(gap) && AllSpace(pad)
    requires |emoji| > 0 && AllWord(emoji)
    requires |gap| > 0
    requires |team| > 0 && AllTeam(team)
    requires mark == "" || mark == "(required)" || mark == ":(required)"
    ensures MatchOwnerLink(indent + ":" + emoji + ":" + gap + "[" + team + mark + pad + "](" + link)
         == Some(OwnerLink(emoji, if mark == "" then team + pad else team))
  {
    var open := indent + ":" + emoji + ":" + gap + "[";
    var rest := team + mark + pad + "](" + link;
    AppendAssoc(open, team, mark);
    AppendAssoc(open, team + mark, pad);
    AppendAssoc(open, team + mark + pad, "](");
    AppendAssoc(open, team + mark + pad + "](", link);
    LinkOpens(indent, emoji, gap, rest);
    var captured := if mark == "" then team + pad else team;
    var after := if mark == "" then "](" + link else mark + pad + "](" + link;
    LinkRestSplits(team, mark, pad, link);
    if mark == "" {
      ClosesPlain(link);
    } else {
      ClosesMarked(mark, pad, link);
    }
    assert after[0] == ']' || after[0] == '(' || after[0] == ':';
    TeamRead(captured, emoji, "", after);
    assert "" + captured == captured;
  }

  lemma LinkRestSplits(team: string, mark: string, pad: string, link: string)
    ensures team + mark + pad + "](" + link ==
      if mark == "" then (team + pad) + ("](" + link) else team + (mark + pad + "](" + link)
  {
  }

  /** The part of the pattern before the team. */
  lemma LinkOpens(indent: string, emoji: string, gap: string, rest: string)
    requires AllSpace(indent) && AllSpace(gap) && |gap| > 0
    requires |emoji| > 0 && AllWord(emoji)
    ensures MatchOwnerLink(indent + ":" + emoji + ":" + gap + "[" + rest) == Team(rest, emoji, "")
  {
    var y := "[" + rest;
    var x := ":" + (gap + y);
    var s := ":" + (emoji + x);
    assert indent + ":" + emoji + ":" + gap + "[" + rest == indent + s;
    SpacesSkipped(indent, s);
    assert s[0] == ':' && s[1..] == emoji + x;
    EmojiRead(emoji, "", x);
    assert "" + emoji == emoji;
    assert x[0] == ':' && x[1..] == gap + y;
    GapRead(gap, emoji, false, y);
    assert y[0] == '[' && y[1..] == rest;
  }

  lemma ClosesPlain(link: string)
    ensures ClosesLink("](" + link)
  {
    var v := "](" + link;
    assert v[0] == ']' && v[1] == '(';
    assert !StartsWith(v, "(required)") && !StartsWith(v, ":(required)");
    assert StartsWith(v, "](");
  }

  lemma ClosesMarked(mark: string, pad: string, link: string)
    requires mark == "(required)" || mark == ":(required)"
    requires AllSpace(pad)
    ensures ClosesLink(mark + pad + "](" + link)
  {
    var tail := "](" + link;
    var v := mark + (pad + tail);
    assert mark + pad + "](" + link == v;
    assert v[..|mark|] == mark && v[|mark|..] == pad + tail;
    assert tail[0] == ']' && tail[..2] == "](";
    assert Bracket(tail);
    BracketAfterSpaces(pad, tail);
    if mark == ":(required)" {
      assert v[0] == ':';
      assert !StartsWith(v, "(required)");
      assert StartsWith(v, ":(required)");
    } else {
      assert StartsWith(v, "(required)");
    }
  }

  // ---------------------------------------------------------------------
  // CodeOwners.parse

  /** A comment on a pull request. */
  datatype Comment = Comment(user: string, body: string)

  /** `UnprocessableComment`: the bot's comment carries the marker but no
      team line. */
  datatype Unprocessable = Unprocessable(user: string)

  datatype CodeOwners = CodeOwners(required: seq<string>, optional: seq<string>, completed: seq<string>)

  /** `mentioned`: the required teams, then the optional, then the
      completed ones. */
  function Mentioned(c: CodeOwners): (r: seq<string>)
    ensures |r| == |c.required| + |c.optional| + |c.completed|
    ensures forall t :: t in r <==> t in c.required || t in c.optional || t in c.completed
  {
    c.required + c.optional + c.completed
  }

  /** The list a line's emoji sends its team to. */
  predicate IsListed(emoji: string) {
    emoji == "x" || emoji == "information_source" || emoji == "white_check_mark"
  }

  /** The pattern applied to every line. */
  function Links(lines: seq<string>): (ls: seq<Option<OwnerLink>>)
    ensures |ls| == |lines|
    decreases |lines|
  {
    if lines == [] then [] else Links(lines[..|lines| - 1]) + [MatchOwnerLink(lines[|lines| - 1])]
  }

  lemma {:induction false} LinksAt(lines: seq<string>, k: int)
    requires 0 <= k < |lines|
    ensures Links(lines)[k] == MatchOwnerLink(lines[k])
    decreases |lines|
  {
    var init := lines[..|lines| - 1];
    if k < |init| {
      LinksAt(init, k);
    }
  }

  /** The team a line's link contributes to the list for `emoji`, if any. */
  function TeamOf(l: Option<OwnerLink>, emoji: string): seq<string>
  {
    if l.Some? && l.value.emoji == emoji then [Strip(l.value.team)] else []
  }

  /** The stripped teams of the links with `emoji`, in line order. */
  function Teams(links: seq<Option<OwnerLink>>, emoji: string): seq<string>
    decreases |links|
  {
    if links == [] then [] else Teams(links[..|links| - 1], emoji) + TeamOf(links[|links| - 1], emoji)
  }

  /** What `CodeOwners.parse` gives for a comment: nothing without the
      marker, an error when no line names a team, and the three lists
      otherwise. */
  function Parsed(c: Comment): (r: Result<Option<CodeOwners>, Unprocessable>)
    ensures r.Err? ==> r.error == Unprocessable(c.user) && Contains(c.body, Marker)
    ensures r.Ok? && r.value.Some? ==> Contains(c.body, Marker) && Mentioned(r.value.value) != []
  {
    if !Contains(c.body, Marker) then Ok(None)
    else
      var links := Links(SplitLines(c.body));
      var o := CodeOwners(Teams(links, "x"), Teams(links, "information_source"), Teams(links, "white_check_mark"));
      if o.required == [] && o.optional == [] && o.completed == [] then Err(Unprocessable(c.user))
      else Ok(Some(o))
  }

  /** `CodeOwners.parse(comment)`: one pass over the comment's lines. */
  method Parse(c: Comment) returns (r: Result<Option<CodeOwners>, Unprocessable>)
    ensures r == Parsed(c)
  {
    if !Contains(c.body, Marker) {
      return Ok(None);
    }
    var lines := SplitLines(c.body);
    var required: seq<string> := [];
    var optional: seq<string> := [];
    var completed: seq<string> := [];
    var i := 0;
    while i < |lines|
      invariant 0 <= i <= |lines|
      invariant required == Teams(Links(lines[..i]), "x")
      invariant optional == Teams(Links(lines[..i]), "information_source")
      invariant completed == Teams(Links(lines[..i]), "white_check_mark")
    {
      TeamsStep(lines, i, "x");
      TeamsStep(lines, i, "information_source");
      TeamsStep(lines, i, "white_check_mark");
      required, optional, completed := AddLink(MatchOwnerLink(lines[i]), required, optional, completed);
      i := i + 1;
    }
    assert lines[..i] == lines;
    if required == [] && optional == [] && completed == [] {
      return Err(Unprocessable(c.user));
    }
    return Ok(Some(CodeOwners(required, optional, completed)));
  }

  /** The body of the loop over the lines: a matched link adds its
      stripped team to the list its emoji selects. */
  method AddLink(m: Option<OwnerLink>, required: seq<string>, optional: seq<string>, completed: seq<string>)
    returns (required': seq<string>, optional': seq<string>, completed': seq<string>)
    ensures required' == required + TeamOf(m, "x")
    ensures optional' == optional + TeamOf(m, "information_source")
    ensures completed' == completed + TeamOf(m, "white_check_mark")
  {
    required', optional', completed' := required, optional, completed;
    if m.Some? {
      var team := Strip(m.value.team);
      if m.value.emoji == "white_check_mark" {
        completed' := completed + [team];
      } else if m.value.emoji == "x" {
        required' := required + [team];
      } else if m.value.emoji == "information_source" {
        optional' := optional + [team];
      }
    }
  }

  lemma TeamsStep(lines: seq<string>, i: int, emoji: string)
    requires 0 <= i < |lines|
    ensures Teams(Links(lines[..i + 1]), emoji) == Teams(Links(lines[..i]), emoji) + TeamOf(MatchOwnerLink(lines[i]), emoji)
  {
    LinksStep(lines, i);
    var l := Links(lines[..i + 1]);
    assert l[..|l| - 1] == Links(lines[..i]);
  }

  lemma LinksStep(lines: seq<string>, i: int)
    requires 0 <= i < |lines|
    ensures Links(lines[..i + 1]) == Links(lines[..i]) + [MatchOwnerLink(lines[i])]
  {
    assert lines[..i + 1][..i] == lines[..i];
  }

  /** The link carries `emoji` and, stripped, the team `x`. */
  predicate Lists(l: Option<OwnerLink>, emoji: string, x: string) {
    l.Some? && l.value.emoji == emoji && Strip(l.value.team) == x
  }

  /** A team is in the list for `emoji` exactly when some line's link
      carries that emoji and, stripped, that team. */
  lemma TeamsMembers(links: seq<Option<OwnerLink>>, emoji: string, x: string)
    ensures x in Teams(links, emoji) <==> exists k :: 0 <= k < |links| && Lists(links[k], emoji, x)
  {
    if x in Teams(links, emoji) {
      TeamsSound(links, emoji, x);
    }
    if exists k :: 0 <= k < |links| && Lists(links[k], emoji, x) {
      var k :| 0 <= k < |links| && Lists(links[k], emoji, x);
      TeamsComplete(links, emoji, x, k);
    }
  }

  lemma {:induction false} TeamsSound(links: seq<Option<OwnerLink>>, emoji: string, x: string)
    requires x in Teams(links, emoji)
    ensures exists k :: 0 <= k < |links| && Lists(links[k], emoji, x)
    decreases |links|
  {
    var n := |links| - 1;
    var init := links[..n];
    if x in Teams(init, emoji) {
      TeamsSound(init, emoji, x);
      var k :| 0 <= k < |init| && Lists(init[k], emoji, x);
      assert links[k] == init[k];
    } else {
      assert Lists(links[n], emoji, x);
    }
  }

  lemma {:induction false} TeamsComplete(links: seq<Option<OwnerLink>>, emoji: string, x: string, k: nat)
    requires k < |links| && Lists(links[k], emoji, x)
    ensures x in Teams(links, emoji)
    decreases |links|
  {
    var n := |links| - 1;
    if k < n {
      var init := links[..n];
      assert init[k] == links[k];
      TeamsComplete(init, emoji, x, k);
    } else {
      assert TeamOf(links[n], emoji) == [x];
    }
  }

  /** The lists keep the order of the comment's lines. */
  lemma {:induction false} TeamsInLineOrder(a: seq<Option<OwnerLink>>, b: seq<Option<OwnerLink>>, emoji: string)
    ensures Teams(a + b, emoji) == Teams(a, emoji) + Teams(b, emoji)
    decreases |b|
  {
    if b != [] {
      var init := b[..|b| - 1];
      assert (a + b)[..|a + b| - 1] == a + init;
      assert (a + b)[|a + b| - 1] == b[|b| - 1];
      TeamsInLineOrder(a, init, emoji);
      AppendAssoc(Teams(a, emoji), Teams(init, emoji), TeamOf(b[|b| - 1], emoji));
    } else {
      assert a + b == a;
    }
  }

  /** No link names one of the three emoji. */
  predicate NoTeamLink(links: seq<Option<OwnerLink>>) {
    forall k :: 0 <= k < |links| ==> links[k].None? || !IsListed(links[k].value.emoji)
  }

  lemma TeamsEmptyIff(links: seq<Option<OwnerLink>>, emoji: string)
    ensures Teams(links, emoji) == [] <==> forall k :: 0 <= k < |links| ==> TeamOf(links[k], emoji) == []
  {
    if Teams(links, emoji) == [] {
      forall k | 0 <= k < |links| ensures TeamOf(links[k], emoji) == [] {
        if TeamOf(links[k], emoji) != [] {
          TeamsComplete(links, emoji, Strip(links[k].value.team), k);
        }
      }
    } else {
      TeamsSound(links, emoji, Teams(links, emoji)[0]);
    }
  }

  /** All three lists are empty exactly when no link names one of the
      three emoji. */
  lemma NoTeamLinkIff(links: seq<Option<OwnerLink>>)
    ensures (Teams(links, "x") == [] && Teams(links, "information_source") == [] && Teams(links, "white_check_mark") == [])
      <==> NoTeamLink(links)
  {
    TeamsEmptyIff(links, "x");
    TeamsEmptyIff(links, "information_source");
    TeamsEmptyIff(links, "white_check_mark");
    if !NoTeamLink(links) {
      var k :| 0 <= k < |links| && links[k].Some? && IsListed(links[k].value.emoji);
      assert TeamOf(links[k], links[k].value.emoji) != [];
    }
  }

  /** A comment with the marker is refused exactly when none of its
      lines links a team with `x`, `information_source` or
      `white_check_mark`; other emoji are ignored. */
  lemma ParsedRefusesUnlinked(c: Comment)
    ensures Parsed(c).Err? <==> Contains(c.body, Marker) && NoTeamLink(Links(SplitLines(c.body)))
  {
    NoTeamLinkIff(Links(SplitLines(c.body)));
  }

  /** Without the marker the comment is not the bot's and is ignored. */
  lemma ParsedIgnoresUnmarked(c: Comment)
    requires !Contains(c.body, Marker)
    ensures Parsed(c) == Ok(None)
  {
  }

  /** A parsed comment mentions a team exactly when one of its lines links
      that team with one of the three emoji. */
  lemma MentionedTeams(c: Comment, o: CodeOwners, x: string)
    requires Parsed(c) == Ok(Some(o))
    ensures x in Mentioned(o) <==>
      exists k :: 0 <= k < |SplitLines(c.body)| && LinksTeam(MatchOwnerLink(SplitLines(c.body)[k]), x)
  {
    var lines := SplitLines(c.body);
    var links := Links(lines);
    assert o == CodeOwners(Teams(links, "x"), Teams(links, "information_source"), Teams(links, "white_check_mark"));
    MentionedLines(lines, x);
    if x in Mentioned(o) {
      var k :| 0 <= k < |lines| && LinksTeam(MatchOwnerLink(lines[k]), x);
      assert SplitLines(c.body)[k] == lines[k];
    }
  }

  lemma MentionedLines(lines: seq<string>, x: string)
    ensures x in Mentioned(CodeOwners(Teams(Links(lines), "x"), Teams(Links(lines), "information_source"), Teams(Links(lines), "white_check_mark")))
      <==> exists k :: 0 <= k < |lines| && LinksTeam(MatchOwnerLink(lines[k]), x)
  {
    var links := Links(lines);
    MentionedLinks(links, x);
    if exists k :: 0 <= k < |links| && LinksTeam(links[k], x) {
      var k :| 0 <= k < |links| && LinksTeam(links[k], x);
      LinksAt(lines, k);
    }
    if exists k :: 0 <= k < |lines| && LinksTeam(MatchOwnerLink(lines[k]), x) {
      var k :| 0 <= k < |lines| && LinksTeam(MatchOwnerLink(lines[k]), x);
      LinksAt(lines, k);
    }
  }

  /** The three lists built from `links` together hold `x` exactly when
      some link names `x` with one of the three emoji. */
  lemma MentionedLinks(links: seq<Option<OwnerLink>>, x: string)
    ensures x in Mentioned(CodeOwners(Teams(links, "x"), Teams(links, "information_source"), Teams(links, "white_check_mark")))
      <==> exists k :: 0 <= k < |links| && LinksTeam(links[k], x)
  {
    TeamsMembers(links, "x", x);
    TeamsMembers(links, "information_source", x);
    TeamsMembers(links, "white_check_mark", x);
    if exists k :: 0 <= k < |links| && LinksTeam(links[k], x) {
      var k :| 0 <= k < |links| && LinksTeam(links[k], x);
      assert Lists(links[k], links[k].value.emoji, x);
    }
  }

  /** The link names team `x` with one of the three emoji. */
  predicate LinksTeam(l: Option<OwnerLink>, x: string) {
    l.Some? && IsListed(l.value.emoji) && Strip(l.value.team) == x
  }

  // ---------------------------------------------------------------------
  // The triage loop

  /** The command-line settings: the repository whose review requests are
      triaged, the organisation whose other repositories are unwatched, the
      codeowners bot, the team as GitHub names it and the team as the
      codeowners comment names it. */
  datatype Settings = Settings(repo: string, organization: string, bot: string, team: string, ownersTeam: string)

  /** A notification thread: its id, its repository's full name and the
      reason GitHub gives for it. */
  datatype Notification = Notification(thread: string, repo: string, reason: string)

  /** `nosiy(repo)`: a review request in `repo`. */
  predicate Noisy(n: Notification, repo: string): (b: bool)
    ensures b ==> n.repo == repo
    ensures n.reason != "review_requested" ==> !b
  {
    n.repo == repo && n.reason == "review_requested"
  }

  datatype Reviewer = Reviewer(login: string)
  datatype RequestedTeam = RequestedTeam(name: string)

  /** The pull request a notification is about, as the API returns it. */
  datatype PullRequest = PullRequest(state: string, reviewers: seq<Reviewer>, teams: seq<RequestedTeam>, comments: seq<Comment>)

  /** `requested_reviewers()`: the logins, in order. */
  function RequestedReviewers(pr: PullRequest): (r: seq<string>)
    ensures |r| == |pr.reviewers| && forall i :: 0 <= i < |r| ==> r[i] == pr.reviewers[i].login
    decreases |pr.reviewers|
  {
    if pr.reviewers == [] then []
    else RequestedReviewers(pr.(reviewers := pr.reviewers[..|pr.reviewers| - 1])) + [pr.reviewers[|pr.reviewers| - 1].login]
  }

  /** `requested_teams()`: the team names, in order. */
  function RequestedTeams(pr: PullRequest): (r: seq<string>)
    ensures |r| == |pr.teams| && forall i :: 0 <= i < |r| ==> r[i] == pr.teams[i].name
    decreases |pr.teams|
  {
    if pr.teams == [] then []
    else RequestedTeams(pr.(teams := pr.teams[..|pr.teams| - 1])) + [pr.teams[|pr.teams| - 1].name]
  }

  /** A notification together with the pull request its subject leads to
      (fetched only for a review request in the triaged repository). */
  datatype Thread = Thread(note: Notification, pr: PullRequest)

  /** What the loop does on GitHub: delete the watch on a repository, or
      unsubscribe from (mark read and delete) a thread. */
  datatype Action = DeleteSubscription(repo: string) | Unsubscribe(thread: string)

  /** The user whose personal review requests are never unsubscribed. */
  const Owner := "alexrudy"

  /** A notification from another repository of the organisation. */
  predicate OtherRepo(cfg: Settings, n: Notification) {
    n.repo != cfg.repo && StartsWith(n.repo, cfg.organization + "/")
  }

  /** The unsubscribes one comment leads to, or the error it raises. */
  function CommentStep(cfg: Settings, n: Notification, c: Comment): (seq<Action>, Option<Unprocessable>)
  {
    if c.user != cfg.bot then ([], None)
    else
      match Parsed(c)
      case Err(u) => ([], Some(u))
      case Ok(None) => ([], None)
      case Ok(Some(o)) => (if cfg.ownersTeam in Mentioned(o) then [Unsubscribe(n.thread)] else [], None)
  }

  /** The loop over a pull request's comments: one unsubscribe per bot
      comment whose codeowners mention the team; an unprocessable comment
      ends it. */
  function ScanComments(cfg: Settings, n: Notification, cs: seq<Comment>): (seq<Action>, Option<Unprocessable>)
    decreases |cs|
  {
    if cs == [] then ([], None)
    else
      var prev := ScanComments(cfg, n, cs[..|cs| - 1]);
      if prev.1.Some? then prev
      else
        var step := CommentStep(cfg, n, cs[|cs| - 1]);
        (prev.0 + step.0, step.1)
  }

  /** The state of the triage: the actions so far, the repositories whose
      watch was deleted, and the comment that aborted the loop, if any. */
  datatype Triaged = Triaged(actions: seq<Action>, unsubs: set<string>, aborted: Option<Unprocessable>)

  /** One pass of the loop, for one notification, given the repositories
      already unwatched: the actions it takes, the new set and the abort. */
  function TriageOne(cfg: Settings, unsubs: set<string>, t: Thread): Triaged
  {
    var n := t.note;
    if OtherRepo(cfg, n) then
      Triaged((if n.repo in unsubs then [] else [DeleteSubscription(n.repo)]) + [Unsubscribe(n.thread)], unsubs + {n.repo}, None)
    else if Noisy(n, cfg.repo) then
      if Owner in RequestedReviewers(t.pr) then Triaged([], unsubs, None)
      else if t.pr.state != "open" then Triaged([Unsubscribe(n.thread)], unsubs, None)
      else if cfg.team !in RequestedTeams(t.pr) then Triaged([Unsubscribe(n.thread)], unsubs, None)
      else
        var scan := ScanComments(cfg, n, t.pr.comments);
        Triaged(scan.0, unsubs, scan.1)
    else Triaged([], unsubs, None)
  }

  /** The whole loop over the notifications, stopped by an unprocessable
      comment. */
  function TriageAll(cfg: Settings, ts: seq<Thread>): (r: Triaged)
    ensures forall x :: x in r.unsubs ==> exists i :: 0 <= i < |ts| && ts[i].note.repo == x
    decreases |ts|
  {
    if ts == [] then Triaged([], {}, None)
    else
      var prev := TriageAll(cfg, ts[..|ts| - 1]);
      if prev.aborted.Some? then prev
      else
        var one := TriageOne(cfg, prev.unsubs, ts[|ts| - 1]);
        Triaged(prev.actions + one.actions, one.unsubs, one.aborted)
  }

  /** The body of the comment loop, for one comment. */
  method ScanComment(cfg: Settings, n: Notification, c: Comment) returns (acts: seq<Action>, aborted: Option<Unprocessable>)
    ensures (acts, aborted) == CommentStep(cfg, n, c)
  {
    acts, aborted := [], None;
    if c.user == cfg.bot {
      var owners := Parse(c);
      match owners
      case Err(u) =>
        aborted := Some(u);
      case Ok(None) =>
      case Ok(Some(o)) =>
        if cfg.ownersTeam in Mentioned(o) {
          acts := [Unsubscribe(n.thread)];
        }
    }
  }

  /** The comment loop of one pull request. */
  method ScanBotComments(cfg: Settings, n: Notification, cs: seq<Comment>) returns (acts: seq<Action>, aborted: Option<Unprocessable>)
    ensures (acts, aborted) == ScanComments(cfg, n, cs)
  {
    acts, aborted := [], None;
    var i := 0;
    while i < |cs|
      invariant 0 <= i <= |cs|
      invariant (acts, aborted) == ScanComments(cfg, n, cs[..i])
      invariant aborted.None?
    {
      assert cs[..i + 1][..i] == cs[..i] && cs[..i + 1][i] == cs[i];
      var more, stop := ScanComment(cfg, n, cs[i]);
      acts := acts + more;
      if stop.Some? {
        aborted := stop;
        ScanStopped(cfg, n, cs, i + 1);
        return;
      }
      i := i + 1;
    }
    assert cs[..i] == cs;
  }

  /** Once the comment loop is aborted, later comments change nothing. */
  lemma {:induction false} ScanStopped(cfg: Settings, n: Notification, cs: seq<Comment>, i: int)
    requires 0 <= i <= |cs| && ScanComments(cfg, n, cs[..i]).1.Some?
    ensures ScanComments(cfg, n, cs) == ScanComments(cfg, n, cs[..i])
    decreases |cs| - i
  {
    if i < |cs| {
      assert cs[..i + 1][..i] == cs[..i];
      ScanStopped(cfg, n, cs, i + 1);
    } else {
      assert cs[..i] == cs;
    }
  }

  /** Once the triage is aborted, later notifications change nothing. */
  lemma {:induction false} TriageStopped(cfg: Settings, ts: seq<Thread>, i: int)
    requires 0 <= i <= |ts| && TriageAll(cfg, ts[..i]).aborted.Some?
    ensures TriageAll(cfg, ts) == TriageAll(cfg, ts[..i])
    decreases |ts| - i
  {
    if i < |ts| {
      assert ts[..i + 1][..i] == ts[..i];
      TriageStopped(cfg, ts, i + 1);
    } else {
      assert ts[..i] == ts;
    }
  }

  /** The `__main__` loop: every notification is triaged in turn; an
      unprocessable codeowners comment ends the loop (and the program).
      The statistics counter is not modelled. */
  method Triage(cfg: Settings, ts: seq<Thread>) returns (r: Triaged)
    ensures r == TriageAll(cfg, ts)
  {
    var actions: seq<Action> := [];
    var unsubs: set<string> := {};
    var i := 0;
    while i < |ts|
      invariant 0 <= i <= |ts|
      invariant Triaged(actions, unsubs, None) == TriageAll(cfg, ts[..i])
    {
      assert ts[..i + 1][..i] == ts[..i];
      var acts, aborted;
      acts, unsubs, aborted := TriageThread(cfg, unsubs, ts[i]);
      actions := actions + acts;
      if aborted.Some? {
        r := Triaged(actions, unsubs, aborted);
        TriageStopped(cfg, ts, i + 1);
        return;
      }
      i := i + 1;
    }
    assert ts[..i] == ts;
    r := Triaged(actions, unsubs, None);
  }

  /** The body of the loop over the notifications, for one thread. */
  method TriageThread(cfg: Settings, unsubs: set<string>, t: Thread)
    returns (actions: seq<Action>, unsubs': set<string>, aborted: Option<Unprocessable>)
    ensures Triaged(actions, unsubs', aborted) == TriageOne(cfg, unsubs, t)
  {
    actions, unsubs', aborted := [], unsubs, None;
    var n := t.note;
    var pr := t.pr;
    if n.repo != cfg.repo && StartsWith(n.repo, cfg.organization + "/") {
      if n.repo !in unsubs {
        actions := actions + [DeleteSubscription(n.repo)];
        unsubs' := unsubs + {n.repo};
      }
      actions := actions + [Unsubscribe(n.thread)];
    } else if Noisy(n, cfg.repo) {
      if Owner in RequestedReviewers(pr) {
      } else if pr.state != "open" {
        actions := actions + [Unsubscribe(n.thread)];
      } else if cfg.team !in RequestedTeams(pr) {
        actions := actions + [Unsubscribe(n.thread)];
      } else {
        actions, aborted := ScanBotComments(cfg, n, pr.comments);
      }
    }
  }

  // ---------------------------------------------------------------------
  // What the triage guarantees

  /** A bot comment whose codeowners cannot be read. */
  predicate BotRefuses(cfg: Settings, c: Comment) {
    c.user == cfg.bot && Parsed(c).Err?
  }

  lemma CommentStepAborts(cfg: Settings, n: Notification, c: Comment)
    ensures CommentStep(cfg, n, c).1.Some? <==> BotRefuses(cfg, c)
  {
  }

  /** The comment loop only ever unsubscribes from its own thread. */
  lemma {:induction false} ScanOnlyUnsubscribes(cfg: Settings, n: Notification, cs: seq<Comment>)
    ensures forall a :: a in ScanComments(cfg, n, cs).0 ==> a == Unsubscribe(n.thread)
    decreases |cs|
  {
    if cs != [] {
      ScanOnlyUnsubscribes(cfg, n, cs[..|cs| - 1]);
    }
  }

  /** Some bot comment of `cs` is unreadable: the last one, or one before. */
  predicate AnyRefuses(cfg: Settings, cs: seq<Comment>)
    decreases |cs|
  {
    cs != [] && (AnyRefuses(cfg, cs[..|cs| - 1]) || BotRefuses(cfg, cs[|cs| - 1]))
  }

  /** The comment loop aborts exactly when some bot comment is unreadable. */
  lemma {:induction false} ScanAbortsIff(cfg: Settings, n: Notification, cs: seq<Comment>)
    ensures ScanComments(cfg, n, cs).1.Some? <==> AnyRefuses(cfg, cs)
    decreases |cs|
  {
    if cs != [] {
      ScanAbortsIff(cfg, n, cs[..|cs| - 1]);
      CommentStepAborts(cfg, n, cs[|cs| - 1]);
    }
  }

  /** The decision a triaged action must be justified by: the watch on a
      repository is deleted only for a notification from another repository
      of the organisation, and a thread is unsubscribed only if it is such a
      notification, or a review request in the triaged repository in which
      the owner is not personally requested. */
  predicate Concerns(cfg: Settings, a: Action, t: Thread) {
    match a
    case DeleteSubscription(r) => OtherRepo(cfg, t.note) && t.note.repo == r
    case Unsubscribe(id) =>
      t.note.thread == id && (OtherRepo(cfg, t.note) || (Noisy(t.note, cfg.repo) && Owner !in RequestedReviewers(t.pr)))
  }

  /** A notification that is dropped without reading any comment. */
  predicate Dropped(cfg: Settings, t: Thread) {
    OtherRepo(cfg, t.note)
    || (Noisy(t.note, cfg.repo) && Owner !in RequestedReviewers(t.pr)
        && (t.pr.state != "open" || cfg.team !in RequestedTeams(t.pr)))
  }

  lemma TriageOneConcerns(cfg: Settings, unsubs: set<string>, t: Thread)
    ensures forall a :: a in TriageOne(cfg, unsubs, t).actions ==> Concerns(cfg, a, t)
  {
    ScanOnlyUnsubscribes(cfg, t.note, t.pr.comments);
  }

  /** Every action of the triage is justified by one of the notifications. */
  lemma {:induction false} ActionsConcernThreads(cfg: Settings, ts: seq<Thread>)
    ensures forall a :: a in TriageAll(cfg, ts).actions ==> exists i :: 0 <= i < |ts| && Concerns(cfg, a, ts[i])
    decreases |ts|
  {
    if ts != [] {
      var init := ts[..|ts| - 1];
      ActionsConcernThreads(cfg, init);
      var prev := TriageAll(cfg, init);
      var t := ts[|ts| - 1];
      TriageOneConcerns(cfg, prev.unsubs, t);
      forall a | a in TriageAll(cfg, ts).actions
        ensures exists i :: 0 <= i < |ts| && Concerns(cfg, a, ts[i])
      {
        if a in prev.actions {
          var j :| 0 <= j < |init| && Concerns(cfg, a, init[j]);
          assert ts[j] == init[j];
        } else {
          assert Concerns(cfg, a, ts[|ts| - 1]);
        }
      }
    }
  }

  /** Unless the triage is aborted, every notification dropped outright is
      unsubscribed. */
  lemma {:induction false} DroppedAreUnsubscribed(cfg: Settings, ts: seq<Thread>)
    ensures TriageAll(cfg, ts).aborted.None? ==>
      forall i :: 0 <= i < |ts| && Dropped(cfg, ts[i]) ==> Unsubscribe(ts[i].note.thread) in TriageAll(cfg, ts).actions
    decreases |ts|
  {
    if ts != [] && TriageAll(cfg, ts).aborted.None? {
      var init := ts[..|ts| - 1];
      DroppedAreUnsubscribed(cfg, init);
      var prev := TriageAll(cfg, init);
      assert prev.aborted.None?;
      var one := TriageOne(cfg, prev.unsubs, ts[|ts| - 1]);
      forall i | 0 <= i < |ts| && Dropped(cfg, ts[i])
        ensures Unsubscribe(ts[i].note.thread) in TriageAll(cfg, ts).actions
      {
        if i < |init| {
          assert init[i] == ts[i];
          assert Unsubscribe(ts[i].note.thread) in prev.actions;
        } else {
          assert Unsubscribe(ts[i].note.thread) in one.actions;
        }
      }
    }
  }

  /** One pass adds a repository's watch deletion exactly when it adds the
      repository to the set. */
  lemma TriageOneDeletes(cfg: Settings, unsubs: set<string>, t: Thread)
    ensures unsubs <= TriageOne(cfg, unsubs, t).unsubs
    ensures forall r :: multiset(TriageOne(cfg, unsubs, t).actions)[DeleteSubscription(r)]
                        == if r in TriageOne(cfg, unsubs, t).unsubs - unsubs then 1 else 0
  {
    var one := TriageOne(cfg, unsubs, t);
    ScanOnlyUnsubscribes(cfg, t.note, t.pr.comments);
    forall r ensures multiset(one.actions)[DeleteSubscription(r)] == if r in one.unsubs - unsubs then 1 else 0 {
      if !OtherRepo(cfg, t.note) {
        assert DeleteSubscription(r) !in one.actions;
      }
    }
  }

  /** The watch on a repository is deleted at most once: exactly once for a
      repository in the set, never for any other. */
  lemma {:induction false} DeletesOncePerRepo(cfg: Settings, ts: seq<Thread>)
    ensures forall r :: multiset(TriageAll(cfg, ts).actions)[DeleteSubscription(r)]
                        == if r in TriageAll(cfg, ts).unsubs then 1 else 0
    decreases |ts|
  {
    if ts != [] {
      var init := ts[..|ts| - 1];
      DeletesOncePerRepo(cfg, init);
      var prev := TriageAll(cfg, init);
      if prev.aborted.None? {
        TriageOneDeletes(cfg, prev.unsubs, ts[|ts| - 1]);
      }
    }
  }

  /** The set holds exactly the repositories of the other-repository
      notifications triaged (all of them unless the triage is aborted). */
  lemma {:induction false} UnwatchedRepos(cfg: Settings, ts: seq<Thread>)
    ensures forall r :: r in TriageAll(cfg, ts).unsubs ==>
      exists i :: 0 <= i < |ts| && OtherRepo(cfg, ts[i].note) && ts[i].note.repo == r
    ensures TriageAll(cfg, ts).aborted.None? ==>
      forall i :: 0 <= i < |ts| && OtherRepo(cfg, ts[i].note) ==> ts[i].note.repo in TriageAll(cfg, ts).unsubs
    decreases |ts|
  {
    if ts != [] {
      var init := ts[..|ts| - 1];
      UnwatchedRepos(cfg, init);
      var prev := TriageAll(cfg, init);
      var last := |ts| - 1;
      forall r | r in TriageAll(cfg, ts).unsubs
        ensures exists i :: 0 <= i < |ts| && OtherRepo(cfg, ts[i].note) && ts[i].note.repo == r
      {
        if r in prev.unsubs {
          var j :| 0 <= j < |init| && OtherRepo(cfg, init[j].note) && init[j].note.repo == r;
          assert ts[j] == init[j];
        } else {
          assert OtherRepo(cfg, ts[last].note) && ts[last].note.repo == r;
        }
      }
      if TriageAll(cfg, ts).aborted.None? {
        assert prev.aborted.None?;
        TriageOneDeletes(cfg, prev.unsubs, ts[last]);
        forall i | 0 <= i < |ts| && OtherRepo(cfg, ts[i].note)
          ensures ts[i].note.repo in TriageAll(cfg, ts).unsubs
        {
          if i < |init| {
            assert init[i] == ts[i];
          }
        }
      }
    }
  }
}
