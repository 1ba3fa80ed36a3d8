# A verified model of the scripts in alexrudy/dotfiles

The repository is a collection of personal command-line scripts. This
project models the pieces of them that carry real logic. Each script's
file system, terminal, network, clock and keyboard are replaced by
values or small objects. The scripts modelled are:

- `bin/jt.py`, the Jupyter SSH tunnel supervisor. Modelled: the `--port`
  converter, the `h:mm:ss` formatter, the ssh command line, the terminal
  capability cache, the de-duplicating status line, the per-line session
  classifier with kill-on-"not responding", and the exponential backoff
  between runs (files `tunnel_args.dfy`, `terminal.dfy`, `tunnel.dfy`).
- `discord/bin/gh-unsubscribe-rr.py`: the parser for the codeowners bot's
  comments and the triage that unsubscribes review-request notifications
  and unwatches other repositories (`codeowners.dfy`).
- `bin/sync.py`: the nested-dictionary configuration helpers, the ssh
  argument split, the rsync command and `init`'s exclude merge
  (`sync.dfy`).
- `install.py`: the installer's mode state machine, backup naming and
  target naming, over a disk and a keyboard object (`install.dfy`).
- `discord/bin/tf.py`: bazel label and project naming, the project
  lookup and the commands `apply`, `ucg` and `all-ucgs` issue (`tf.dfy`).
- `bin/get-ec2-ip.py`: the SSH-config rewriter `iter_new_config`
  (`ec2.dfy`).
- `installers/build.py`: the recursive `source=` include expander
  (`build.dfy`).
- `bin/todo.py`: trailing-tag parsing and grouping by tag (`todo.dfy`).
- `installers/uninstall.py`: path containment and the link filter
  (`uninstall.dfy`).
- `bin/aws-vault-read.py`: key selection and the output shape
  (`vault.dfy`).

`text.dfy` holds the Python string operations the scripts rely on:
`strip`, `split`, `splitlines`, `replace`, `int()`, `os.path.join`.
`wrappers.dfy` holds `Option` and `Result`.

Where a script is imperative, the model is too. Classes with fields
stand for `StatusMessage`, `_Terminfo`, `ContinuousSSH`, the sync
configuration and the `Installer`. Methods with loops stand for the
loops in the scripts. Each method is proved equal to a reference
function, and the properties are proved as lemmas about that function.

Two places where the repository's own description and the code differ;
the model follows the code:
- In `_run_once`, the `finally` block of `bin/jt.py:254-257` only
  terminates a process that is still running; it does not wait for it.
- `StatusMessage.__exit__` (`bin/jt.py:107-111`) writes and flushes
  only when the status line is enabled.

## Model

| member | source | states |
|---|---|---|
| TunnelArgs.IntOrPair | bin/jt.py:47-56 | ints and tuples pass through; text without a comma converts exactly when it is one integer; text with a comma converts exactly when it splits into two integers, giving the pair |
| TunnelArgs.PairTextRoundTrip | bin/jt.py:53-55 | the text `r,l` of two integers converts to the pair `(r, l)` |
| TunnelArgs.SingleTextRoundTrip | bin/jt.py:56 | the text of one integer converts to that port |
| TunnelArgs.TooManyCommasRefused | bin/jt.py:54 | text with more than one comma is refused (the unpacking raises) |
| TunnelArgs.DaySeconds | bin/jt.py:151-156 | `td.seconds` is the whole seconds within the day, 0 to 86399 |
| TunnelArgs.SplitSeconds | bin/jt.py:153-155 | hours, minutes and seconds recombine to the seconds, with minutes and seconds below 60 |
| TunnelArgs.Pad2 | bin/jt.py:156 | `{:02d}` of a value below 100 is two digits reading back as that value |
| TunnelArgs.FormatTimedeltaReadsBack | bin/jt.py:151-156 | `H:MM:SS` reads back as the seconds within the day |
| TunnelArgs.FormatTimedeltaShape | bin/jt.py:156 | the display is hours, a colon, two digits, a colon, two digits |
| TunnelArgs.FormatTimedelta | bin/jt.py:151-156 | the display of a time of day takes seven or eight characters: one or two hour digits, then `:MM:SS` |
| TunnelArgs.ReadForwardOf | bin/jt.py:354 | `a:localhost:b` reads back as the values of its two integer texts |
| TunnelArgs.ForwardArgReadsBack | bin/jt.py:354-366 | every `-L` value names exactly the rule's two ports; a single port is forwarded to itself |
| TunnelArgs.Forwards | bin/jt.py:362-366 | two arguments per rule |
| TunnelArgs.SshArgs | bin/jt.py:354-367 | the command is `ssh -v -N -o "ServerAliveInterval I" -o "ConnectTimeout T"`, then one `-L` per distinct rule (each rule of the option exactly once), then the host; the warning is printed exactly when no port was given |
| TunnelArgs.ForwardsAppend | bin/jt.py:362-366 | one more rule adds `-L` and its value at the end |
| TunnelArgs.SshArgsShape | bin/jt.py:355-367 | the command has the fixed seven-word head, two arguments per rule, and ends with the host |
| Terminal.Probe | bin/jt.py:66-74 | a capability is present exactly when standard output is a terminal, the database has it and it carries no `$<` delay; then it is the database's string |
| Terminal.FirstAbsent | bin/jt.py:77-78 | `all(...)` stops at the first absent capability: every one before it is present |
| Terminal.ExaminedIsFirstCaps | bin/jt.py:77-78 | the capabilities `has` looks at are those up to and including the first absent one |
| Terminal.Terminfo.constructor | bin/jt.py:59-63 | the probe remembers whether standard output is a terminal and starts with an empty cache |
| Terminal.Terminfo.Ensure | bin/jt.py:65-75 | `__ensure` returns the probe result and caches it; the database is queried only the first time a capability is asked for, and never when standard output is not a terminal |
| Terminal.Terminfo.Has | bin/jt.py:77-78 | `has` is true exactly when every requested capability is present, and caches exactly the capabilities `all` examined |
| Terminal.Redraw | bin/jt.py:117-123 | a redraw is `cr`, `el`, `rmam`, the message, `smam`, then a flush |
| Terminal.UpdateStep | bin/jt.py:113-123 | when disabled nothing happens; when enabled `last` becomes the message, and something is written exactly when the message differs from `last`, and then it is the redraw |
| Terminal.UpdatesOutputLength | bin/jt.py:113-123 | a run of updates writes six events per message that differs from the one shown before it, and nothing else |
| Terminal.UpdatesOutputSnoc | bin/jt.py:113-123 | one more update writes what a single update from the message left shown writes |
| Terminal.UpdatesOutputAppend | bin/jt.py:113-123 | two runs of updates write what the first writes, then what the second writes from where the first left off |
| Terminal.RepeatedUpdateWritesOnce | bin/jt.py:116 | two identical consecutive updates write once; two different ones write twice |
| Terminal.DisabledUpdatesWriteNothing | bin/jt.py:114-115 | a disabled display writes nothing, whatever the updates |
| Terminal.StatusMessage.constructor | bin/jt.py:97-100 | a new display has no `last` message and has written nothing |
| Terminal.StatusMessage.Update | bin/jt.py:113-123 | `update` changes `last` and the output exactly as the single-step rule says |
| Terminal.StatusMessage.Enter | bin/jt.py:102-105 | `__enter__` sets `last` to the empty message, so its own blank update writes nothing |
| Terminal.StatusMessage.Exit | bin/jt.py:107-111 | `__exit__` writes `cr`, `el` and a flush only when enabled |
| Terminal.NewStatusMessage | bin/jt.py:97-100 | the display is enabled exactly when the terminal has `cr`, `el`, `rmam` and `smam` |
| Tunnel.NextBackoff | bin/jt.py:197-201 | after a run shorter than the backoff the backoff doubles, capped at 1.0 s; after a longer run it resets to 0.1 s |
| Tunnel.NextBackoffInRange | bin/jt.py:174-175 | one backoff step keeps the backoff between 0.1 s and 1.0 s |
| Tunnel.ImmediateBackoffSequence | bin/jt.py:197-201 | runs that all exit at once see backoffs of 0.1, 0.2, 0.4 and 0.8 s, then 1.0 s for ever |
| Tunnel.Classify | bin/jt.py:221-244 | a received line is stripped, a leading `debug1:` is dropped and the rest stripped again; each marker is flagged exactly when it occurs in that text |
| Tunnel.ClassifiedTextTrimmed | bin/jt.py:221-237 | the text checked for markers has no whitespace at either end, and is the whole stripped line unless that starts with `debug1:` |
| Tunnel.DebugPrefixRemoved | bin/jt.py:236-237 | for a `debug1:` line, the markers are looked for in the stripped remainder |
| Tunnel.DebugLineStripped | bin/jt.py:221 | a line that starts with `debug1:` and ends in a non-space is left alone by the first strip |
| Tunnel.StatusLine | bin/jt.py:185-188 | the message passed on starts with `[label] ` and ends with ` \| msg` |
| Tunnel.Perceived | bin/jt.py:235-249 | there is one classified event per item of the output |
| Tunnel.Advance | bin/jt.py:241-248 | a "not responding" line makes the state disconnected (even with the other marker), an "Entering interactive session" line otherwise makes it connected, anything else and a timeout leave it as it was |
| Tunnel.Messages | bin/jt.py:249 | one status message per event |
| Tunnel.KillsIn | bin/jt.py:244-248 | there are never more kills than events |
| Tunnel.MessagesForwardEveryEvent | bin/jt.py:249 | the k-th message ends with the k-th line's text (empty for a timeout) |
| Tunnel.KillsInCount | bin/jt.py:244-248 | the process is killed exactly once for every line that says "not responding" |
| Tunnel.WithoutMarkersNothingChanges | bin/jt.py:241-248 | output with neither marker leaves the state as it was and kills nothing |
| Tunnel.ConnectedUntilNoted | bin/jt.py:241-243 | after an "Entering interactive session" line with no marker after it, the state is connected since that line |
| Tunnel.Kills | bin/jt.py:248 | `n` kills are `n` effects |
| Tunnel.Pause | bin/jt.py:197-198 | the sleep after a run is the rest of the backoff when the run was shorter than it, none otherwise |
| Tunnel.BackoffsInRange | bin/jt.py:190-201 | whatever the runs, the backoff stays between 0.1 s and 1.0 s |
| Tunnel.AttemptsStep | bin/jt.py:194-201 | one more run adds one backoff step, its launch, kills, wait, rollover and pause, and its messages |
| Tunnel.PausesBounded | bin/jt.py:197-199 | every sleep between runs is longer than nothing and at most 1.0 s |
| Tunnel.OnceNeverSleeps | bin/jt.py:227-257 | a single run never sleeps |
| Tunnel.PerceivedStep | bin/jt.py:235 | the events of one more item are the earlier events and its own |
| Tunnel.EventStep | bin/jt.py:235-249 | one more event advances the state once, adds one message and adds a kill exactly for a "not responding" line |
| Tunnel.KillsStep | bin/jt.py:244-248 | after one more event the effects are the earlier ones and one kill per "not responding" line so far |
| Tunnel.ContinuousSSH.constructor | bin/jt.py:164-177 | a fresh status line over the terminal, state disconnected from now, backoff 0.1 s, nothing done yet |
| Tunnel.ContinuousSSH.SetStatus | bin/jt.py:179-183 | the state and its change time are replaced; nothing else changes |
| Tunnel.ContinuousSSH.Update | bin/jt.py:185-188 | the status line receives `[label] elapsed \| msg` and writes what `StatusMessage.update` writes |
| Tunnel.ContinuousSSH.Timeout | bin/jt.py:205-207 | the status line is refreshed with an empty message |
| Tunnel.ContinuousSSH.Handle | bin/jt.py:236-249 | one item advances the state as `Advance` says, kills for a "not responding" line and forwards the note to the status line |
| Tunnel.ContinuousSSH.PumpOne | bin/jt.py:235-249 | one more item keeps state, effects, messages and output in step with the events so far |
| Tunnel.ContinuousSSH.Pumping | bin/jt.py:227-249 | a launch, "connecting" from the start, then state, kills and messages exactly as the run's events determine |
| Tunnel.ContinuousSSH.RunOnce | bin/jt.py:227-257 | a completed run launches, kills per unresponsive line, waits, ends disconnected at its end and rolls the log over; the backoff is untouched |
| Tunnel.ContinuousSSH.RunAgain | bin/jt.py:194-201 | one pass of the loop keeps the state equal to the specification of the runs so far plus this one |
| Tunnel.ContinuousSSH.Run | bin/jt.py:190-203 | the backoff, effects, messages and output after the completed runs and an interrupted one are exactly those the runs determine, ending with a terminate and the status line's exit |
| Codeowners.BracketAfterSpaces | discord/bin/gh-unsubscribe-rr.py:22 | whitespace before the closing `](` does not change whether the line closes there |
| Codeowners.SpacesSkipped | discord/bin/gh-unsubscribe-rr.py:22 | the leading `\s*` skips indentation: an indented line matches as the unindented one does |
| Codeowners.EmojiRead | discord/bin/gh-unsubscribe-rr.py:22 | a run of word characters is read whole into the emoji name |
| Codeowners.GapRead | discord/bin/gh-unsubscribe-rr.py:22 | a run of whitespace after the emoji is read whole and satisfies `\s+` once it is not empty |
| Codeowners.TeamRead | discord/bin/gh-unsubscribe-rr.py:22 | a run of word and space characters is read whole into the team |
| Codeowners.OwnerLinkMatches | discord/bin/gh-unsubscribe-rr.py:21-23 | a line the bot writes (indent, `:emoji:`, gap, `[team`, optional `(required)` or `:(required)` mark, padding, `](`) matches, with that emoji and that team, the padding included when no mark separates it |
| Codeowners.LinkOpens | discord/bin/gh-unsubscribe-rr.py:22 | once indent, `:emoji:`, gap and `[` are read, the match is decided by the team part |
| Codeowners.ClosesPlain | discord/bin/gh-unsubscribe-rr.py:22 | `](` closes the link |
| Codeowners.ClosesMarked | discord/bin/gh-unsubscribe-rr.py:22 | a `(required)` or `:(required)` mark, padding, then `](` closes the link |
| Codeowners.Links | discord/bin/gh-unsubscribe-rr.py:190-191 | the pattern is applied to every line, one result per line |
| Codeowners.Mentioned | discord/bin/gh-unsubscribe-rr.py:176-178 | the teams of the three lists, all of them and no others, one entry per list entry |
| Codeowners.Parsed | discord/bin/gh-unsubscribe-rr.py:181-203 | a comment is refused only when it carries the marker, naming its author; a parsed comment carries the marker and mentions at least one team |
| Codeowners.LinksAt | discord/bin/gh-unsubscribe-rr.py:191 | the k-th result is the pattern applied to the k-th line |
| Codeowners.Parse | discord/bin/gh-unsubscribe-rr.py:181-203 | the loop over the lines computes exactly `Parsed`: nothing without the marker, an error without a team line, the three lists otherwise |
| Codeowners.AddLink | discord/bin/gh-unsubscribe-rr.py:192-198 | a match adds its stripped team to the list its emoji selects (`x` required, `information_source` optional, `white_check_mark` completed) and to no other |
| Codeowners.TeamsStep | discord/bin/gh-unsubscribe-rr.py:190-198 | one more line adds at most that line's team to a list |
| Codeowners.LinksStep | discord/bin/gh-unsubscribe-rr.py:190-191 | one more line adds its own match result |
| Codeowners.TeamsMembers | discord/bin/gh-unsubscribe-rr.py:190-198 | a team is in the list for an emoji exactly when some line links that emoji to that team, stripped |
| Codeowners.TeamsSound | discord/bin/gh-unsubscribe-rr.py:190-198 | every team in a list comes from a line with that emoji |
| Codeowners.TeamsComplete | discord/bin/gh-unsubscribe-rr.py:190-198 | every line with that emoji puts its team in the list |
| Codeowners.TeamsInLineOrder | discord/bin/gh-unsubscribe-rr.py:190-198 | the lists keep the order of the comment's lines |
| Codeowners.TeamsEmptyIff | discord/bin/gh-unsubscribe-rr.py:200 | a list is empty exactly when no line contributes to it |
| Codeowners.NoTeamLinkIff | discord/bin/gh-unsubscribe-rr.py:200 | all three lists are empty exactly when no line links a team with one of the three emoji |
| Codeowners.ParsedRefusesUnlinked | discord/bin/gh-unsubscribe-rr.py:182-201 | a comment is refused exactly when it carries the marker and no line links a team with one of the three emoji |
| Codeowners.ParsedIgnoresUnmarked | discord/bin/gh-unsubscribe-rr.py:182-184 | a comment without the marker gives nothing |
| Codeowners.MentionedTeams | discord/bin/gh-unsubscribe-rr.py:176-178 | a parsed comment mentions a team exactly when one of its lines links that team with one of the three emoji |
| Codeowners.MentionedLines | discord/bin/gh-unsubscribe-rr.py:176-198 | over lines: mentioned exactly when some line links the team |
| Codeowners.MentionedLinks | discord/bin/gh-unsubscribe-rr.py:176-178 | over match results: mentioned exactly when some result links the team |
| Codeowners.RequestedReviewers | discord/bin/gh-unsubscribe-rr.py:134-135 | the reviewers' logins, one per reviewer, in order |
| Codeowners.RequestedTeams | discord/bin/gh-unsubscribe-rr.py:137-138 | the teams' names, one per team, in order |
| Codeowners.Noisy | discord/bin/gh-unsubscribe-rr.py:115-116 | a notification is noisy only when it is a review request in the repository given |
| Codeowners.ScanComment | discord/bin/gh-unsubscribe-rr.py:300-306 | for one comment: nothing unless the bot wrote it; the parse error aborts; an unsubscribe when the owners team is mentioned |
| Codeowners.ScanBotComments | discord/bin/gh-unsubscribe-rr.py:297-306 | the loop over the comments computes exactly `ScanComments`, stopping at the first unreadable bot comment |
| Codeowners.ScanStopped | discord/bin/gh-unsubscribe-rr.py:297-306 | once a comment aborts, later comments change nothing |
| Codeowners.TriageStopped | discord/bin/gh-unsubscribe-rr.py:262-306 | once the triage aborts, later notifications change nothing |
| Codeowners.Triage | discord/bin/gh-unsubscribe-rr.py:262-310 | the loop over the notifications computes exactly `TriageAll` |
| Codeowners.TriageAll | discord/bin/gh-unsubscribe-rr.py:262-310 | every repository in the unwatched set is the repository of one of the notifications |
| Codeowners.TriageThread | discord/bin/gh-unsubscribe-rr.py:268-310 | one notification: another repository of the organisation has its watch deleted once and the thread unsubscribed; a review request is kept when the owner is requested, unsubscribed when closed or the team is not requested, and otherwise decided by the bot's comments |
| Codeowners.CommentStepAborts | discord/bin/gh-unsubscribe-rr.py:300-302 | one comment aborts exactly when the bot wrote it and it cannot be read |
| Codeowners.ScanOnlyUnsubscribes | discord/bin/gh-unsubscribe-rr.py:297-306 | the comment loop only unsubscribes from its own thread |
| Codeowners.ScanAbortsIff | discord/bin/gh-unsubscribe-rr.py:297-306 | the comment loop aborts exactly when some bot comment cannot be read |
| Codeowners.TriageOneConcerns | discord/bin/gh-unsubscribe-rr.py:268-306 | every action for a notification is justified by that notification |
| Codeowners.ActionsConcernThreads | discord/bin/gh-unsubscribe-rr.py:262-306 | a watch is deleted only for another repository of the organisation, and a thread is unsubscribed only for such a notification or a review request that does not personally request the owner |
| Codeowners.DroppedAreUnsubscribed | discord/bin/gh-unsubscribe-rr.py:268-295 | unless the triage aborts, every notification from another repository, closed, or no longer requesting the team is unsubscribed |
| Codeowners.TriageOneDeletes | discord/bin/gh-unsubscribe-rr.py:271-274 | a pass deletes a watch exactly when it adds the repository to the set |
| Codeowners.DeletesOncePerRepo | discord/bin/gh-unsubscribe-rr.py:271-274 | the watch on a repository is deleted exactly once if it is in the set and never otherwise |
| Codeowners.UnwatchedRepos | discord/bin/gh-unsubscribe-rr.py:268-274 | the set holds only repositories of other-repository notifications, and all of them unless the triage aborts |
| Sync.LookupAppend | bin/sync.py:19-23 | looking up a dotted path is looking up its first part, then the rest inside the value found |
| Sync.WalkCons | bin/sync.py:21-22 | `getcfg`'s walk takes one `setdefault(part, {})` step at a time |
| Sync.SetDefaultFound | bin/sync.py:15-23 | when the dotted path exists, `getcfg` returns the stored value and changes nothing |
| Sync.SetDefaultStores | bin/sync.py:19-23 | afterwards the path is present and holds the returned value: the old one if there was one, the default otherwise |
| Sync.FreshNeverBlocks | bin/sync.py:21-23 | on an empty configuration every intermediate dictionary is created and the walk never fails |
| Sync.SetDefaultFailsIff | bin/sync.py:21-23 | `getcfg` raises exactly when some prefix of the path leads to a value that is not a dictionary |
| Sync.SetDefaultIdempotent | bin/sync.py:23 | a second `getcfg` of the same key, with any default, finds what the first one stored and changes nothing |
| Sync.WalkBlocks | bin/sync.py:21-22 | once the walk meets a non-dictionary, `getcfg` raises |
| Sync.ReplaceStores | bin/sync.py:38-39 | an item assignment through the dictionary `getcfg` returned is visible at that path |
| Sync.SetDefaultElsewhere | bin/sync.py:19-23 | `getcfg` changes nothing on a path that parts ways with its own |
| Sync.ReplaceElsewhere | bin/sync.py:38-39 | an item assignment changes nothing on a path that parts ways with its own |
| Sync.GetFinds | bin/sync.py:15-23 | a successful `getcfg` returns the setting (stored value or default) and stores it |
| Sync.GetElsewhere | bin/sync.py:15-23 | a successful `getcfg` leaves every diverging path alone |
| Sync.SshArgumentsOf | bin/sync.py:30-40 | with host arguments the last one is returned; the only failure is a value on the path that is not a dictionary |
| Sync.StrsOf | bin/sync.py:62-64 | a setting iterates to strings exactly when it is a string or a list of strings; a list gives its items in order; a boolean or null is not iterable (`TypeError`) |
| Sync.StrsRoundTrip | bin/sync.py:62-70 | a list of strings stored as YAML reads back as the same list |
| Sync.StringIterated | bin/sync.py:64 | a string setting is iterated character by character: each character becomes a string of its own |
| Sync.Format | bin/sync.py:71 | an exclude item is formatted as Python prints it: a string as it is, `True`/`False` for a boolean, `None` for null |
| Sync.FormatAll | bin/sync.py:70-71 | the items of the excludes format one for one, in order, exactly when each of them does |
| Sync.Patterns | bin/sync.py:70-71 | the exclude patterns of a string setting are its characters; a list gives its items formatted; a boolean or null is not iterable |
| Sync.StringOptionsSplit | bin/sync.py:61-62 | a string of options (`-avz`) becomes one argument per character, right after `rsync` |
| Sync.ToDir | bin/sync.py:25-28 | the result ends with exactly one `/`, and is the path with all its trailing `/` removed |
| Sync.ToDirIdempotent | bin/sync.py:25-28 | `to_dir` of its own result changes nothing |
| Sync.SshArgumentsStored | bin/sync.py:35-40 | with host arguments, the last becomes `remote.ssh.host`, the others `remote.ssh.args`, and the host is returned |
| Sync.SshArgumentsDefault | bin/sync.py:32-34 | without host arguments (or while parsing resiliently), the stored `remote.ssh.host` is returned, `*` when there is none |
| Sync.SshArgumentsFailIff | bin/sync.py:30-40 | the callback raises exactly when the configuration, `remote` or `remote.ssh` is not a dictionary |
| Sync.DryRunStored | bin/sync.py:55 | `main` stores the flag under `rsync.dry_run`, whatever was there |
| Sync.ExcludeFlags | bin/sync.py:71 | one `--exclude=PATTERN` per pattern, in order |
| Sync.RsyncCommandLayout | bin/sync.py:61-73 | the command is `rsync`, the options, `-e` with the ssh words joined by spaces, `-n` exactly when dry-running, the exclude flags in order, then `to_dir(src)` and `to_dir(dst)` |
| Sync.GetStringsFinds | bin/sync.py:62-64 | a read-and-iterate succeeds exactly when `getcfg` does and the stored value or default iterates to strings, and then gives those strings; the tree is the one `getcfg` leaves |
| Sync.RsyncReadsSettings | bin/sync.py:58-73 | the command is made of the stored settings, each missing one replaced by its default (options `-a -v -P -z -u`, ssh command `ssh`, no dry run, no excludes), each iterated as Python iterates it |
| Sync.RsyncPathsDiverge | bin/sync.py:62-70 | the four settings `rsync` reads lie on paths that part ways, so reading one leaves the others alone |
| Sync.DryRunReachesRsync | bin/sync.py:55-68 | after `main` stored the flag, the rsync command carries `-n` exactly when it is set, right after the options and the `-e` argument |
| Sync.RsyncOf | bin/sync.py:58-73 | a command that is built starts with `rsync` and ends with `to_dir(src)` and `to_dir(dst)` |
| Sync.Merge | bin/sync.py:85-88 | the merge keeps the existing entries, in order, at the front |
| Sync.Missing | bin/sync.py:86-88 | the defaults added are exactly those not already present |
| Sync.MissingDistinct | bin/sync.py:85-88 | no default is added twice |
| Sync.MergeAppendsMissing | bin/sync.py:85-88 | the merged list is the existing list followed by the missing defaults in default order |
| Sync.MergeHasDefaults | bin/sync.py:85-88 | after the merge every default is present |
| Sync.DefaultExcludesDistinct | bin/sync.py:11-13 | the five default excludes are distinct |
| Sync.InitOf | bin/sync.py:85-89 | `init` fails only on a value on a path that is not a dictionary or on excludes that are not a list |
| Sync.InitMergesExcludes | bin/sync.py:85-89 | after `init`, `rsync.excludes` is the old list followed by the missing defaults, and `remote.path` holds the old value or `/mnt/even/PROJECT/` |
| Sync.Config.constructor | bin/sync.py:150 | the shared configuration starts as the given tree |
| Sync.Config.GetCfg | bin/sync.py:15-23 | `getcfg` splits the key at every `.` and changes the tree and returns what the reference lookup does |
| Sync.Config.GetCfgAt | bin/sync.py:19-23 | the loop of `setdefault` steps changes the tree and returns what the reference lookup does, or raises where it fails |
| Sync.Config.GetStringList | bin/sync.py:62-64 | a read-and-iterate changes the tree and returns as the reference read does |
| Sync.Config.HandleSshArguments | bin/sync.py:30-40 | the callback changes the tree and returns the host as the reference definition does |
| Sync.Config.ApplyDryRun | bin/sync.py:55 | the last step of `main` changes the tree as the reference definition does |
| Sync.Config.Rsync | bin/sync.py:58-73 | the settings are read in the order of the source, the exclude patterns formatted one by one, and the command and the tree are those of the reference definition |
| Sync.Config.Init | bin/sync.py:85-89 | `init`'s loop appends each missing default and sets the remote path, as the reference definition says |
| Install.Disk.Rename | install.py:77-88 | `os.rename` moves the path to its new name, replacing one that exists, and is logged |
| Install.Disk.Remove | install.py:101 | `os.remove` deletes the path and is logged |
| Install.Disk.Symlink | install.py:104 | `os.symlink` creates the target and is logged |
| Install.AnswerOf | install.py:67-75 | the prompt ends after a positive number of keys, never more than were typed |
| Install.AnswerIsFirstDecisive | install.py:67-75 | the prompt ends on the first key that is a choice (which becomes the mode) or `q`/`Q` (which quits); every key before it is refused; without one the input runs out |
| Install.BackupPicksFirstFree | install.py:79-85 | the backup goes to the first of `.backup`, `.backup1`, ... that does not exist |
| Install.BackupOverwritesLast | install.py:86-88 | when every candidate exists the last one tried is overwritten; with no candidate to try, `.backup` is |
| Install.BackupName | install.py:77-88 | the backup name is an existing file only when every candidate exists |
| Install.InstallOne | install.py:90-104 | unless the run stops, the target exists afterwards |
| Install.FreeTargetLinked | install.py:90-104 | a target that does not exist is linked at once: nothing is asked and the mode stays |
| Install.TakenTargetByMode | install.py:95-103 | an existing target: skip changes nothing, backup renames then links, overwrite removes then links, any other mode is the `ValueError` and changes nothing |
| Install.AskedModeUsed | install.py:93-94 | in mode `i` the user is asked and the chosen mode decides this item; quitting or running out of input changes nothing on disk |
| Install.ItemKeepsResting | install.py:118-122 | after one item the mode is `i` again or an uppercase choice |
| Install.InstallOneMode | install.py:90-103 | `_install` leaves the mode as it was or sets it to one of the six choices |
| Install.ModeBetweenItems | install.py:111-133 | between items the mode is always `i` or an uppercase choice: a lowercase answer applies to one item only |
| Install.ItemKeepsUppercase | install.py:118-122 | with an uppercase mode an item asks nothing and keeps the mode |
| Install.InstallOneDecided | install.py:92-104 | with an uppercase mode `_install` asks nothing and keeps the mode |
| Install.UppercasePersists | install.py:111-133 | an uppercase answer holds for every later item: nothing more is asked |
| Install.LinkedItemUntouched | install.py:118-122 | an item whose target exists and already points into the dotfiles leaves the disk alone |
| Install.TargetNaming | install.py:111-127 | `TOPIC/NAME.symlink` (or `.dir`) is linked as `HOME/.NAME` |
| Install.BasenameOfLast | install.py:111-127 | `basename` of `DIR/NAME` is `NAME` |
| Install.Installer.constructor | install.py:58-61 | a new installer has the given mode and number of backup names to try |
| Install.Installer.Ask | install.py:63-75 | `ask` reads keys until the first decisive one and sets the mode, quits, or runs out of input, as the reference answer says |
| Install.Installer.Backup | install.py:77-88 | `backup` renames the target to the backup name the reference definition picks, and changes nothing else |
| Install.Installer.InstallFile | install.py:90-106 | `_install` changes the mode, the disk and the keys exactly as the reference `InstallOne` does |
| Install.Installer.InstallMatch | install.py:112-122 | one loop iteration: installs unless the target is already correct, then resets a lowercase mode, as `InstallItem` says |
| Install.Installer.InstallMatches | install.py:111-122 | one glob loop, ending at the first stop, is the reference run over its matches |
| Install.Installer.InstallAllItems | install.py:108-133 | `install` runs the `.symlink` matches then the `.dir` matches as one run |
| Install.StoppedRunIgnores | install.py:63-103 | once stopped (`SystemExit`, `ValueError`) nothing further happens |
| Install.InstallAllAppend | install.py:111-133 | the two loops make one run over both lists |
| Install.Installer.NextMatch | install.py:111-122 | one pass of the glob loop leaves disk, keyboard and mode as the reference run over the matches so far says, or, when it stops, as the run over all matches |
| Install.NextItem | install.py:111-122 | one more match extends the reference run, or a stop ends it |
| Install.StoppedStaysStopped | install.py:63-103 | once a run has stopped, the remaining matches change nothing |
| Tf.Label | discord/bin/tf.py:117-118 | the label always starts with `//` or `@` and ends with the module; a rooted module is kept, any other gets `//` in front |
| Tf.LabelIdempotent | discord/bin/tf.py:117-118 | normalising a label twice changes nothing |
| Tf.BzlCommand | discord/bin/tf.py:120 | the command is `bzl run LABEL:TARGET --` followed by exactly the extra arguments |
| Tf.BzlCommandTarget | discord/bin/tf.py:120 | the third word splits at its first colon into the module label and the target |
| Tf.Message | discord/bin/tf.py:16-17 | the error message names the project and the environment |
| Tf.FindProject | discord/bin/tf.py:130-142 | a directory found has a BUILD file; a failure names the normalised project and the environment |
| Tf.ProjectName | discord/bin/tf.py:131-132 | every project name carries the `discord-` prefix and ends with the name given; a prefixed name is kept |
| Tf.ProjectNameIdempotent | discord/bin/tf.py:131-132 | adding the prefix twice changes nothing |
| Tf.FindProjectCases | discord/bin/tf.py:130-142 | the default location wins when it has a BUILD file, the data location is the fallback, and the lookup fails, with exit code 127 and the normalised name, exactly when neither has one |
| Tf.FindProjectIgnoresPrefix | discord/bin/tf.py:131-132 | a name given with or without `discord-` finds the same project |
| Tf.Apply | discord/bin/tf.py:63-79 | `apply` issues commands exactly when the project is found |
| Tf.ApplySteps | discord/bin/tf.py:63-79 | `apply` runs `init -upgrade`, `init` or nothing as the flags say, then `apply`, every command on the environment target of the project's package |
| Tf.UcgProject | discord/bin/tf.py:95 | the user-group project is `discord-data-` followed by the user-group |
| Tf.UcgProjectKeepsName | discord/bin/tf.py:95 | that project already carries the prefix, so the lookup uses it unchanged |
| Tf.ApplyUcgs | discord/bin/tf.py:101-113 | at most two commands per user-group; an error names a project of the environment given and needs at least one user-group |
| Tf.ApplyUcgsAllFound | discord/bin/tf.py:101-113 | when every user-group is found, the run is the `apply` of each in order, with no error |
| Tf.ApplyUcgsStops | discord/bin/tf.py:101-113 | the first user-group not found ends the run after the commands of those before it, with its error |
| Tf.AllUcgsOrder | discord/bin/tf.py:108-113 | `all-ucgs` visits analytics, modeling, reporting and tns in that order, stopping at the first one not found with the error naming `discord-data-NAME` |
| Ec2.SpaceRun | bin/get-ec2-ip.py:57-61 | the run of `\s` from a position: all whitespace, ended by the line end or a non-space |
| Ec2.KeywordEnd | bin/get-ec2-ip.py:57-61 | `\s*host` / `\s*hostname` (ignoring case) ends inside the line, after at least the keyword |
| Ec2.OneCharValue | bin/get-ec2-ip.py:57-61 | what the lazy `(.+?)` captures as written: exactly one character, never a newline |
| Ec2.BeforeComment | bin/get-ec2-ip.py:57-61 | the text before an optional `#...` comment is a prefix without `#` |
| Ec2.FullValue | bin/get-ec2-ip.py:57-61 | the intended value: non-empty and without a comment |
| Ec2.HostNameIsNotHost | bin/get-ec2-ip.py:57-61 | a `HostName` line never matches the `Host` pattern (after `host` comes `n`, neither `=` nor whitespace) |
| Ec2.HostNameExcludesHost | bin/get-ec2-ip.py:57-61 | a line that matches the `Host` pattern does not match the `HostName` pattern |
| Ec2.AsWrittenCapturesOneChar | bin/get-ec2-ip.py:57-61 | as written, every capture is a single character |
| Ec2.IntendedCapturesValue | bin/get-ec2-ip.py:57-61 | the corrected pattern captures the whole value of `KEYWORD VALUE` followed by trailing whitespace, in any letter case |
| Ec2.AsWrittenCapturesFirstChar | bin/get-ec2-ip.py:57-61 | as written, the same line captures only the first character of its value |
| Ec2.IterNewConfig | bin/get-ec2-ip.py:54-66 | the generator yields, line for line, the rewrite of each line under the host current after it |
| Ec2.RewriteLine | bin/get-ec2-ip.py:57-66 | one pass of the loop: the host becomes the `Host` capture if the line has one, then a `HostName` line of the target host has its old value replaced |
| Ec2.NewConfig | bin/get-ec2-ip.py:54-66 | the output has exactly one line per input line |
| Ec2.NewConfigAt | bin/get-ec2-ip.py:54-66 | output line `i` is the rewrite of input line `i` under the host current after lines `0..i` |
| Ec2.BlockRewrite | bin/get-ec2-ip.py:57-66 | lines outside the target block (including those before any `Host` line) and lines of the block that are not `HostName` lines pass unchanged; a `HostName` line of the block has every occurrence of its old value replaced |
| Ec2.NoHostYet | bin/get-ec2-ip.py:55 | before the first `Host` line there is no current host |
| Ec2.HostAfter | bin/get-ec2-ip.py:55-59 | there is a current host exactly when some line so far matched the `Host` pattern, and it is the capture of such a line |
| Ec2.HostChanges | bin/get-ec2-ip.py:57-59 | the current host changes only on a `Host` line, and then becomes its capture |
| Ec2.AsWrittenHostIsOneChar | bin/get-ec2-ip.py:57-59 | as written, the current host is always one character long |
| Ec2.AsWrittenIgnoresLongTargets | bin/get-ec2-ip.py:54-66 | as written, a target host of any length other than one leaves the config unchanged |
| Ec2.BlockAsWritten | bin/get-ec2-ip.py:54-66 | as written, the block `Host NAME` / `HostName ADDRESS` with a name longer than one character keeps its old address |
| Ec2.BlockHostCaptured | bin/get-ec2-ip.py:57-59 | corrected: `Host NAME` makes `NAME` the current host |
| Ec2.BlockAddressCaptured | bin/get-ec2-ip.py:57-61 | corrected: `  HostName VALUE` captures `VALUE` and does not match the `Host` pattern |
| Ec2.BlockAddressReplaced | bin/get-ec2-ip.py:64 | replacing the old address in the `HostName` line leaves the keyword intact |
| Ec2.BlockIntended | bin/get-ec2-ip.py:54-66 | corrected: the block's address is replaced by the new one and the `Host` line stays |
| Ec2.ReplaceAfter | bin/get-ec2-ip.py:64 | `str.replace` of a value that occurs only once, after a prefix, replaces just that occurrence |
| Ec2.IntendedRewritesAddress | bin/get-ec2-ip.py:57-64 | corrected: a `HostName VALUE` line of the target block has its value replaced by the new address |
| Build.DirectiveFrom | installers/build.py:21 | a name captured by `source=(\w\S+)` has at least two characters, starts with a word character and holds no whitespace |
| Build.Directive | installers/build.py:21 | only a line that starts with `#` can be an include directive |
| Build.DirectiveNames | installers/build.py:41-45 | the comment `# source=NAME` followed by whitespace or the line end names exactly `NAME` |
| Build.PreludeEnd | installers/build.py:30-36 | the line where the prelude ends is the first one matching `^set -eu\s*$`; none means no line matches |
| Build.ExpandFile | installers/build.py:25-50 | a file expands without error only when it exists and, outside prelude mode, has a line that ends the prelude |
| Build.ProcessIncludes | installers/build.py:25-50 | the loop writes what the recursive reference expansion writes and ends with its error (missing file, no content after the prelude, or includes nested deeper than the `fuel` bound) |
| Build.ProcessLine | installers/build.py:37-50 | one line after the prelude: a plain line is copied; a directive drops the next line and writes the include between BEGIN and END markers; the rest of the file then expands as the reference does |
| Build.TopLevelCopied | installers/build.py:18-50 | the top-level file is processed with its prelude: without directives it is copied whole |
| Build.IncludedPreludeSkipped | installers/build.py:30-36 | an included file loses its lines up to and including the first `set -eu`; without one it is the `no content after prelude` error and writes nothing |
| Build.DirectiveExpanded | installers/build.py:41-48 | a directive becomes `# BEGIN included from P`, the expansion of `P = join(dotfiles, name)`, `# END included from P`, and the following line is skipped; an error inside the include stops after the BEGIN marker |
| Build.DirectiveAtEnd | installers/build.py:37-44 | a directive on the last line (no line left to skip) ends the file without error once its include has expanded |
| Build.PlainPrefixCopied | installers/build.py:49-50 | a run of plain lines is written unchanged before whatever the following lines produce |
| Build.PreludeEndLine | installers/build.py:22 | a line closes a prelude exactly when it is `set -eu` followed by whitespace only; so `set -eu` closes it with or without its line end and `set -eux` does not |
| Todo.TrailingTags | bin/todo.py:23-30 | the reversed scan stops at the first token from the end that is not a tag: every token after the cut is a tag and the token before it is not |
| Todo.FromTokens | bin/todo.py:22-32 | a line has tags exactly when its last token is a tag; without tags the text is all the tokens joined by spaces |
| Todo.TagNamesOfSuffix | bin/todo.py:23-26 | every tag name comes from a tag token of the trailing run, the last token giving one |
| Todo.ParseLine | bin/todo.py:19-32 | the body of the loop over the lines produces the item the reference definition gives: none for a blank line, otherwise the text and the tag names |
| Todo.BlankLines | bin/todo.py:19-20 | a line yields no item if and only if it is empty or whitespace only |
| Todo.ItemUntagged | bin/todo.py:23-30 | a line whose last token is not a tag has no tags and its tokens joined by single spaces as its text |
| Todo.ItemAllTags | bin/todo.py:23-32 | a line whose tokens are all tags keeps all of them in its text (no slicing happens), and they are its tags |
| Todo.ItemTagsCut | bin/todo.py:23-32 | otherwise the trailing tags are cut off the text and their names, without `#`, are the tags |
| Todo.ItemOfWordsAndTags | bin/todo.py:19-32 | a line of plain words followed by tag tokens reads back as those words and those tag names |
| Todo.WordsOfJoin | bin/todo.py:22 | tokens joined by single spaces are split back by `split()` into the same tokens |
| Todo.ParseTodos | bin/todo.py:15-32 | the loop of `main` appends exactly the items of the non-blank lines, in order |
| Todo.ItemsAppend | bin/todo.py:18-32 | the items of two runs of lines are the items of each, in order |
| Todo.Members | bin/todo.py:39-43 | every member of a group belongs to it by one of its tags, or by having none |
| Todo.Grouped | bin/todo.py:38-43 | the groups are exactly the tags of the items (and `<NO TAG>` when some item has none), and each group holds only items that belong to it |
| Todo.ByTags | bin/todo.py:37-43 | the grouping loop builds, for each tag (and `<NO TAG>`), the items listed under it, in list order |
| Todo.AddItem | bin/todo.py:40-43 | one item is appended to `<NO TAG>` when it has no tags, and to the group of each of its tags |
| Todo.AppendEach | bin/todo.py:42-43 | appending to the group of each key of a set, in any order, gives the same groups |
| Todo.GroupMembership | bin/todo.py:39-43 | every item is listed under each of its tags, an untagged item under `<NO TAG>`, and nothing is listed where it does not belong |
| Todo.MembersAppend | bin/todo.py:39-43 | within a group, items keep the order of the list |
| Todo.StrLessIrreflexive | bin/todo.py:45 | Python's string ordering used by `sorted` is irreflexive |
| Todo.StrLessTrans | bin/todo.py:45 | Python's string ordering is transitive |
| Todo.StrLessTotal | bin/todo.py:45 | of two different strings exactly one is smaller |
| Todo.LeastExists | bin/todo.py:45 | every non-empty set of tags has a least element, so `sorted` is defined |
| Todo.Report | bin/todo.py:45-49 | the printing loop visits every group exactly once, in increasing order, and prints `#tag`, the texts of its items and an empty line |
| Todo.SortedKeys | bin/todo.py:45 | `sorted(tags)`: the keys in strictly increasing order, each exactly once |
| Todo.Items | bin/todo.py:18-32 | at most one item per line |
| Uninstall.PathOf | installers/uninstall.py:44 | `Path(item)` gives well-formed components; the root comes first exactly when the string starts with `/`, and it is `//` exactly when the string starts with two separators and not three |
| Uninstall.PathRoundTrip | installers/uninstall.py:32-44 | printing a well-formed path (as the messages do) and reading it back with `Path(...)` gives the same components |
| Uninstall.OtherNotContained | installers/uninstall.py:45-46 | an object that is neither a string nor a path is never in the dotfiles |
| Uninstall.StrAsPath | installers/uninstall.py:43-44 | a string is judged by the path it names |
| Uninstall.ContainsIff | installers/uninstall.py:42-48 | a path is in the dotfiles if and only if it is the dotfiles components followed by anything |
| Uninstall.ContainsItself | installers/uninstall.py:48 | the dotfiles directory itself is in the dotfiles |
| Uninstall.DoubleRootNotContained | installers/uninstall.py:42-48 | a string starting with exactly two separators is never in a dotfiles directory under the root `/` |
| Uninstall.SiblingNotContained | installers/uninstall.py:48 | a sibling whose last component differs (say `.dotfiles-old`) is not in the dotfiles, whatever follows it |
| Uninstall.Message | installers/uninstall.py:32-35 | a dry-run action prints `Would remove link ...`, a removal prints `Removed link ...` |
| Uninstall.Uninstall | installers/uninstall.py:6-35 | `main` forces the dry run on whatever the flag, and produces the dry-run actions over the home directory for `~/.dotfiles` |
| Uninstall.UnlinkAll | installers/uninstall.py:22-35 | the loop produces, in directory order, one action per dot-file symbolic link whose resolved target is in the dotfiles |
| Uninstall.DryRunRemovesNothing | installers/uninstall.py:31-32 | in a dry run every action is a report, never a removal |
| Uninstall.ActedOnIff | installers/uninstall.py:22-35 | an action is taken if and only if an entry is a dot-file, a symbolic link and resolves into the dotfiles |
| Uninstall.NeverUnlinks | installers/uninstall.py:16-35 | the program as written never unlinks anything |
| Uninstall.Actions | installers/uninstall.py:22-35 | at most one action per directory entry |
| Vault.Lookup | bin/aws-vault-read.py:18-20 | `key in profile_config`: absent exactly when no entry of the profile has that key; a found value is the value of an entry with that key |
| Vault.Select | bin/aws-vault-read.py:16-24 | the list `main` builds equals the selection: the exact key with its stripped value, otherwise every entry whose key contains the one asked for, stripped, in file order |
| Vault.ReadKey | bin/aws-vault-read.py:11-34 | the outcome of `main` is that of the reference definition: missing profile, the not-found message, one value alone, or one `key=value` line per selection |
| Vault.ExactKeyWins | bin/aws-vault-read.py:19-20 | when the key is present exactly, only that entry is printed, even if other keys contain it |
| Vault.MatchingIff | bin/aws-vault-read.py:22-24 | without an exact key, an entry is selected if and only if its key contains the one asked for, and its value is then stripped |
| Vault.MatchingAppend | bin/aws-vault-read.py:22-24 | the matches of a concatenation are the matches of each part, in order (file order is kept) |
| Vault.ValuesStripped | bin/aws-vault-read.py:20-24 | every selected value has no surrounding whitespace |
| Vault.NotFoundIff | bin/aws-vault-read.py:26-28 | the not-found message (and Abort) happens if and only if no key of the profile contains the one asked for |
| Vault.OutputShape | bin/aws-vault-read.py:26-34 | one selection prints its value alone; several print one line each that starts with `key=` and ends with the value; none prints `Can't find key=...` |
| Vault.Matching | bin/aws-vault-read.py:22-24 | no more matches than entries in the section |

## Left out

- Process control in `bin/jt.py`: `subprocess.Popen`, `kill`, `terminate`, `wait`, `time.sleep` and log rollover are recorded as `Effect` values. Nothing is executed.
- `_await_output` in `bin/jt.py` (selectors, the one-second deadline, `proc.poll`) is not modelled. A run's output is given as a sequence of received lines and timeouts, with their times.
- Wall-clock time in `bin/jt.py` is an integer number of microseconds passed in by the caller. No floating point is involved.
- The `KeyboardInterrupt` that ends `run` is modelled as arriving during the last run. `Tunnel.ContinuousSSH.Run` takes that run's output so far as a parameter.
- `curses.setupterm`, `tigetstr` and `tparm` are foreign calls. They are replaced by a map from capability name to its string and a flag saying whether standard output is a terminal.
- `click.style` colouring of the status labels is not modelled. The labels are plain text.
- `StatusMessage._enabled` is a class attribute computed by the first instance. The model computes it when the one status line is made.
- Logging (`setup_logging`, the `ssh` and `jt.ssh` loggers) is not modelled.
- Jupyter port discovery (`get_relevant_ports`, `iter_json_data`) is not modelled. It depends on remote commands and JSON decoding.
- The `--auto` and `--interval` plumbing of `main` in `bin/jt.py` is not modelled. The argument list takes its port specifications and settings as inputs.
- Python's Unicode `\w` and `str.isspace` are modelled for ASCII only. Non-ASCII letters and spaces are outside the model.
- The GitHub HTTP session, pagination, the thread pool, the progress bar and the statistics counter of `gh-unsubscribe-rr.py` are not modelled. The notifications, with their pull requests and comments, are given as data. The actions are recorded as values.
- The message `UnprocessableComment.__str__` prints before the exit (it reads the module globals `comment` and `pr` that the main loop binds) is not modelled. The model only records whose comment ended the triage.
- The YAML loading and saving, and the `subprocess.check_call` running rsync, in `bin/sync.py` are not modelled. The configuration is a `Yaml` value.
- The `init` command of `bin/sync.py`: click passes the `--project` option as `project`, but `init` names its parameter `project_name` and has no `pass_obj`. The command cannot be invoked as written. The model takes the configuration and the project name as inputs and covers the exclude merge and the remote-path default.
- The file operations of `install.py` (`os.symlink`, `rename`, `remove`, `glob`, `realpath`, `commonpath`) are not modelled as calls. The disk is an object holding the set of existing paths and the links made. `Item.linked` is a free input: it stands for the test `abspath(dotfiles) in commonpath(realpath(target), abspath(source))` of `install.py`, which is a substring test on path strings (a target under `~/.dotfiles-old` passes it) and resolves `source` against the working directory.
- Tf.Apply and Tf.ApplyUcgs take every `bzl` command to succeed. In `discord/bin/tf.py` a failing command raises `CalledProcessError` (`check=True`), which `handle_subprocess_errors` turns into an abort, so the later commands are not run. Command outcomes are outside the model.
- Install.InstallOne does not model two failures of the file calls. In mode `o`/`O`, `os.remove` on a `.dir` target that is a real directory raises `IsADirectoryError`. A dangling link as target makes `os.path.exists` false, and then `os.symlink` raises `FileExistsError`. The disk model has no file kinds and no dangling links.
- Build.ExpandFile and Build.ExpandLines carry a `fuel` bound on the include depth, and the `TooDeep` error stands for Python's `RecursionError` on cyclic or very deep includes. The model makes no claim about the exact depth at which Python fails.
- Sync.StrsOf, Sync.Patterns: a mapping setting, which Python iterates for its keys in insertion order, gives `Unmodelled`, because `Dict` does not keep key order. A list or mapping inside the excludes, which Python formats with `repr`, also gives `Unmodelled`.
- Sync.StrsOf: `Yaml` has no numbers. An integer or float setting, which Python refuses to iterate, cannot be expressed.
- Sync.InitOf refuses `rsync.excludes` that is not a list with `NotAList`. Python tests each default with `in` on it and fails only at `append` when a default is missing, so a string or mapping that already contains every default passes unchanged. A boolean or null raises `TypeError` there.
- `getch` and the terminal settings in `install.py` are replaced by a keyboard object that holds the keys still to be read.
- `subprocess.run`, `os.path.isfile` and `click.echo` in `discord/bin/tf.py` are not modelled as calls. The existing files are a set of paths, and each command is returned as a list of strings.
- The file reading and writing in `installers/build.py` is not modelled. The files are a map from path to their lines, and the output is the sequence of strings written.
- The click context's `invoke` in `discord/bin/tf.py` is modelled as a direct call. `all-ucgs` runs the four `apply` calls in order and stops at the first missing project. In Python it also stops at the first command that fails, which the model does not capture (see the Tf.Apply line above).
- The directory listing, `resolve` and `unlink` in `installers/uninstall.py` are given as data: each entry carries its name, whether it is a symbolic link and its resolved path.
- The `configparser` behaviour of `bin/aws-vault-read.py` is not modelled: key lower-casing and the DEFAULT section. A profile is an ordered list of key-value pairs.
- The command-line parsing of every script (click, argparse) is not modelled. Its values are parameters.

## Findings

| source | as written | input that shows it | evidently intended | confidence | as-written member | corrected member |
|---|---|---|---|---|---|---|
| bin/get-ec2-ip.py:57-64 | `re.match` anchors only at the start, so the lazy `(.+?)` followed by the optional `(#.+)?` captures a single character. The current host is then one character long, and `host == target_host` fails for every longer target. | the config `Host web` / `HostName 10.0.0.1` with target `web`: the address is left as it was | the capture is the whole value, without a trailing comment and surrounding whitespace, so the block's `HostName` value is replaced by the new address | high (not executed) | Ec2.BlockAsWritten | Ec2.BlockIntended |
