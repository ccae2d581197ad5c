# Verification of saltnitor's hard cores

This project models the parts of saltnitor whose correctness cannot be seen from one function, and
proves what they keep. Every module stands for one component:

- `ProcessControl`: signalling a selected process while the kernel lets processes exit, be reaped and
  have their PIDs reused between any two reads. A process life is an *incarnation*, numbered by birth;
  the row was read before the pidfd was opened, and the start ticks are read after, so all three name
  the same incarnation. The state keeps the world every event of the run found, so that results say
  what was so at the time of a read.
- `RuntimeTree`, `ProcessList`: the descendant search behind the guard, and the process table with the
  operator's cursor that follow PIDs rather than list positions.
- `EnsureProtocol`, `RouterResidency`: concurrent ensures under one lock, the VRAM/RAM oracle, warm loads
  and chat forwards that travel to a router holding a bounded first-in first-out list.
- `EditDistance`, `TaskGraph`, `PathOverlap`, `LogRedaction`, `IniUpsert`, `PathExpansion`,
  `Diagnostics`: algorithms with a specification of their own: edit scripts, cycles and topological
  orders, brace expansion, secret masking, section rewriting, path expansion, error positions.
- `StreamAbort`, `TokenStream`, `JsonRedaction`: machines over streams and recorded JSON.
- `Text` and `Prelude` hold string splitting, trimming and common types.

`dafny verify dfyconfig.toml` checks everything.

Assumptions, all about the outside world: a PID and its start ticks never recur together; a thread's
leader keeps its PID as long as the thread does, and `kill(2)` on a thread signals its group;
`pidfd_open(2)` refuses a thread, and the listing of /proc has none; a client that hangs up has its handler dropped, except a stream's, which runs in a
task of its own; the router's model list may miss models but invents none; a capacity reading may be
less than the machine has, never more; JSON ignores its own whitespace at the end, refuses any other
there, and accepts neither the empty text nor `[DONE]`. Reads of /proc may fail at any moment. Texts are sequences of characters and
whitespace is ASCII whitespace.

Where code and comment differ, the code is modelled: `AbortOnError` calls an `idle` beyond the clock
"never", and the code then waits one year (`StreamAbort.IdleAbortsAreDue`).

## Model

| member | source | states |
|---|---|---|
| RuntimeTree.Walk | src/process.rs:413-452 | With /proc changing between any two PIDs it expands, the growing list terminates, never repeats a PID, starts with the main PID, holds every child an expansion saw, and nothing but children of earlier entries; a missing or zero main PID gives the empty list |
| RuntimeTree.AddChildren | src/process.rs:431-448 | One pass over /proc adds exactly the children of one PID that were not listed, keeps what was there in place, and never repeats a PID |
| RuntimeTree.ListingIsTheTree | src/process.rs:429-452 | All that stood below the main PID throughout the walk is listed; nothing is listed that no chain of readings links to it; while /proc stays as it is the list is exactly the main PID and its descendants |
| RuntimeTree.ExpandKeepsListing | src/process.rs:431-450 | Expanding one more entry keeps all this, whatever /proc says by then |
| ProcessControl.PidfdHitsTheSelectedProcess | src/process.rs:191-206 | In every run, with exits, reaping, PID reuse, owner and parent changes and other jobs between any two reads, a signal sent through a pidfd reaches the one process the row was read from: a whole process whose uid, when the check read it, was the row's and one of the operator's, and which is not PID 1, saltnitor, or a listed runtime PID |
| ProcessControl.FallbackHitsUnlessReused | src/process.rs:362-371 | A signal sent by PID goes to a thread group; it reaches the process of the row exactly when that is a whole process and no fork took its PID between the reading of its start ticks and the signal. A readable `Tgid:` makes sure of the first |
| ProcessControl.FallbackHitsTheRuntime | src/process.rs:312-371 | Both halves of that condition are needed: on two schedules, a thread of the runtime whose `Tgid:` cannot be read, and a PID reused for such a thread, the `kill(2)` fallback signals the runtime's main PID after all guards passed; on the second a pidfd signals nobody |
| ProcessControl.RuntimeTreeIsSpared | src/process.rs:312-333 | Through a pidfd, and by PID if `Tgid:` was read and no fork took the PID, no signal reaches PID 1, saltnitor, a listed PID, or any process that stood below the runtime's main PID, in the kernel's own table, while the list was made |
| ProcessControl.SignalsAreAskedFor | src/main.rs:637-663 | No key causes two signals. Every SIGTERM is asked for by its own key, every SIGKILL by a `y` right after a kill key that was no answer itself, and it goes to the target that row key selected at the time it was pressed; all told from the keys of the run |
| ProcessControl.JobsAreAskedFor | src/main.rs:637-663 | Those keys start a job each, and no other key starts one |
| ProcessControl.OnlyYesConfirms | src/main.rs:637-641 | With a kill armed, `y` starts it, any other key starts nothing, and either way nothing stays armed |
| ProcessControl.OutcomesAreTrue | src/process.rs:375-393 | `Exited` means the selected process has stopped running, or had the row's uid at the check and another at the last poll, unless /proc was unreadable; `StillRunning` means it ran at a poll after the signal |
| ProcessControl.PollsDecide | src/process.rs:382-391 | A poll ends the wait with `Exited` unless it could read the row's start ticks off the running process, and then its uid; the deadline ends it with `StillRunning` |
| ProcessControl.FairJobSends | src/process.rs:312-400 | Nothing else is in the way: a job on a running whole process of the operator that is not off limits can, left alone, send the signal asked for, and that process is hit |
| ProcessControl.SelectOpens | src/process.rs:191-206 | A selection holds a pidfd on the PID's holder, or none because the kernel has no pidfds, or an error, each in exactly its case |
| ProcessControl.CheckPasses | src/process.rs:312-360 | `check` passes iff the leader read is the PID itself (or unreadable), the pidfd opened, the identity is the row's, the PID is not off limits and the owner is the operator |
| ProcessControl.RefusalsTell | src/process.rs:312-360 | Nothing off limits, and no thread, is refused as changed; any other opened target is exactly if no identity or another one was read, and as protected exactly for its owner |
| ProcessControl.StatSeesSelected | src/process.rs:335-336 | Matching start ticks mean the row's process holds the PID then; an open pidfd names it, and a `Tgid:` read before was its own |
| ProcessControl.GroupIsTheProcess | src/process.rs:362-372 | A signal to a PID hits the leader of the group its holder is in; that is the row's process iff that holds the PID and is a whole process |
| ProcessControl.PidNamesUnlessForked | src/process.rs:362-371 | The holder of the PID at the signal is the row's process iff no fork took the PID since its start ticks were read |
| ProcessControl.PastIsTheRun | src/process.rs:312-399 | The recorded past is the run: its events in order, each with the world the events before it led to |
| ProcessControl.StepKeepsInv | src/process.rs:312-399 | Every step of the kernel, the keys and the jobs keeps the invariant behind these results |
| ProcessList.BuildTable | src/process.rs:57-78 | The two loops compute the table: first row per PID, GPU data merged in place, new GPU PIDs appended if they have an identity |
| ProcessList.DeduplicatedIsOnePerPid | src/process.rs:58-59 | One row per PID, no PID lost, and the row kept is the first |
| ProcessList.DeduplicatedKeepsOrder | src/process.rs:58-59 | The rows kept are the first of each PID, in the order they were in |
| ProcessList.TableIsOnePerPid | src/process.rs:57-78 | The table has one row per PID and merging GPU data neither moves nor drops a row |
| ProcessList.TableHasEveryone | src/process.rs:57-78 | A PID is in the table iff it is in the raw list, or nvidia-smi reported it and it has an identity |
| ProcessList.NewRowsAreGpuOnly | src/process.rs:64-75 | A row that is not from the raw list has the name of the first report about its PID, no memory, no command, and the identity of /proc |
| ProcessList.UnreportedIsAsBefore | src/process.rs:60-76 | A row nvidia-smi says nothing about is as it was |
| ProcessList.TableKeepsIdentity | src/process.rs:60-76 | Start ticks and uid of a row come from its own source, never from GPU data |
| ProcessList.LastReportWins | src/process.rs:60-63 | A row shows the last GPU report about its PID |
| ProcessList.SortIsStable | src/process.rs:503 | The RAM order is a descending rearrangement that keeps rows of equal size in order |
| ProcessList.FilterAppends | src/process.rs:484-503 | The filters go through the rows in order |
| ProcessList.PaneRowsAreOnePerPid | src/process.rs:484-505 | Both panes show a PID at most once, and exactly the rows of the table they are about |
| ProcessList.PollKeepsOrClears | src/app.rs:412-424 | A poll keeps the selected PID wherever its row went, or clears it because it left; it never selects another |
| ProcessList.SelectedIsUnderCursor | src/app.rs:343-349 | The row the keys act on is the row under the cursor |
| ProcessList.StepAndBack | src/app.rs:324-339 | A move and the opposite move undo each other exactly when a row was selected (or there are none) |
| ProcessList.MovesCycle | src/app.rs:324-339 | Moving down visits the rows in order, starts over after the last, and is back after one move per row |
| ProcessList.CursorFollowsPid | src/app.rs:292-340 | Over any run of polls and moves the index is set iff a PID is selected and is the position of its only row |
| ProcessList.OnlyMovesSelect | src/app.rs:292-308 | Between two of the operator's moves the selection is the PID picked by the first, or nothing |
| ProcessList.App.SetProcesses | src/app.rs:292-308 | Both panes get their rows and have their cursors found again |
| ProcessList.App.MoveProcCursor | src/app.rs:311-340 | One pane's cursor moves, wrapping; the other pane is untouched |
| RouterResidency.InitialKeepsOrder | tools/fake-llama-server/src/engine.rs:38-53 | The list starts with all models marked loaded and no other, in the scenario's order |
| RouterResidency.Shared.constructor | tools/fake-llama-server/src/engine.rs:38-53 | The new server's list is picked from the scenario so: every marked model, from rising positions |
| RouterResidency.InitialFits | tools/fake-llama-server/src/engine.rs:38-53 | With different ids it is duplicate-free, and meets the bound iff no more models are marked |
| RouterResidency.Shared.LoadModel | tools/fake-llama-server/src/engine.rs:54-65 | A resident model changes nothing; another is appended and the front is removed until the bound is met |
| RouterResidency.Shared.Unload | tools/fake-llama-server/src/engine.rs:67-69 | Removes the model wherever it is and keeps the rest in order |
| RouterResidency.LoadEvictsTheFirst | tools/fake-llama-server/src/engine.rs:54-65 | Within the bound, a load evicts nothing or exactly the first entry, keeps the list duplicate-free and bounded, and leaves the model resident unless the bound is zero |
| RouterResidency.ResidencyIsFifo | tools/fake-llama-server/src/engine.rs:54-69 | After any loads and unloads the list is duplicate-free, bounded, and ordered by when each current residency began |
| RouterResidency.EvictionTakesTheOldest | tools/fake-llama-server/src/engine.rs:60-64 | A model that a step takes away was unloaded by name or had been resident the longest, and goes alone |
| RouterResidency.BoundAfterLoad | tools/fake-llama-server/src/engine.rs:54-65 | A list that started over the bound meets it after a load iff the model was new |
| EnsureProtocol.EverResidentFits | src/control_api.rs:205-278 | In every run of concurrent ensures and forwarded chats, every model that ever becomes resident fits next to the reserves or was asked for with `force`; forwards outside the lock, late loads and clients that hang up included |
| EnsureProtocol.ResidentSetFits | src/control_api.rs:182-203 | With a router bound of one and no `force`, all resident models together fit |
| EnsureProtocol.ResidentSetsFitIff | src/control_api.rs:182-203 | For any router bound: what is resident together always fits, without `force`, iff every duplicate-free list of that many profiles that fit alone fits together |
| EnsureProtocol.AnyListCanBeResident | src/control_api.rs:205-278 | From an empty router, ensures without `force` make any such list resident, in its order |
| EnsureProtocol.AnyPairCanBeResident | src/control_api.rs:182-203 | With a bound of two or more any two profiles that fit alone can be resident together, so the set fits only if their sum does |
| EnsureProtocol.EnsuresAreSerial | src/control_api.rs:217-262 | At most one ensure is between its resident check and its load reply, and it holds the lock, whoever hangs up |
| EnsureProtocol.OneWarmLoad | src/control_api.rs:217-262 | However many clients ensure one profile at once, with a complete model list and no outside unload there is at most one warm load more than there are loads that failed or lost their client, and none if it was resident |
| EnsureProtocol.StreamsAreWellFormed | src/control_api.rs:537-551 | Every finished stream is Error, or Received then Done, Oom, or an optional OracleOk, Loading and Done or Error; the one terminal frame is last; Loading lacks OracleOk, and Oom is absent, only under `force` |
| EnsureProtocol.OutcomesAreTrue | src/control_api.rs:205-278 | From the events of the run: an ensure came back `Loaded` iff its warm load had a good reply, `Failed` iff a bad one, `AlreadyResident` iff its check found the profile, `Bad` iff the profile is unknown, `OomRejected` iff it did not force and a reading left less than need and reserve; OracleOk is sent iff a reading left enough; the last frame is the outcome's own |
| EnsureProtocol.ForwardsFollowSuccess | src/control_api.rs:597-649 | A chat goes to the router only after its own ensure found the model resident or had a good reply |
| EnsureProtocol.OnlyTheRouterMoves | tools/fake-llama-server/src/engine.rs:54-69 | Only a served request or an outside unload moves the router's list, and just as it says |
| EnsureProtocol.StepKeepsClients | src/control_api.rs:205-278 | Every step keeps each client's frames, and what it may load, in line with where it stands |
| EnsureProtocol.StepKeepsRouter | src/control_api.rs:597-649 | Every step keeps every request on the way to the router, and so the router's list, admissible |
| EnsureProtocol.FootprintCoversTheWeights | src/control_api.rs:756-772 | Unless both estimates are configured, the VRAM and RAM needs together cover the weights plus 1.4 GB; without offload all of it is VRAM |
| EnsureProtocol.FootprintSplits | src/control_api.rs:756-772 | Two configured estimates are taken as they are; with offload 85% of the weights are RAM, and 15% with the configured VRAM, of at least 2 GB, are VRAM; without, all of them and 1.5 GB |
| EnsureProtocol.WeightsInBytes | src/control_api.rs:760-762 | The weights are parameters times bits in bytes, 8 billion parameters if the name does not say |
| EnsureProtocol.RoundingErr | src/control_api.rs:752-754 | The nearest tenth; a tie goes away from zero |
| EditDistance.EditDistance | src/config_v1.rs:429-441 | The two-row loop computes the distance |
| EditDistance.DistanceIsLeastCost | src/config_v1.rs:429-441 | The distance is the cost of some edit script from the first text to the second, and no script costs less |
| EditDistance.BestScript | src/config_v1.rs:429-441 | A script of exactly that cost, built from the recurrence |
| EditDistance.NoCheaperScript | src/config_v1.rs:429-441 | Every script between the texts costs at least the distance |
| EditDistance.ZeroIffEqual | src/config_v1.rs:429-441 | Zero iff the texts are equal |
| EditDistance.Symmetric | src/config_v1.rs:429-441 | Symmetric |
| EditDistance.Triangle | src/config_v1.rs:429-441 | The triangle inequality |
| EditDistance.Compose | src/config_v1.rs:429-441 | Two scripts in a row become one that costs no more than both |
| EditDistance.Bounds | src/config_v1.rs:429-441 | Between the length difference and the longer length |
| EditDistance.ClosestIsFirstNearest | src/config_v1.rs:420-427 | The suggestion is the first key of least distance iff that is at most three |
| EditDistance.NoSuggestionIffAllFar | src/config_v1.rs:420-427 | No suggestion iff every known key is more than three edits away |
| TaskGraph.CycleSearch.FindCycles | docs/specs/vnext/tools/spec_lint.py:264-281 | Terminates; every report is a dependency path through different tasks that comes back to one of them; every cycle has an edge that some report ends with; no edge is reported twice unless a task lists it twice; so something is reported iff there is a cycle, that is iff some task is among its own ancestors; the finishing order has every task and is topological but for the reported edges |
| TaskGraph.CycleSearch.Visit | docs/specs/vnext/tools/spec_lint.py:267-276 | The recursion and its loop compute the specified search |
| TaskGraph.VisitFinishes | docs/specs/vnext/tools/spec_lint.py:267-276 | A visit finishes its task, takes no colour back, and drops no report |
| TaskGraph.ClosedIsCaught | docs/specs/vnext/tools/spec_lint.py:264-281 | Without the edges that reports end with there is no cycle |
| TaskGraph.ReportIsCycle | docs/specs/vnext/tools/spec_lint.py:271-272 | A reported list holds a cycle |
| TaskGraph.TopologicalHasNoCycle | docs/specs/vnext/tools/spec_lint.py:264-281 | Where every task finished after its dependencies there is no cycle |
| TaskGraph.AncestorSearch.Ancestors | docs/specs/vnext/tools/spec_lint.py:255-261 | Terminates on any graph, with exactly the known tasks reachable by one or more dependency edges |
| TaskGraph.AncestorSearch.Visit | docs/specs/vnext/tools/spec_lint.py:255-261 | A visit sees all dependencies of its task and leaves every seen task closed but those still open above it |
| PathOverlap.ExpandPrinted | docs/specs/vnext/tools/spec_lint.py:285-289 | A path without nested braces expands to exactly the choices of one alternative per group, each up to its first space |
| PathOverlap.ExpandedHasNoGroup | docs/specs/vnext/tools/spec_lint.py:285-289 | On any text the expansion terminates, is not empty, and leaves no group in any result |
| PathOverlap.NestedAgreesIff | docs/specs/vnext/tools/spec_lint.py:286-289 | A group with one group inside is expanded as its author means iff no alternative comes before the inner group, the inner group has one alternative, and not both some text before it in its alternative and an alternative after it |
| PathOverlap.StrayBrace | docs/specs/vnext/tools/spec_lint.py:286-289 | Any earlier outer alternative, and any further inner one, comes out with the rest of the path and its brace behind it |
| PathOverlap.PathsOverlap | docs/specs/vnext/tools/spec_lint.py:284-298 | A path is reported iff some expanded path of one list overlaps one of the other, and the reported path is such a one |
| PathOverlap.OverlapIsMutual | docs/specs/vnext/tools/spec_lint.py:290-298 | Whether two lists overlap does not depend on which comes first |
| PathOverlap.DirectoryMeetsContents | docs/specs/vnext/tools/spec_lint.py:296-298 | A declared directory overlaps every path below it, however globs match |
| PathOverlap.OverlapMeans | docs/specs/vnext/tools/spec_lint.py:294-298 | Two paths overlap iff they are the same, one matches the other as a glob, or one is a directory, written `dir/` or `dir/**`, and the other lies in it |
| LogRedaction.Redactor.constructor | src/auth.rs:24-30 | Empty secrets are dropped, no other |
| LogRedaction.NonEmptyKeepsOrder | src/auth.rs:24-30 | The others stay in the order given |
| LogRedaction.Redactor.Redact | src/auth.rs:31-35 | The loop computes the chain of replacements, first secret first |
| LogRedaction.ChainInOrder | src/auth.rs:31-35 | Redacting with two lists of secrets in a row is redacting with both, the first list first |
| LogRedaction.OnlySecretsGo | src/auth.rs:34 | A replacement keeps everything else: the line is cut at the leftmost secret, then at the next, and so on, and the same parts come out with masks between them |
| LogRedaction.CutIsUnique | src/auth.rs:34 | A line can be cut so in one way only |
| LogRedaction.PartsAreClean | src/auth.rs:34 | No part holds the secret |
| LogRedaction.TheRestOfTheLineStays | src/auth.rs:31-35 | Around a secret that stands alone the whole chain keeps every character of the line |
| LogRedaction.CleanIsFixed | src/auth.rs:31-35 | A line that holds no secret comes out unchanged |
| LogRedaction.NoSecretSurvives | src/auth.rs:31-35 | For secrets that neither hold, nor are held by, nor partly overlap the mask, in any order and with any overlaps of their own, no secret is left anywhere in the line |
| LogRedaction.UnbracketedIsMaskable | src/auth.rs:34 | Secrets without angle brackets that are no piece of "redacted" are such secrets |
| LogRedaction.MaskingCreatesNothing | src/auth.rs:34 | Replacing any segments by the mask never makes such a secret appear |
| LogRedaction.ReplaceRemoves | src/auth.rs:34 | A replaced secret is gone, also across the seams of its replacements |
| LogRedaction.NoSecretSurvivesThePatterns | src/auth.rs:31-43 | The two credential patterns, which only mask further segments, bring no secret back |
| LogRedaction.ChainIsIdempotent | src/auth.rs:31-35 | Redacting a redacted line changes nothing |
| LogRedaction.CleanIffNoSecretInMask | src/auth.rs:31-35 | For secrets that neither hold nor partly overlap the mask: every line comes out clean iff none is a piece of the mask |
| LogRedaction.OverlapAfterSurvives | src/auth.rs:31-35 | Every secret that begins with an end of the mask is put together again by its own replacement, in the line given |
| LogRedaction.OverlapBeforeSurvives | src/auth.rs:31-35 | So is one that ends with a beginning of the mask, unless it is found earlier in that line |
| IniUpsert.UpsertIniSection | src/main.rs:129-164 | The scan, the rewrite and the append compute the specified text |
| IniUpsert.RewriteBlock | src/main.rs:142-158 | The line loop computes the new lines and the settings left over |
| IniUpsert.UpsertRewritesTheSection | src/main.rs:125-164 | None iff no line is the header; otherwise cutting the new text at its first such header gives the old head and tail, line for line, and the rewritten section, whatever the keys |
| IniUpsert.UpsertSetsTheKeys | src/main.rs:142-160 | In the new text the first non-comment line of every given key holds its first given value, read as what follows the `=`, and every other key has the value it had |
| IniUpsert.ValuesAreSet | src/main.rs:142-160 | The same for one section |
| IniUpsert.FormatHolds | src/main.rs:154-160 | A written line holds the given value |
| IniUpsert.HeaderForm | src/main.rs:135-138 | A line is a header iff it is a name in square brackets with whitespace around it |
| IniUpsert.CommentForm | src/main.rs:146-147 | A line is a comment iff its first character other than whitespace is `;` or `#` |
| IniUpsert.KeyForm | src/main.rs:148 | The key of a line is what stands before its first `=`, without whitespace around it |
| IniUpsert.KeyOfBareLine | src/main.rs:148 | The key of a line without `=` is the whole line, trimmed |
| IniUpsert.AppendedInOrder | src/main.rs:159-161 | With different keys, what is appended are the settings whose key no line sets, in order |
| IniUpsert.GivenKeyIsFoundIff | src/main.rs:144-154 | A given key can be found afterwards iff it is plain: trimmed, not empty, without `=`, not the beginning of a comment |
| IniUpsert.LineByLine | src/main.rs:144-158 | With different keys, a line of the section is replaced iff it is the first non-comment line of a given key; every other line stays where it is |
| IniUpsert.UpsertTwiceIsOnce | src/main.rs:129-164 | Doing it twice gives the same text as once, to the character, iff every key is plain and no setting is written as a `[..]` line |
| IniUpsert.BlockTwiceIsOnce | src/main.rs:142-160 | For every section and any settings, repeated keys included: rewriting twice is rewriting once iff every key is plain |
| IniUpsert.OnlyPlainKeysAreRead | src/main.rs:144-146 | No line of any text sets a key that is not plain |
| IniUpsert.LinesOfJoined | src/main.rs:131-163 | Joining lines and splitting them again gives the lines back |
| IniUpsert.LinesOfWindowsText | src/main.rs:131 | A carriage return before a newline is no part of the line |
| IniUpsert.LastLineIsALine | src/main.rs:131 | A last line needs no newline, and an empty text has no line |
| IniUpsert.ReturnsEndLinesIsSettled | src/main.rs:131 | A text with carriage returns only right before newlines, or none, is read as lines that are written unchanged |
| StreamAbort.AbortOnError.PollNext | src/proxy_stream.rs:239-262 | One poll: its answer, its new deadline, and what it logs |
| StreamAbort.ClientGetsAPrefix | src/proxy_stream.rs:198-262 | For any upstream answers and poll times the client gets a prefix of upstream's chunks in order, all of them unless a poll failed; then there is one error, one log line naming the cause, and only the end after it |
| StreamAbort.CleanEndIsUpstreams | src/proxy_stream.rs:252 | An end with no error before it is upstream's own, with every chunk delivered |
| StreamAbort.IdleAbortsAreDue | src/proxy_stream.rs:222-229 | A pending poll is before the deadline; an idle abort comes once `idle` has passed since the last chunk or creation, except exactly when the clock cannot hold that deadline, where it comes before |
| StreamAbort.FineState | src/proxy_stream.rs:241-248 | While nothing failed the state is the deadline armed by the last chunk |
| TokenStream.Strike | src/interrogate.rs:204-240 | Whatever texts the chunks decode to, the token events are those of the newline-terminated lines of their concatenation, in order, however it was cut |
| TokenStream.DrainLines | src/interrogate.rs:227-240 | Handles every complete line of the buffer and leaves the rest |
| TokenStream.CutAtTail | src/interrogate.rs:224-228 | New text only continues the unfinished line |
| TokenStream.LinesMakeTheText | src/interrogate.rs:227-228 | The complete lines, each with its one newline, and the tail are the text |
| TokenStream.TokenForm | src/interrogate.rs:229-238 | The token of a line is the content of what follows its prefix, whatever whitespace is around it, with its newlines shown as return signs |
| TokenStream.TokenNeedsPrefix | src/interrogate.rs:229-231 | Only such lines have a token |
| TokenStream.ShownReplaces | src/interrogate.rs:236 | What is shown is the content itself but for its newlines |
| TokenStream.CountContentChunks | src/interrogate.rs:39-66 | The counting loop over the transcript's lines |
| TokenStream.EventsAndChunks | src/interrogate.rs:39-66 | On any transcript: events, plus what an unfinished last line has, are the counted content chunks plus the tokens on lines that only the stream reads |
| TokenStream.EventsMatchTranscript | src/interrogate.rs:39-66 | On a newline-terminated transcript there are as many token events as counted content chunks iff no line that starts with whitespace, or ends in whitespace JSON does not have, carries a token |
| TokenStream.ReadingsDiffer | src/interrogate.rs:229-231 | Line by line: a token is shown iff it is counted or the line is one that only the stream reads |
| TokenStream.IndentedLineDiffers | src/interrogate.rs:229-231 | On an indented line the stream shows a token the transcript does not count |
| TokenStream.FormFeedDiffers | src/interrogate.rs:229-231 | So it does on a line that ends in a vertical tab or a form feed |
| TokenStream.OpenLineDiffers | src/interrogate.rs:227-228 | On an unfinished last line the transcript counts a token the stream never showed |
| JsonRedaction.RedactValue | tools/fake-llama-server/src/record.rs:249-285 | The walk with its `mask_next` flag computes the redacted value |
| JsonRedaction.RedactedIsClean | tools/fake-llama-server/src/record.rs:249-285 | At any depth: strings under a user-text key are the mask, array strings right after a surviving secret flag are the mask, and `--flag=` values are the mask |
| JsonRedaction.RedactMasksJustThat | tools/fake-llama-server/src/record.rs:249-285 | Nothing else is masked: the result is the one clean value that differs from the original only in masks that have their reason |
| JsonRedaction.FlagValueIsMasked | tools/fake-llama-server/src/record.rs:270-276 | `--flag=value` comes out as the flag with the mask, and no other string is touched |
| JsonRedaction.ItemByItem | tools/fake-llama-server/src/record.rs:260-282 | An array string is masked whole exactly when the string put out before it is a secret flag; otherwise only its own `--flag=` value is |
| JsonRedaction.RedactionIsIdempotent | tools/fake-llama-server/src/record.rs:249-285 | A value is left alone iff it is clean; twice is once |
| JsonRedaction.FlagIsUnique | tools/fake-llama-server/src/record.rs:22-27 | A string gives a value to at most one secret flag, so the order of the flags does not matter |
| JsonRedaction.RedactionHidesNoDrift | tools/fake-llama-server/src/record.rs:166-224 | Redaction keeps every key path, so the drift verdict is the same before and after it, on either side |
| JsonRedaction.KeyPathsAreSpots | tools/fake-llama-server/src/record.rs:189-224 | The key paths are the paths of all values in the document, at any depth, an array with its brackets, the document itself left out if it is an object |
| JsonRedaction.DriftMeans | tools/fake-llama-server/src/record.rs:179-185 | Added is what only the current document has, removed what only the baseline has; there is no drift iff both have the same paths |
| PathExpansion.SubstituteAll | src/config_v1.rs:262-284 | The scan terminates and computes the substitution, with its first fault in text order |
| PathExpansion.Expand | src/config_v1.rs:255-291 | Home, substitution, and the join with the base directory |
| PathExpansion.ExpandPrinted | src/config_v1.rs:255-291 | Expanding a path printed from literals, `${name}` and `$name` without a tilde gives its meaning, or its first undefined name, under the base unless that is absolute; values are never rescanned |
| PathExpansion.ExpandBehindTilde | src/config_v1.rs:255-291 | Behind `~` or `~/` it is the meaning of HOME's own text and then of the rest, under the base unless absolute |
| PathExpansion.SubstitutePrinted | src/config_v1.rs:262-284 | The scan of printed tokens gives their concatenated values |
| PathExpansion.FormOf | src/config_v1.rs:262-284 | Every text that expands is spelled by tokens of these three forms |
| PathExpansion.FormsMeanTheSame | src/config_v1.rs:262-284 | However a text is spelled by tokens, it means the same in every environment |
| PathExpansion.FailsIffFaulty | src/config_v1.rs:266-281 | Succeeds iff the text is literals without `$`, `${name}` with a name that is not empty, and `$name` with all the name characters that follow, and every name is defined |
| PathExpansion.FirstFault | src/config_v1.rs:262-284 | After sound tokens the first reference without end, name or value is the error |
| PathExpansion.FaultForms | src/config_v1.rs:266-279 | Unterminated iff an opening brace is never closed, nameless iff `{}` or no name character follows |
| PathExpansion.TildeIsRescanned | src/config_v1.rs:256-260 | HOME's text behind `~` is scanned for references, HOME's value by name is not: before the same sound rest they agree iff HOME's text means itself, as it does without `$` |
| PathExpansion.NoHomeNoTilde | src/config_v1.rs:257-258 | A tilde without HOME is an error, whatever follows |
| PathExpansion.ExpandedIsAbsolute | src/config_v1.rs:285-291 | Under an absolute base every expanded path is absolute |
| PathExpansion.LocatedUnderBase | src/config_v1.rs:285-291 | An absolute result stays; a relative one goes under the base, with one slash between |
| PathExpansion.ExpandedUnderBase | src/config_v1.rs:255-291 | A relative result ends the path, whose beginning is the base |
| Diagnostics.PositionsIncrease | src/config_v1.rs:321-326 | Later offsets have later positions, so a position names one offset |
| Diagnostics.WalkInvertsLineCol | src/config_v1.rs:321-326 | Walking to the reported line and column finds the offset again; past the end it finds the end |

## Left out

- Terminal drawing, layout, HTTP and SSE transport, authentication tables, header filters, shell scripts: no hard property of their own.
- `systemctl`, `nvidia-smi`, `journalctl` and the text format of /proc: their answers are inputs of the models.
- `Target::snapshot` and `Target::without_pidfd`: covered as a row just read followed by a selection, and as a kernel without pidfds.
- RuntimeTree.Walk: one pass over /proc, for one listed PID, is one reading; the code opens its files one after the other.
- ProcessControl.PidfdHitsTheSelectedProcess: a thread that takes its leader's place by `exec` is not modelled.
- ProcessList.SortIsStable: the standard library's sort is modelled by insertion.
- EnsureProtocol.EverResidentFits: agents that go to the router directly are not clients of this API and are not in the runs.
- That a model is still resident when its chat is forwarded: the lock is released before, so the code does not promise it.
- EnsureProtocol.FootprintCoversTheWeights: reals instead of floats; the parameter count and bits per weight read off the file name are inputs.
- LogRedaction.NoSecretSurvivesThePatterns: the regular expressions are any functions that replace segments by the mask.
- LogRedaction.NoSecretSurvives: secrets that partly overlap the mask are excluded, some of which survive (`OverlapAfterSurvives`, `OverlapBeforeSurvives`) and some, like `<<`, do not.
- IniUpsert.UpsertTwiceIsOnce: contents whose lines, as read, do not end in a carriage return (`ReturnsEndLinesIsSettled` covers both line endings), and settings written on one line; `UpsertRewritesTheSection` and `UpsertSetsTheKeys` likewise.
- IniUpsert.UpsertSetsTheKeys: settings written as a `[..]` line, and keys that are not plain, are excluded; `UpsertTwiceIsOnce` and `GivenKeyIsFoundIff` say what they do.
- PathOverlap.NestedAgreesIff: one group inside one group, of words without spaces.
- StreamAbort.AbortOnError.PollNext: the timer's first deadline beyond the clock is the timer library's and is a parameter.
- TokenStream.Strike: JSON parsing is a parameter; a multi-byte character split between chunks is not modelled, nor the time to first token.
- TokenStream.CountContentChunks: only the content count of the metrics; rates and their labels are left out.
- JsonRedaction.RedactValue: returns the new value instead of rewriting it in place; object fields are a list.
- `sanitize_home`: nested home paths defeat both idempotence and "no home path survives".
- PathOverlap.PathsOverlap: `fnmatch` is a parameter.
- Tuner keys, hot-swap list and log ring: they would only add easy members.
