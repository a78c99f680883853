# Reply sets, references and run state of fisk-ai, in Dafny

A model of the parts of fisk-ai that carry the hardest promises, with proofs of those
promises for every input, every schedule or every run. One module stands for one component.

**Reply sets** (`internal/a2a`). A request is answered by a numbered set of messages.
`ReplyStream.dfy` is the numbering on the way out, `Gaps.dfy` and `TaskStream.dfy` the counting
and the holds on the way in, and `IdleRead.dfy` the read that gives up on silence.
`Question.dfy` is one question: its waiting acks, its answer, and the answer held when it
cannot be delivered. `TaskTurn.dfy` is `RunTask`, one reader and a goroutine a question, as a
step machine over every interleaving, and `TurnReport.dfy` what that tells its hooks and its
caller of the messages it got. `ToolServer.dfy` is the serving side with its slots, and
`ToolSet.dfy` the caller that reads it, with the two proved to agree across a lossy channel and
a clock. `ChatAnswer.dfy` is the retry that delivers a held answer, read against `RunTask`.

**Text** (`config`, `text.go`, `session_inspect_command.go`). `References.dfy` scans and expands
`${...}` references, `Redaction.dfy` shows a URL without its secrets, `Citations.dfy` reads a
citation rule's replacement, `Wrap.dfy` wraps text, `Fence.dfy` prints a Markdown fence and reads
it back by section 4.5 of the CommonMark Spec 0.31, `Lists.dfy` normalises lists, and
`Identity.dfy` follows the derived identity through any order of configuration steps.

**Run state** (`internal/agent`). `Approvals.dfy` is the confirm gate and the journaled approvals
behind it. `Claim.dfy` is workers resuming one journaled run. `Usage.dfy` is what each process
of a session reports as its own use. `Assembly.dfy` builds an agent's tool set as
`AssemblyPlan.dfy` tells it from the inputs, over the list of tools (`ToolLists.dfy`) and its three
kinds of source (`BuiltinTools.dfy`, `ImportedTools.dfy` with `RemoteTools.dfy` and `McpClient.dfy`,
and `CustomTools.dfy` with `NameOrder.dfy`), on the tools and filters of `Toolkit.dfy`. What the set
is, told from the configuration and the answers without any of those functions, is in
`AssemblyReport.dfy` and `ImportReport.dfy`, and of the names given to imports in
`RemoteReport.dfy` and `McpReport.dfy`.

Code that changes fields or loops is a class or a method with a loop, proved against a function
that the lemmas are about. Goroutines and processes are step functions on values, with the
environment's choices (what the store, the network, the clock or a person does) as the step's
arguments; a theorem over "every schedule" quantifies over all of them.

Findings, where the code does not do what its comments say, or only under a condition:

- A question whose answer is refused by its ack is reported as answered and its decision is
  kept nowhere: `answerQuestion` does not look at `Accepted` (`DecisionSurvivesUnlessAckRefuses`).
- A set that ends at the end of its input comes back with no result and no error
  (`EndingIsClassified`), and a chat session reads that as the answer delivered
  (`EndOfInputReadsAsDelivered`).
- A hold released after the idle timer fires and before the first look at it is owed no new
  window (`ReleaseBeforeFirstLookIsNotOwed`).
- The gap count is off exactly at sequence 2^64-1 (`WrapsOnlyAtTheLastNumber`).
- Normalising the global flags twice gives the same list exactly when no entry has white space
  behind its dashes (`FlagsTwice`, `DashesThenSpace`).
- An identity assigned by hand that equals the derived one is taken for derived and lost when
  the application path changes (`CoincidingNameIsLost`).
- A one-shot approval is let through again by the next process exactly when no terminal record
  stands behind its approval (`SpentAgainUnlessTerminal`, `CrashRestoresOneShot`).
- A grant left out at a resume whose tools moved is not gone: a later resume may restore it, and
  granting it again journals it twice; when, exactly, is `ResumeRestoresTheFlushed` and
  `JournalHoldsAGrantTwice` (`LeftOutGrants`).
- One keepalive whose send fails ends them all, so a call that runs an idle window longer is
  given up while it is running (`RunningCallIsNeverGivenUp`).
- An append that fails does not end the worker: its number stays behind as a gap, and it is the
  gap that keeps all it emits afterwards out of the journal (`EveryEmitLandsFresh`).
- A worker may resume on records older than the ones in front of its claim, when something was
  appended between its read and its opening (`StaleFold`).
- The return of an already completed run reports the whole session as one process's use
  (`ReturnCountsTheSessionAgain`), and the call answered from outside ahead of a resume is in the
  session's count but in no process's (`SuppliedCallIsNobodys`).

## Model

| member | source | states |
|---|---|---|
| `ReplyStreams.ReplyStream.Send` | internal/a2a/replystream.go:131-144 | a message goes out exactly when it can be built, fits and the transport takes it; otherwise neither the wire nor the numbering changes |
| `ReplyStreams.ReplyStream.Ack` | internal/a2a/replystream.go:50-70 | an ack is taken only as the first message of its set |
| `ReplyStreams.ReplyStream.Encode` | internal/a2a/replystream.go:151-165 | a message carries the next number and its final flag; one over the size cap is refused |
| `ReplyStreams.NumberingIsGapFree` | internal/a2a/replystream.go:50-144 | under any calls and any failures the messages taken are numbered 1 to n, an ack is number 1, and final marks exactly the terminal messages |
| `ReplyStreams.FailedSendLeavesNoTrace` | internal/a2a/replystream.go:131-144 | a refused call may be deleted from the run: nothing before or after it is different |
| `ReplyStreams.EverythingTakenGoesOut` | internal/a2a/replystream.go:131-144 | what is sent is never taken back, and a call adds its message exactly when it reports no error |
| `Gaps.GapsPlusMaxima` | internal/a2a/taskstream.go:244-254 | under any reorder and duplication, gaps plus the number of new maxima is the highest number seen |
| `Gaps.GapsCountMissingAndLate` | internal/a2a/taskstream.go:244-254 | gaps is the numbers still missing plus the ones that came late, so it never undercounts |
| `Gaps.GapsAtTerminal` | internal/a2a/taskstream.go:193-254 | over an in-order channel losing any messages but the last, gaps at the terminal message is sent minus delivered |
| `Gaps.WrapsOnlyAtTheLastNumber` | internal/a2a/taskstream.go:244-254 | 64-bit counting agrees with counting over the integers except past sequence 2^64-1 |
| `TaskStreams.TaskStream.Suspend` | internal/a2a/taskstream.go:67-92 | a hold carries the current generation, and opens one when there is none |
| `TaskStreams.TaskStream.Release` | internal/a2a/taskstream.go:67-92 | a hold counts once however often it is released; the last one closes its generation and no other |
| `TaskStreams.TaskStream.Suspended` | internal/a2a/taskstream.go:94-100 | a channel is handed out exactly while a hold is out, and it is open |
| `TaskStreams.TaskStream.Next` | internal/a2a/taskstream.go:193-232 | a message is handed on only if it parses, checks and belongs to the request; it is counted, and a terminal one ends the set |
| `TaskStreams.TaskStream.CountGap` | internal/a2a/taskstream.go:244-254 | counting agrees with the step the gap theorems are about |
| `IdleReads.GivesUpOnlyOnSilence` | internal/a2a/taskstream.go:110-187 | a read gives up only when no hold was out as it looked, and a whole idle window after it began or was last owed one |
| `IdleReads.OwedWindow` | internal/a2a/taskstream.go:110-187 | once a read has seen a hold it gives up no sooner than a full window after the last release |
| `IdleReads.ReleaseBeforeFirstLookIsNotOwed` | internal/a2a/taskstream.go:125-150 | a release between the timer and the first look is owed no window |
| `IdleReads.BoundAppliesAgain` | internal/a2a/taskstream.go:110-187 | when the last hold is gone the bound applies again and the read does give up |
| `Questions.NewAnswer` | internal/a2a/wire/v1/messages.go:119-140 | a decision becomes a standalone answer that decides the same, field for field, an index resolved to the option's value; none exactly when the index is outside the options |
| `Questions.ThreeIntervalsFitTheWindow` | internal/a2a/wire/v1/messages.go:860-866 | three waiting acks fit in the asker's window, as tightly as nanoseconds allow, and none without a window |
| `Questions.WaitForAnswer` | internal/a2a/taskclient.go:388-440 | the wait ends as the event list says, with the acks it says |
| `Questions.WaitEndsWithItsEnding` | internal/a2a/taskclient.go:388-440 | with an ack interval the wait ends with the first event that is no tick, be it the handler's result or the context's end; without one only the handler ends it |
| `Questions.AcksStopAtRefusal` | internal/a2a/taskclient.go:388-440 | the acks sent are the ticks before the ending, none skipped, none after a refused one and none after the answer |
| `Questions.AnswerQuestion` | internal/a2a/taskclient.go:347-381 | what goes out is waiting acks, then at most one answer |
| `Questions.AnsweredOrHeld` | internal/a2a/taskclient.go:347-381 | never both answered and held; it is answered exactly when a decision's answer was sent, held exactly when that failed and the decision is not the lack of an operator and names an option, and what is held decides what the reply did |
| `Questions.DecisionSurvivesUnlessAckRefuses` | internal/a2a/taskclient.go:58-61 | an undelivered decision is held exactly when the ack did not refuse it; a refusing ack counts as answered |
| `TaskTurns.TurnEndsOnceAndLast` | internal/a2a/taskclient.go:116-279 | in every interleaving the end of a turn is reported once, last, and exactly when an ack arrived |
| `TaskTurns.ClosedIsFinal` | internal/a2a/taskclient.go:144-152 | when the task returns nothing of it is left to run |
| `TaskTurns.EachQuestionClosesOnce` | internal/a2a/taskclient.go:228-266 | every question asked is closed once, after it was asked, with what became of it |
| `TaskTurns.UnsentIsWhatWasHeld` | internal/a2a/taskclient.go:144-152 | at return the unsent answers are exactly the held ones, as often, and no hold on the idle bound is left |
| `TaskTurns.EndingIsClassified` | internal/a2a/taskclient.go:180-279 | result and error are never both set and are what the message received said; both are absent exactly when no result or error message was received; only the end of input returns no error then |
| `TaskTurns.ReaderKeepsOrder` | internal/a2a/taskclient.go:200-279 | blocks and hooks follow the order the messages arrived in, whatever the questions do meanwhile |
| `TurnReports.AcksAreReported` | internal/a2a/taskclient.go:287-305 | in every run each refusing ack is reported with its reason and each accepting one as accepted, in the order received; the conversation resumes right before exactly when the request carried a token, and starts right before exactly when only the ack did |
| `TurnReports.PromptIsSubmittedFirst` | internal/a2a/taskclient.go:116-143 | a prompt is reported first, as it was asked; a hook that fails, a denial and a set that does not open each end the task with its own error and nothing received, and what is sent is the hook's text where it gave one |
| `TurnReports.HeldIsWhatWasDecided` | internal/a2a/taskclient.go:228-266 | in every run an answer left unsent decides what the person's live reply to its question decided |
| `TurnReports.TurnEndSaysHowItEnded` | internal/a2a/taskclient.go:309-328 | the end of a turn names the last ack's conversation, the read's error, whether a result was the last message, and the code of the error message that was |
| `TurnReports.TheLastReadDecides` | internal/a2a/taskclient.go:189-279 | the read that ends the set fixes result, error, gaps and the error returned, whatever the questions do after it |
| `TaskTurns.NeverStuck` | internal/a2a/taskclient.go:144-279 | however the set ended, the task can be brought to its close once each handler returns |
| `ChatAnswers.SendAnswer` | run_chat.go:213-240 | at most three sends, each again only after a refusal that took no turn, so at most one is taken by a turn; every ending is told apart |
| `ChatAnswers.DeliveredMeansResultOrEndOfInput` | run_chat.go:213-240 | an attempt reads as delivered exactly when the turn had a result or the set ended without a terminal message |
| `ChatAnswers.EndOfInputReadsAsDelivered` | internal/a2a/taskclient.go:191-194 | the second case happens |
| `ToolServers.SlotsAreTheUnfinishedCalls` | internal/a2a/server.go:396-477 | slots in use are the accepted calls not finished, and never more than the concurrency |
| `ToolServers.SlotsComeBackOnce` | internal/a2a/server.go:396-477 | an acquired slot is released exactly once, the ack's failure included, and a refused call holds none and runs no tool |
| `ToolServers.RefusedOnlyWhenFull` | internal/a2a/server.go:380-410 | a call is refused for capacity only when every slot is taken, and for its tool only when it is not served |
| `ToolServers.ShapeIsASet` | internal/a2a/server.go:482-537 | the shapes tracked are exactly the prefixes of a refusal and its reply, or of an ack, keepalives and one reply, message by message in both directions |
| `ToolServers.EveryOutputIsAPrefixOfASet` | internal/a2a/server.go:396-537 | in every run each call's output is such a prefix, gap-free, whatever fails |
| `ToolServers.RepliesSayWhatHappened` | internal/a2a/server.go:396-503 | in every run a reply to an accepted call is an error exactly when its tool returned no output, with the output's text or the failure's; a refused call's ack and reply carry its reason, the reply with the capacity code exactly when it was for want of a slot |
| `ToolServers.AwaitTool` | internal/a2a/server.go:514-537 | the wait sends what the step machine sends, keepalives until one fails and then none, and returns the tool's own outcome, which the reply then says |
| `ToolSets.ToolSet.Reply` | internal/a2a/toolstream.go:47-76 | the reader returns the reply, or the error, that the messages before it call for |
| `ToolSets.ReadsToTheFirstOther` | internal/a2a/toolstream.go:47-105 | the read goes past events and one ack to the first other arrival, and returns that reply, or the error of that fault |
| `ToolSets.ReaderReturnsWhatTheServerAnswered` | internal/a2a/toolstream.go:47-105 | whatever non-terminal messages of a served call are lost, the reader gets the tool's output as a success, or its failure's text as an error |
| `ToolSets.SecondAckIsRejected` | internal/a2a/toolstream.go:47-76 | a second ack fails the call wherever it comes |
| `ToolSets.IdleTimeout` | internal/a2a/client.go:51-58 | a configured wait is raised to three keepalive intervals, and a non-positive one ignored |
| `ToolSets.RunningCallIsNeverGivenUp` | internal/a2a/server.go:505-537 | over the server's own ticks and a fair channel: a running call is given up exactly when its reply takes an idle window from what was last heard; never when every tick's send went out, and always on a call that outlives a failed one by an idle window |
| `ToolSets.AwaitSends` | internal/a2a/server.go:514-537 | the wait sends a keepalive a tick up to the first whose send fails, and none after |
| `ToolSets.TwoLostInARowIsGivenUp` | internal/a2a/toolstream.go:22-25 | two lost in a row can be given up at the floor, so the bound is tight |
| `References.ScanReferences` | config/config.go:1635-1676 | the loop finds what the recursive scan finds, with its first error |
| `References.ScanIsTheTiling` | config/config.go:1635-1676 | a scan succeeds with some references exactly when they are in bounds, in order, apart, written as their source, and hold every opening of the value |
| `References.ExpandReferences` | config/config.go:1750-1791 | the loop expands as the specification fills, with the error of the first reference that fails |
| `References.ExpandsWhenAllStand` | config/config.go:1750-1791 | a value that scans expands exactly when every variable is set and every file can be read, to the text between the references with what was looked up between; otherwise the error is the first failing reference's |
| `References.BrokenSyntaxIsReported` | config/config.go:1635-1676 | a value that does not scan is refused for the first opening that is wrong, with what is wrong there, and only references stand before it |
| `References.ExpandingVerbatimIsIdentity` | config/config.go:1750-1791 | expanding each reference to its own source text gives the value back |
| `References.ExpansionOfJoin` | config/config.go:1750-1791 | the expansion of two values joined is the two expansions joined, when both scan and the join forms no opening |
| `Redaction.BareReferenceIsSource` | config/config.go:1908-1919 | a value is left as it is exactly when it is empty or a single whole reference |
| `Redaction.RedactQueryInPlace` | config/config.go:1886-1903 | the loop replaces each parameter's value and nothing else |
| `Redaction.RedactionIsByParts` | config/config.go:1840-1919 | redacting a URL is redacting its parts |
| `Redaction.SpelledUrl` | config/config.go:1840-1880 | fragment and query are told apart by the first "#" and the first "?" before it, each parameter redacted in its place and the fragment shown as the mark unless it is empty or one reference |
| `Redaction.SpelledUserinfo` | config/config.go:1840-1880 | the userinfo hidden is what stands between the first "//" and the last "@" before the next slash |
| `Redaction.NamedParameter` | config/config.go:1886-1903 | a named parameter keeps its name and hides its value |
| `Redaction.UnnamedParameter` | config/config.go:1886-1903 | one without a name is hidden as a whole |
| `Redaction.PartsOfRedacted` | config/config.go:1840-1919 | a redacted URL parses into the redacted parts: redaction opens no new part |
| `Redaction.RedactUrlTwice` | config/config.go:1840-1919 | redaction is idempotent |
| `Redaction.RedactionKeeps` | config/config.go:1817-1840 | scheme, host, path and parameter names stay; userinfo, parameter values and fragment hold the mark where the URL held a secret and are as they were elsewhere |
| `Redaction.SecretsDoNotShow` | config/config.go:1817-1840 | two URLs that differ only in secrets are shown alike |
| `Citations.NumberOfName` | config/config.go:3422-3469 | the loop reads a canonical number of at most nine digits, and stays below ten times the cap |
| `Citations.PrintingTheNumber` | config/config.go:3422-3469 | a number is not negative exactly for the canonical names, and printing it gives the name back |
| `Citations.Extract` | config/config.go:3422-3469 | a reference is taken from its dollar to its end, braced or not |
| `Citations.RefIsANameBehindTheDollar` | config/config.go:3422-3469 | there is a reference at a dollar exactly when a whole name stands behind it, bare or in braces; it is to that name, with its number, and covers just that |
| `Citations.ReplaceRefs` | config/config.go:3388-3417 | the loop ends, and finds what the recursive scan finds |
| `Citations.ReplaceRefsAreTheLiveOnes` | config/config.go:3388-3417 | the ranges are disjoint and increasing, each starts at its dollar, and they are exactly the references no doubled dollar escapes |
| `Citations.SubstitutingSourceIsIdentity` | config/config.go:3388-3417 | substituting each range the scanner returns by its own text reproduces the replacement |
| `Wrap.BreakLine` | text.go:55-73 | the loop breaks a line as the greedy grouping does |
| `Wrap.GreedyIsMinimal` | text.go:55-73 | no order-preserving way to break the words within the width uses fewer lines |
| `Wrap.PiecesAreFewest` | text.go:55-73 | no other lines with the same words in the same order, however they are spaced, are fewer than a broken line's pieces |
| `Wrap.PiecesKeepWords` | text.go:48-76 | the words of a line come out in order, none lost, split or added |
| `Wrap.FieldsOfSplit` | text.go:61-70 | the words of a line are those before a space and those behind it |
| `Wrap.FieldsOfWord` | text.go:61-70 | and a text with no space in it is one word |
| `Wrap.PiecesFit` | text.go:48-76 | every piece is within the width or a single over-wide word |
| `Wrap.WrapText` | text.go:48-76 | the method wraps each line of the text, and nothing at a width of zero or less |
| `Wrap.WrappingTwice` | text.go:48-76 | wrapping is idempotent |
| `Wrap.WrappedLinesFit` | text.go:48-76 | every line of the wrapped text fits or is one over-wide word |
| `Fence.Markdown` | session_inspect_command.go:271-285 | the loop prints the text between fences one tick longer than its longest run, three at least |
| `Fence.LongestRunMeasures` | session_inspect_command.go:272-282 | no run of ticks in the text is longer than the one measured |
| `Fence.LongestRunIsThere` | session_inspect_command.go:272-282 | and one of that length is there, so no fence is longer than it need be |
| `Fence.FencedTextComesBack` | session_inspect_command.go:271-285 | reading the printed fence by the closing-fence rule gives back any text |
| `Fence.LongestRunAloneIsNotEnough` | session_inspect_command.go:271-285 | a fence only as long as the longest run loses a text |
| `Identity.Config.ApplyIdentity` | config/config.go:591-605 | a valid name is taken, an invalid one refused with nothing changed, an empty one ignored |
| `Identity.Config.PrepareIdentity` | config/config.go:3173-3190 | an identity is derived when there is none or the one there is the derived one |
| `Identity.BaseIsTheLastElement` | config/config.go:3173-3190 | the identity derived from a path is its last element, trailing slashes aside |
| `Identity.PrepareKeepsWhatWasChosen` | config/config.go:3173-3190 | after any steps a chosen identity survives and is reported as named; a derived one equals the recorded value |
| `Identity.PreparingTwice` | config/config.go:3157-3190 | after any steps a second preparation changes nothing of the identity |
| `Identity.AssignmentIsKeptUnlessItCoincides` | config/config.go:3173-3190 | an assigned identity is kept exactly when it is not the value recorded as derived |
| `Identity.CoincidingNameIsLost` | config/config.go:3173-3190 | one that coincides is replaced when the application path changes |
| `Lists.NormalizeTags` | config/config.go:3599-3616 | the loop cleans, drops empties and repeats |
| `Lists.NormalizeGlobalFlags` | config/config.go:3575-3592 | the loop does the same with leading dashes taken off |
| `Lists.CleaningTakesOff` | config/config.go:3575-3616 | cleaning takes off the white space around an entry and, for a flag, the dashes then in front, and nothing else |
| `Lists.NormalizedIs` | config/config.go:3575-3616 | the result has each cleaned name once and no other |
| `Lists.NormalizedKeepsOrder` | config/config.go:3575-3616 | the order is that of first sight |
| `Lists.TagsTwice` | config/config.go:3599-3616 | normalising tags is idempotent |
| `Lists.FlagsTwice` | config/config.go:3575-3592 | normalising flags is idempotent exactly when no white space stands behind an entry's dashes |
| `Lists.DashesThenSpace` | config/config.go:3583-3583 | an entry for which it is not |
| `Approvals.JournalApprovals.Grant` | internal/agent/approvals.go:48-57 | a new grant is staged once, a known one changes nothing |
| `Approvals.JournalApprovals.Flush` | internal/agent/approvals.go:62-77 | staged grants are journaled in order; a failing write leaves the records written and the whole stage |
| `Approvals.JournalApprovals.TakeCall` | internal/agent/approvals.go:82-90 | a one-shot id is spent by the take that finds it |
| `Approvals.JournalApprovals.Seed` | internal/agent/approvals.go:94-102 | a resume adds what the journal holds and stages nothing |
| `Approvals.JournalApprovals.Clear` | internal/agent/approvals.go:109-113 | nothing is left |
| `Approvals.Approve` | internal/agent/confirm.go:118-180 | true only with an operator and a live context, and then by a grant, a one-shot id or the answer; a refusal changes no state; the operator is asked only when nothing is on record |
| `Approvals.GrantedIsSeededPlusJournaledPlusStaged` | internal/agent/approvals.go:43-113 | over every sequence of operations, resumes that leave the approvals out included, granted is seeded plus journaled plus staged, which share nothing and hold each grant once |
| `Approvals.JournalHoldsAGrantTwice` | internal/agent/agent.go:1919-1927 | the journal holds a grant twice exactly when a process that left the approvals out flushed one it had inherited |
| `Approvals.ResumeRestoresTheFlushed` | internal/agent/agent.go:1919-1927 | a resume restores what was inherited and flushed, loses exactly what was staged, restores what the process did not hold exactly when it had left that out and not granted it again, and the one-shot ids approved since the last terminal record |
| `Approvals.LeftOutGrants` | internal/agent/agent.go:1919-1927 | both things can happen to a grant left out |
| `Approvals.OneShotIsSpentOnce` | internal/agent/approvals.go:78-90 | within one process a one-shot id authorises at most one dispatch, and only one it restored |
| `Approvals.SpentAgainUnlessTerminal` | internal/runstate/state.go:461-493 | in any run the next process dispatches a spent id again exactly when no terminal record stands behind its approval |
| `Approvals.OneShotOverTheChain` | internal/agent/approvals.go:78-102 | over all processes an id authorises one dispatch and one more for each resume that restored it after; with a terminal record before every resume, at most one |
| `Approvals.CrashRestoresOneShot` | internal/agent/approvals.go:90-102 | a history in which a crash has it authorise two |
| `Claim.OneHolder` | internal/agent/agent.go:1819-1835 | at most one opening that has claimed a run can still write to it |
| `Claim.EveryRecordStandsBehindItsClaim` | internal/agent/agent.go:1819-1847 | in every interleaving records are numbered without a gap and each stands behind its own opening's claim with nobody else's between |
| `Claim.EveryEmitLandsFresh` | internal/agent/runner.go:305-328 | an emit is stored on the next number, last, and told so exactly when the worker has the tail, no append of it failed and this one works; after one that did not it writes no more though it runs on |
| `Claim.LoserAppendsNothing` | internal/agent/agent.go:2153-2170 | a claim holds exactly when nothing landed since the opening and the store took it; otherwise no later schedule has that opening append anything |
| `Claim.OnceLostNothingMore` | internal/agent/runner.go:295-328 | an opening that lost the tail or had an append fail appends nothing in any later schedule |
| `Claim.WroteIsWhatStands` | internal/runstate/jetstream/jetstream.go:1064-1118 | what an opening has in the journal is what it was told it wrote, in order, and at most one record whose acknowledgement was lost |
| `Claim.StoresExactlyWhen` | internal/runstate/jetstream/jetstream.go:1064-1118 | a step stores a record exactly when it is an append by an opening that can write and the store is reached |
| `Claim.NumberReadBeforeTheClaimLosesARecord` | internal/agent/agent.go:1826-1830 | reading the number ahead of the claim would lose the first record as a duplicate |
| `Claim.LostAckIsAdopted` | internal/runstate/jetstream/jetstream.go:1064-1118 | an append whose acknowledgement was lost, made again, adopts its own record whatever was stored since and writes nothing twice; another opening's is told the run is locked |
| `Claim.FoldIsCurrentUnlessAppendedTo` | internal/agent/agent.go:1661-1815 | what a worker read is all that stands before its claim exactly when no step of the schedule between its read and its opening stored a record |
| `Claim.StaleFold` | internal/agent/agent.go:1661-1815 | that can fail, in any run with a live holder |
| `Usage.RunStats.CountToolResult` | internal/agent/runner.go:414-440 | live counting of a call is the step the fold takes for its record |
| `Usage.RunStats.CountReply` | internal/agent/runner.go:1253-1258 | live counting of a reply is the step the fold takes for its record |
| `Usage.Fold` | internal/runstate/state.go:384-437 | folding the journal gives what counting it live gives |
| `Usage.BucketsPartition` | internal/runstate/state.go:33-58 | the kinds partition the tool calls, and a dispatch counter is within its own kind |
| `Usage.BucketsHoldTheirKind` | internal/runstate/state.go:33-58 | each kind's bucket is the number of calls of that kind, and the two dispatch counters the dispatched calls of theirs |
| `Usage.CountersAreSums` | internal/runstate/state.go:384-437 | every counter is the sum of its own part over the replies, or the number of replies or calls |
| `Usage.CostIsSums` | internal/agent/agent.go:763-803 | what a report is of is those sums, input being the sum of its three tiers |
| `Usage.ReportIsOwnWork` | internal/agent/agent.go:777-803 | a resumed process reports the cost of its own work, whatever was restored |
| `Usage.EveryReportIsConsistent` | internal/agent/agent.go:763-803 | in every report input is uncached plus cache-read plus cache-create, and remote plus MCP calls are within tool calls |
| `Usage.BooksBalance` | internal/agent/agent.go:882-893 | over any chain of processes, reports plus answers from outside equal the journal plus work that did not land plus returns of a finished run |
| `Usage.ReportsSumToTheSession` | internal/agent/agent.go:882-893 | with none of those three, the reports sum component by component to the session |
| `Usage.TokensAreNeverUnderReported` | internal/agent/agent.go:882-893 | tokens reported are at least the session's, and equal exactly when none were lost or repeated |
| `Usage.ResumedReportShowsTheSession` | internal/agent/agent.go:786-791 | beside its own use a resumed process reports the session's, tokens and model calls, as the journal holds it |
| `Usage.ReturnCountsTheSessionAgain` | internal/agent/agent.go:1683-1701 | the completed return adds the whole session to the sum again, unless it cost nothing |
| `Usage.SuppliedCallIsNobodys` | internal/runstate/supply.go:130-155 | the call answered ahead of a resume is in the session's count and in no report |
| `Toolkit.KeptTools` | internal/agent/assemble.go:432-452 | the loop keeps what every filter keeps, in order |
| `Toolkit.KeptIsAPart` | internal/agent/assemble.go:280-293 | filtering keeps exactly the tools every filter keeps and never makes names clash |
| `Toolkit.KeptInOrder` | internal/agent/assemble.go:432-452 | what is kept stands in the order it came in, at exactly the places where every filter keeps the tool |
| `RemoteTools.ResolveRemoteTools` | internal/remotetools/remotetools.go:160-230 | each host's row holds the tools its own offers name, final names are distinct and take no held name, and a clash is reported exactly when one is there |
| `RemoteTools.ImportHosts` | internal/remotetools/remotetools.go:86-104 | the import succeeds exactly when every host answered and no name clashes, and names the first host that did not |
| `RemoteReports.RowsHoldWhatIsOffered` | internal/remotetools/remotetools.go:160-230 | a host's row holds exactly the tools it offered that build, whose name is usable and nobody else's; the name is the bare one unless that is held here or offered twice, and then prefixed with the host's alias |
| `RemoteReports.ClashIsReported` | internal/remotetools/remotetools.go:160-230 | a clash is reported exactly when an offer's usable name is held or another offer's too |
| `RemoteTools.NamingIgnoresOrder` | internal/remotetools/remotetools.go:148-159 | both counts that decide a name are the same in whatever order hosts are discovered |
| `McpClient.NamedAreNew` | internal/mcpclient/tools.go:321-351 | every built name carries its server's prefix, is usable, was not held and is given once |
| `McpClient.ImportServers` | internal/mcpclient/tools.go:127-148 | each server's row holds the tools its descriptors name beside the names held before it, and a collision is reported exactly when a usable name was held |
| `McpReports.RowsHoldWhatIsListed` | internal/mcpclient/tools.go:321-351 | a server's row holds exactly the tools it listed that build and whose prefixed name is usable and was not held before its turn |
| `McpReports.CollisionIsReported` | internal/mcpclient/tools.go:321-351 | a collision is reported exactly when a usable name was held before, or by a tool of the same name built before it |
| `McpClient.RowsAreNew` | internal/mcpclient/tools.go:127-148 | across the servers of a session names stay distinct and unclaimed, and a server that could not be listed has no tools |
| `McpClient.Import` | internal/mcpclient/tools.go:171-193 | the import succeeds exactly when every server was listed and nothing collided, with every row filled either way |
| `Assemblies.Assemble` | internal/agent/assemble.go:192-244 | it succeeds exactly when its inputs say so under either policy; the list then holds the commands and built-ins the filters keep and the surface's exposure flags admit, with what is withheld and why, and on a run each host's and server's kept tools, the caller's own, a row for each source and a problem for each that failed; claimed names and dispatch order are as promised; strict leaves no problem and no failed row; the first filter that does not compile is named |
| `AssemblyReports.SucceedsAsConfigured` | internal/agent/assemble.go:311-377 | of a successful assembly, from the configuration's fields: on MCP and A2A each built-in there declares the surface, one is withheld as agent-only exactly when it does not and as filtered exactly when it does and a filter drops it; a run holds every built-in the filters keep; sources, stores, commands, filters and custom tools are those configured |
| `AssemblyReports.StartsWhen` | internal/agent/assemble.go:192-359 | commands and built-ins go in exactly when the filters compile, the application answers, each built-in served has its store, and its name is no other's nor a kept command's |
| `AssemblyReports.CustomIsTakenWhen` | internal/agent/assemble.go:540-594 | a custom list is taken exactly when every tool is named and each kept one is defined under its name, runs in process, and shares its name with no tool of any kind |
| `ImportReports.RunAsAnswered` | internal/agent/assemble.go:383-533 | of a successful run, from the answers: one row a host and a server in configured order, each with its alias and its failure or its kept tools under their names; every imported tool is of such a row and none is missing; a problem stands for each source that failed and for nothing else |
| `AssemblyPlans.AssemblyIgnoresCustomOrder` | internal/agent/assemble.go:535-540 | permuting the custom tools changes neither whether the assembly succeeds nor its list |
| `ToolLists.DistinctUnlessCommandsClash` | internal/agent/assemble.go:192-244 | names are distinct exactly when the kept commands' names are |
| `Assemblies.Assembly.AddBuiltins` | internal/agent/assemble.go:311-359 | the built-ins go in exactly when each one served has its store and a free name; the rest are withheld with the reason, and a failure names a served one that does not fit |
| `BuiltinTools.ServedOrWithheld` | internal/agent/assemble.go:311-377 | on a served surface each built-in is among the tools or withheld with its own reason |
| `BuiltinTools.NeverBoth` | internal/agent/assemble.go:311-377 | and never both: one row each in all, served rows only of served tools, withheld rows only of others |
| `Assemblies.Assembly.ImportRemote` | internal/agent/assemble.go:383-429 | the list gains each host's kept tools under their final names, the rows and problems are those of the hosts' answers, the remote map holds the same names, and it fails exactly under strict with a host or a name at fault |
| `Assemblies.Assembly.ImportMcp` | internal/agent/assemble.go:456-508 | the list gains each session's kept tools in order, each held to the names in use at its turn; one row a configured server; it fails exactly under strict, for the first session that does not import or a server nothing explains |
| `Assemblies.Assembly.McpRows` | internal/agent/assemble.go:513-533 | a row is the session's outcome, else the first problem recorded for the server or the block |
| `Assemblies.Assembly.AddCustom` | internal/agent/assemble.go:540-608 | custom tools are taken exactly when each is fit and kept names are distinct; then they are added once, sorted by name; a refusal is the first unfit tool's and says what is wrong with it |
| `CustomTools.CustomOrderIsIrrelevant` | internal/agent/assemble.go:535-540 | beside given tools, reordering a custom list changes neither whether it is taken nor what it becomes |
| `Assemblies.Assembly.OfKinds` | internal/agent/assemble.go:663-673 | the loop returns the view of the kinds the partition is about |
| `ToolLists.ViewsPartition` | internal/agent/assemble.go:637-673 | every tool is in exactly one of the four views, as often as it is assembled |
| `ToolLists.ViewsInOrder` | internal/agent/assemble.go:110-115 | the list is commands, built-ins, remote, MCP and custom tools, one kind after another |
| `NameOrder.LessAtTheFirstDifference` | internal/agent/assemble.go:596-605 | names sort by the first character they differ in, a name that ends there first |
| `NameOrder.AscendingIsUnique` | internal/agent/assemble.go:596-605 | a set of names has one sorted order |

## Left out

- Strings are sequences of characters, not bytes: positions are character positions, and the 768 KB cap is on a size the environment gives.
- Goroutines, locks, channels and timers: `RunTask`, the bounded `read`, `handleTool` and the resume of `Run` race with other goroutines or processes, so they are step functions on values with a ghost clock rather than methods; the memory model and scheduler fairness are not modelled.
- Counters other than sequence numbers and gaps are unbounded integers.
- JSON, schema validation, marshaling, NATS and the other transports: each is an answer of the environment.
- `TurnReports.AcksAreReported`: the hooks of one ack fire as one step of the reader.
- `ToolServers.RepliesSayWhatHappened`: the texts of refusals and harness errors are shortened, since nothing branches on them.
- `TaskTurns.NeverStuck`: states that a schedule to the close exists, not that a scheduler picks it.
- `ToolSets.RunningCallIsNeverGivenUp`: a keepalive's send takes no time on the server's clock, and the ticker drops no tick.
- `Fence.FencedTextComesBack`: the CommonMark replacement of U+0000 and the indentation of the opening fence do not come up and are not modelled.
- `Approvals.Approve`: the command path, display text and tag only reach the prompt's wording.
- `Claim.EveryEmitLandsFresh`: the journal's append is the fenced one of internal/runstate/jetstream/jetstream.go:1064-1118; the other stores are not modelled.
- `Usage.BooksBalance`: a process that is killed reports nothing and is not a member of the chain; a session rotated into another conversation is not modelled.
- `Assemblies.Assemble`: the servers of one session are taken to have distinct names, since a session holds them by name; compiling a filter's patterns, introspecting the application and building the built-ins are the configuration's answers; error texts are constructors.
- `RemoteTools.ImportHosts`: discovery and the hosts' own include and exclude filters are part of what a host answers.
- The assembly's `Counts`, `Names` and `Len`, and the live re-import of a server's changed tool list: simple folds of the same list, and a second entry point to the same naming.
- `selectExposed`, discovery, the agent card, cancellation, telemetry spans and the wire log: one-branch decisions or plumbing.
- `deliverHeld`, `reportStop` and the rest of the chat loop around `sendAnswer`: calls in a row with no state of their own.
- The agent loop between claim and terminal record, model providers, memory and knowledge stores, the session stores' internals, and the PII scanner.
- Field-by-field configuration validation and getters with defaults.
