# A model of the Coraza connector for Apache HTTPD

The module sits between httpd and the Coraza engine. This project models its
logic and proves what it promises. The engine is an oracle: its answer to a call
may be any function of all the calls made on the transaction so far, so every
statement holds for every engine.

| file | models |
|---|---|
| `Wire.dfy`, `HeaderCodec.dfy` | the bulk header format: two-pass packer, reader, their being inverse |
| `RulesText.dfy` | SecLang text read whole: lines, trimming, continuations, action lists, records |
| `RulesScan.dfy`, `RulesProof.dfy`, `RulesResults.dfy`, `RulesLaws.dfy` | the streaming scanner, that it follows the whole-text reading, where it does not, and laws of the verdict an author can check |
| `Engine.dfy`, `Context.dfy` | the engine as an oracle over the call log, interventions, header submission, the per-request context |
| `OutputSpec.dfy`, `OutputProof.dfy`, `OutputResults.dfy`, `OutputLaws.dfy`, `OutputCalls.dfy`, `OutputFilter.dfy` | the response filter: state machine, invariant over all runs, its consequences, what clients and the engine see, the object |
| `RequestHook.dfy`, `RequestResults.dfy` | the fixups hook: phases 1 and 2, the saved and spooled body |
| `Brigade.dfy`, `BodyReplay.dfy` | buckets and the APR operations on them, the replay of the body in every read mode |
| `Exchange.dfy` | one client request through redirects, responses, replay and audit log |
| `WafCache.dfy`, `WafConf.dfy`, `WafChild.dfy` | the WAF cache, configurations and their merging, building and resolving a WAF |
| `WafServing.dfy`, `WafStart.dfy`, `WafExit.dfy`, `WafLife.dfy` | runs of requests, child start, child exit, a child's whole life |

An *alarm* is a call whose answer must stop the request: a failed submission, a
failed phase, a queued intervention. A log is *quiet* when no call in it raised
one.

## What is assumed

- Scanner: no line has a NUL as its first byte that is not blank; anywhere else a
  NUL is harmless. Inline text is a C string and holds none; for a file this is a
  hypothesis, and `RulesResults.NulHidesDirective` and `RulesResults.NulEndsList`
  show that without it the scanner can both miss and wrongly refuse.
- Scanner, comparison with the whole-text reading line by line: fewer than
  2^32 - 2 characters, so that the line counter does not wrap. The main result
  has no such bound; it states the reported line modulo 2^32.
- Response results: the filter is attached once per context. `Exchange.ServeClient`
  does not need this.
- `ap_setup_client_block` returns OK or an HTTP error.
- Audit entry: at most one is written whatever happens. That one is written needs
  the log hook to be run for a record that shares the transaction; httpd decides
  which records that is, and the hook does nothing for a record whose scope is off
  or that has no context.
- Runs of requests: what a configuration that is used as it is was last merged from
  takes no other part in the run.
- A whole child (`WafLife.ChildLife`): nothing has a WAF before the fork; sections
  are neither tracked nor bases; what they are merged into, if it has rules, is a
  tracked merge or has the rules of its server.
  Child exit alone assumes that distinct server configurations hold distinct
  handles; child start proves it.

## Where the code differs from what it says

- The comment before the scanner says each line is trimmed before its last
  character is looked at. The code ends the first word at any blank, so a blank
  or a CR after the backslash of a continuation that splits the directive keeps
  the backslash in the word: `SecRemote\` CR LF `Rules` passes. The exact
  condition is `RulesResults.VerdictIsExactUnlessCut`.
- The scanner takes a first byte 0 for no byte yet. Behind a NUL that opens a line,
  a directive on the next line is missed (`RulesResults.NulHidesDirective`), and a
  backtick ends an action list that is still open, so that a line of the list is
  refused as a directive (`RulesResults.NulEndsList`).
- The `merge_child` memo is documented as the WAF of the stable child, but it is
  the WAF of one merge of that child. When two requests end in the same section,
  merged under others, the second gets the WAF built for the first: the right one if
  and only if the same rules precede the section (`WafServing.MemoIgnoresThePath`,
  `WafServing.SameRulesBefore`). For any request the exact condition is in
  `WafServing.Serve`: it runs its own rules, or has no WAF, if and only if the
  handle it inherits is 0 or was built from them; for runs it is in
  `WafServing.ServeAll`.
- Child exit frees the handles held by the frozen configurations and the servers,
  and no others. A WAF compiled at request time is in the cache, on the request's
  configuration and, as a memo, on the section merged last under other rules; it is
  freed if and only if one it was remembered on is frozen
  (`WafLife.RequestWafAtExit`), which sections are not.
- Child start compiles a configuration once for every server record that has it.
  When records share one, only the last WAF stays in it, and exit frees an earlier
  one if and only if a frozen base without rules of its own kept it. A base that is
  not frozen still holds its handle after exit, freed or not
  (`WafLife.StartWafsAtExit`).

## Model

| member | source | states |
|---|---|---|
| RulesProof.VerdictIsFirstUncutRefusal | src/mod_coraza.c:499-661 | Over every text no line of which opens with a NUL the streaming scanner (state machine over bytes, 32-byte word buffer) reports exactly the first record of the whole-text reading that is refused and not cut, with the line it starts on (as the unsigned counter shows it); open action lists are judged, dangling continuations are not |
| RulesResults.RefusalIsSound | src/mod_coraza.c:532-646 | When no line opens with a NUL, whatever is refused is the first word of a record of the text: comments, glued lines and lines of an action list are never mistaken for a directive, whatever blanks trail a line |
| RulesResults.VerdictIsExactUnlessCut | src/mod_coraza.c:573-580 | When no line opens with a NUL, the scanner agrees with the whole-text reading if and only if the first refused record is not cut, that is, has no blank after a continuation backslash while its first word is still open |
| RulesResults.CleanTextsAreChecked | src/mod_coraza.c:573-621 | When no line opens with a NUL or has a blank after its trailing backslash, directive and line are exactly those of the whole-text reading |
| RulesResults.BlankAfterBackslashHidesDirective | src/mod_coraza.c:616-624 | For every way of splitting the refused directive with a backslash, any blank (a CR too) after that backslash makes the scanner pass a text whose record is refused |
| RulesResults.NulHidesDirective | src/mod_coraza.c:557-561 | A NUL byte at the start of a line of a file hides the directive on the next line: `first == 0` stands for no byte yet |
| RulesResults.NulEndsList | src/mod_coraza.c:557-571 | Behind a NUL that opens a line, a backtick ends an open action list for the scanner alone, which refuses a line of the list: soundness needs the hypothesis too |
| RulesResults.DirectiveIsSettled | src/mod_coraza.c:499-512 | Once the first word is complete, neither a glued continuation nor a line of an action list changes a record's directive or its starting line |
| RulesLaws.CaseDoesNotMatter | src/mod_coraza.c:532-548 | Texts that differ in the case of ASCII letters only get the same verdict, whatever they hold |
| RulesLaws.DirectiveIsRefused | src/mod_coraza.c:532-646 | SecRemoteRules in any case, first on the first line behind any blanks, is refused there, whatever arguments follow a blank and whatever text follows the line |
| RulesLaws.DirectiveIsRefusedWhereItStands | src/mod_coraza.c:616-646 | Behind any comments and blank lines it is refused with its own line number |
| RulesLaws.OnlyTheDirective | src/mod_coraza.c:532-548 | Whatever is refused is a record whose first word spells SecRemoteRules in some case |
| RulesLaws.GluedDirectiveIsRefused | src/mod_coraza.c:573-580 | Split anywhere by a backslash at the end of the line, it is refused on the line it starts |
| RulesLaws.IgnoredLinesDoNotMatter | src/mod_coraza.c:552-561 | A comment or blank line put anywhere, inside continued records and action lists too, changes nothing of what is refused |
| RulesLaws.ListLinesPass | src/mod_coraza.c:562-572 | No line of an action list is refused, whatever it says |
| RulesLaws.DanglingDirectivePasses | src/mod_coraza.c:651-661 | A record the text ends in after a backslash is not judged |
| RulesLaws.DirectiveWithOpenListIsRefused | src/mod_coraza.c:651-661 | A record whose action list is still open at the end is judged |
| RulesProof.FeedLine | src/mod_coraza.c:552-646 | A whole line that does not open with a NUL takes scanner and record assembler from agreeing states to agreeing states, and judges a record exactly when the line completes one |
| RulesProof.TracksContinued | src/mod_coraza.c:573-580 | Dropping the backslash keeps the collected word equal to the record's first word, or marks the record cut exactly when a blank followed the backslash of an open word |
| RulesScan.ScanTextConcat | src/mod_coraza.c:600-646 | Cutting the input anywhere changes neither the verdict nor the state |
| RulesScan.Scanner.Scan | src/mod_coraza.c:600-646 | The byte loop over fields and a fixed buffer has the effect of the state machine; the word length stays within the buffer |
| RulesScan.Scanner.FinishLine | src/mod_coraza.c:552-595 | The end of a line: ignored, continued with the backslash dropped, listed, or the record judged and cleared |
| RulesScan.Scanner.WordRefused | src/mod_coraza.c:532-548 | The first listed directive the collected word spells, case aside |
| RulesScan.Scanner.Done | src/mod_coraza.c:651-661 | End of input: the last line is finished and an open action list judged |
| RulesScan.CheckRulesText | src/mod_coraza.c:671-692 | Inline text gets the verdict on the whole text |
| RulesScan.CheckRulesFile | src/mod_coraza.c:701-750 | For every way the file is read in buffers, directive and line are those of one scan of the whole text; after a read error, those of what was read |
| HeaderCodec.PackHeaders | src/mod_coraza.c:168-222 | Packs exactly the non-empty lists whose names fit 16 bits and whose exact total fits an int; the reader gets the very pairs back |
| HeaderCodec.PackedSize | src/mod_coraza.c:172-195 | The first pass computes the exact size; its subtraction-only guards never wrap a size_t and refuse exactly the lists that cannot be packed |
| HeaderCodec.PutEntry | src/mod_coraza.c:201-218 | One entry is written at the pointer without disturbing what lies before it |
| HeaderCodec.DecodeAfterEncode | src/mod_coraza.c:162-167 | Reading `count` entries of a packed list returns the list |
| HeaderCodec.EncodeAfterDecode | src/mod_coraza.c:162-167 | Whatever framing the reader accepts is the packed form of what it read: the format is canonical |
| HeaderCodec.PackingIsInjective | src/mod_coraza.c:162-167 | Two lists of the same count never share a packed form |
| HeaderCodec.PackableFits | src/mod_coraza.c:179-189 | A list within the total fits every length field |
| HeaderCodec.EncodeLength | src/mod_coraza.c:189-198 | The second pass writes exactly the size the first computed |
| HeaderCodec.EntryLayout | src/mod_coraza.c:162-222 | Byte by byte: name length in two bytes and value length in four, most significant first, each in front of what it counts |
| HeaderCodec.EntryAt | src/mod_coraza.c:199-219 | Entries follow one another without a gap, in the order of the pairs |
| HeaderCodec.PackableIs | src/mod_coraza.c:172-195 | What can be packed: a non-empty list of names of at most 65535 bytes, no longer in all than 2147483647 |
| Engine.InterventionsAreEnforced | src/mod_coraza.c:283-299 | A drop is an action drop or a 444 and is served 403, as is any status below 300 but 201 and 204; every other status is the rule's own |
| Engine.AlarmsAre | src/mod_coraza.h:110-138 | What stops a request: a submission answered by anything but 0, a phase by a negative value, a poll that finds something |
| Context.PairAt | src/mod_coraza_phase1.c:252-261 | One pair for each table entry with a key, in order: its key is the name, its value the value, empty when missing |
| OutputFilter.ResponseHeadersAt | src/mod_coraza_filter_out.c:194-225 | What is submitted for a response, position by position: the response table, Content-Type if there is one, the error table |
| Engine.EveryHeaderSubmitted | src/mod_coraza_phase1.c:263-311 | Submission succeeds exactly when the engine took every header in order, from one accepted batch as it unpacks it or one by one; a rejected batch never leaves it with fewer |
| Engine.SubmissionQuiet | src/mod_coraza_filter_out.c:227-261 | A header submission fails only on an engine error or a header too long to pass |
| Engine.SubmissionQuietBefore | src/mod_coraza_phase1.c:288-311 | Nothing is submitted after the call that failed |
| Context.RequestCtx.ProcessIntervention | src/mod_coraza.c:269-350 | A poll: 0 when nothing is queued, else the enforced status, the drop flag, the status update and, early, at most one audit entry |
| Context.RequestCtx.AddAllHeaders | src/mod_coraza_phase1.c:270-311 | The bulk attempt and the per-header loop have the effect of the submission function |
| Context.RequestCtx.LogTransaction | src/mod_coraza_log.c:23-50 | The audit entry is written only for an enabled scope and only when it was not yet |
| OutputProof.RunKeepsInv | src/mod_coraza_filter_out.c:154-537 | The response invariant, with what it says of each of the six ways a response can stand, holds after every run of brigades for every engine and request |
| OutputProof.OutputKeepsInv | src/mod_coraza_filter_out.c:154-537 | One brigade keeps the response invariant, through every exit |
| OutputProof.BrigadeInspected | src/mod_coraza_filter_out.c:373-468 | The bucket loop: on every stop, what was sent the engine has seen; on a clean end, it has seen everything; at the cap, the delayed bytes exceed it |
| OutputProof.Phase3IsFine | src/mod_coraza_filter_out.c:169-370 | Phase 3 ends in a refusal with nothing sent, a release of the first brigade, or the body loop with nothing sent or held |
| OutputResults.NothingIsLost | src/mod_coraza_filter_out.c:318-356 | Without a refusal, downstream followed by pending is everything received, in order; once the filter is out nothing is pending |
| OutputResults.RunReceives | src/mod_coraza_filter_out.c:154-166 | What counts as received is the concatenation of the run's brigades up to the one that ended it |
| OutputResults.InspectedBeforeSent | src/mod_coraza_filter_out.c:373-512 | The bytes sent are a prefix of those appended to the engine unless an uninspected, event-stream or cap exit was taken; a completed response was appended in full and phase 4 and its poll, clean, were the last calls |
| OutputResults.DelayIsBounded | src/mod_coraza_filter_out.c:401-428 | While headers are delayed nothing was sent, the pending bytes are the appended ones, their count is pending_len and at most 1048576, and no EOS has passed; a flushed response is longer than that |
| OutputLaws.NothingSentUndecided | src/mod_coraza_filter_out.c:359-369 | For a main request for more than headers, a status below 400 and a brigade to hold: nothing is sent before the response is completed, past the cap, an event stream or uninspected; a refusal has sent nothing and has its page unless the connection is dropped |
| OutputLaws.OthersAreNotHeld | src/mod_coraza_filter_out.c:359-369 | Any other response is never held between calls |
| OutputLaws.EventStreamsStepOut | src/mod_coraza_filter_out.c:342-357 | Only an event stream leaves as one, and none is held past its first brigade, flushed or inspected to its end |
| OutputCalls.ResponseCallsInOrder | src/mod_coraza_filter_out.c:169-512 | Over every run, each engine call may follow those before it, given their answers: headers, phase 3, the questions about the body, a poll; then pieces of body and its end, each polled for at once; nothing follows a failure, and a found intervention only its report |
| OutputCalls.UninspectedExactlyUnwanted | src/mod_coraza_filter_out.c:278-340 | A response that is not refused goes uninspected if and only if the engine said that it does not read bodies, or not of this type |
| OutputResults.Phase4Once | src/mod_coraza_filter_out.c:318-512 | Phase 4 runs at most once; once on completion, on the uninspected exit and whenever it is marked done, never on the cap, event-stream or still-open ends |
| OutputResults.Phase4ExactlyOnce | src/mod_coraza_filter_out.c:318-512 | Over every run, the count of phase 4 is 0 up to the brigade it is due on and 1 from then on, whatever it decides: it is due exactly when the end of an inspected body is reached with no deny, error or cap before it, or the body is not inspected |
| OutputResults.Phase4WhenDue | src/mod_coraza_filter_out.c:470-512 | One brigade runs phase 4 once if it is due, denied or failed or clean, and not otherwise |
| OutputResults.AlarmsRefuse | src/mod_coraza_filter_out.c:85-144 | Any engine error or intervention in a run refuses the response; an unreadable or oversized bucket never goes with a completed or still-open response |
| OutputResults.RefusedResponses | src/mod_coraza_filter_out.c:85-144 | A refused response holds nothing, has a refusing status and at most one error page, only if nothing was sent; a drop aborts the connection and has none |
| OutputResults.RefusalSendsNothing | src/mod_coraza_filter_out.c:85-144 | The brigade on which the filter refuses sends nothing, neither itself nor what was held |
| OutputResults.RefusalHasCause | src/mod_coraza_filter_out.c:286-336 | A refusal has a cause: an alarm, a header or bucket that cannot be submitted, or a brigade that could not be saved |
| OutputResults.RefusedWithOwnStatus | src/mod_coraza_filter_out.c:286-297 | A refusal serves the status of the intervention the last poll found, as reported to the engine, and aborts the connection exactly when that asks for a drop; 500 exactly when the last call of this brigade was not such a report |
| OutputResults.ReturnValueTells | src/mod_coraza_filter_out.c:85-144 | Each kind of refusal returns its own code, a held brigade success, and a pass whatever the next filter returns; success and refusal are told apart by the code when the next filter succeeds, and a call that does not refuse leaves the response undecided with its status |
| OutputResults.StatusKept | src/mod_coraza_filter_out.c:154-166 | Over a whole run, a response that is not refused keeps the status the handler gave it |
| OutputFilter.ResponseFilter.Filter | src/mod_coraza_filter_out.c:154-537 | The filter object's call has exactly the effect of the state machine, in any state of the context |
| OutputFilter.ResponseFilter.ProcessHeaders | src/mod_coraza_filter_out.c:169-340 | Phase 3 on the object: submission, predicates, decision |
| OutputFilter.ResponseFilter.DecideOnHeaders | src/mod_coraza_filter_out.c:286-370 | Refuse, finalise an uninspected body, step out for an event stream, or start the delay |
| OutputFilter.ResponseFilter.FinaliseHeaders | src/mod_coraza_filter_out.c:318-340 | Phase 4 of an uninspected body before any header goes out |
| OutputFilter.ResponseFilter.InspectBody | src/mod_coraza_filter_out.c:372-468 | The loop over the buckets of a brigade, with its early exits |
| OutputFilter.ResponseFilter.FinishBody | src/mod_coraza_filter_out.c:470-512 | EOS: phase 4 decides, then everything held is released or refused |
| OutputFilter.ResponseFilter.FailClosedResponse | src/mod_coraza_filter_out.c:85-103 | An error page while the headers are delayed, a truncation otherwise |
| OutputFilter.ResponseFilter.FailClosedHeaders | src/mod_coraza_filter_out.c:109-118 | An error page with nothing sent |
| OutputFilter.ResponseFilter.Drop | src/mod_coraza_filter_out.c:131-144 | A drop: nothing more is sent and the connection is aborted with 403 |
| OutputFilter.ResponseFilter.Respond | src/mod_coraza_filter_out.c:154-537 | Driving the object over a run of brigades follows the run of the state machine |
| Exchange.RespondFresh | src/mod_coraza_filter_out.c:154-537 | A response on a fresh context leaves the object in a state satisfying the whole invariant |
| RequestHook.HttpRequest.PostReadRequest | src/mod_coraza_phase1.c:108-477 | A fresh request reaches the handler if and only if every call of the script was answered cleanly, every header was taken and the body was read and saved; otherwise it is refused, with the status of the intervention found by the last poll or 500, and nothing is called beyond the first alarm; a redirect shares the earlier transaction without calling it |
| RequestHook.ScriptInOrder | src/mod_coraza_phase1.c:157-476 | The calls of a request that reaches its handler: each phase in order and each piece of body, polled for at once with nothing found; phase 2 and its poll are the last two; the engine is asked about the body exactly when there is one |
| RequestHook.HttpRequest.Inspect | src/mod_coraza_phase1.c:157-476 | The same for a request with its own transaction, with the state each outcome leaves; after a clean phase 1 a failed body setup is answered with its own status, and a failed read alone with 400 |
| RequestHook.HttpRequest.Phase1 | src/mod_coraza_phase1.c:157-324 | Connection, request line and headers, stopping at the first alarm |
| RequestHook.HttpRequest.ReadBody | src/mod_coraza_phase1.c:353-442 | The read loop: on a full read the saved body is memory head, spool file and EOS; it stops only for a read error, a failed save or an alarm |
| RequestHook.HttpRequest.SaveChunk | src/mod_coraza_phase1.c:379-407 | Chunks go to memory while nothing was spooled and they fit; from the first that does not, all go to the spool, in order |
| RequestHook.HttpRequest.SavedIsBody | src/mod_coraza_phase1.c:430-442 | The saved body holds exactly the client's bytes in order and ends in one EOS |
| RequestHook.HttpRequest.SpooledPastTheLimit | src/mod_coraza_phase1.c:379-407 | There is a spool file exactly when the body is longer than the limit, 131072 unless configured |
| RequestHook.HttpRequest.CheckIntervention | src/mod_coraza_phase1.c:69-78 | An intervention becomes the hook's return value, or DONE with an aborted connection for a drop |
| RequestHook.HttpRequest.CtxFromPrev | src/mod_coraza_phase1.c:93-106 | The context of the nearest earlier request of the chain that has one |
| RequestResults.CleanMeansInspected | src/mod_coraza_phase1.c:157-476 | A request that reached its handler: the engine accepted all its headers in order and no call raised an alarm |
| RequestResults.EngineSawBody | src/mod_coraza_phase1.c:353-424 | With body access on, the bytes appended to the engine are the body exactly; with it off, none |
| RequestResults.ScriptOnce | src/mod_coraza_phase1.c:157-476 | The script runs each request phase once and writes no audit entry |
| RequestResults.StoppedOnce | src/mod_coraza_phase1.c:157-476 | Wherever the hook stopped, no phase ran more often than in the script |
| RequestResults.RunCount | src/mod_coraza_filter_out.c:154-537 | No response, however long, repeats a request phase or writes the audit entry |
| Exchange.ServeClient | src/mod_coraza_phase1.c:93-152 | Along any redirect chain, whatever the responses: one transaction at most, each request phase at most once on it, at most one audit entry, and one if the log hook is run for any record that shares the transaction |
| Exchange.ServeRest | src/mod_coraza_filter_out.c:163-166 | From any hop of the chain on: a transaction denied by then is not called again by any later hook or response, but for one audit entry at most |
| Exchange.ServeHops | src/mod_coraza_phase1.c:125-155 | Hops and responses alone add no call at all to a denied transaction, and keep the chain to one transaction |
| Exchange.LogHooks | src/mod_coraza_log.c:23-50 | Over any records the hook is run for, the entry is written exactly when it was not yet and one of them is inspected by a scope that is on |
| Exchange.Hop | src/mod_coraza_phase1.c:125-155 | A hop either shares the chain's context or, none existing, may create the only one |
| Exchange.Audit | src/mod_coraza_log.c:23-50 | The log hook adds the entry, and nothing else, when the scope is on and it was not written yet |
| Exchange.DeliverBody | src/mod_coraza_phase1.c:341-476 | The body round trip: any chunking, any in-memory limit, any mix of consuming reads delivers the client's body and then one EOS |
| BodyReplay.ReplayFilter.Read | src/mod_coraza_body_in.c:113-126 | One read in any mode: who answers, when the filter steps out, and for each mode what is handed over, what is kept and that a consuming read makes progress |
| BodyReplay.ReplayFilter.Replay | src/mod_coraza_body_in.c:24-102 | The same on a saved body, branch by branch |
| BodyReplay.ReplayFilter.Peek | src/mod_coraza_body_in.c:52-75 | A speculative read copies exactly the first min(asked, left) bytes and consumes none; the EOS is in the copy exactly when more is asked for than is left |
| BodyReplay.ReplayFilter.ReadLimited | src/mod_coraza_body_in.c:84-101 | A limited read hands over exactly what was asked, or all there is with the EOS |
| BodyReplay.ReplayFilter.ReadMany | src/mod_coraza_body_in.c:24-102 | After any sequence of reads, delivered followed by remaining is the body and an EOS is only ever last |
| BodyReplay.ReplayFilter.ReadToEnd | src/mod_coraza_body_in.c:24-102 | Any reader that keeps consuming reaches the EOS, with the whole body before it |
| Brigade.PartitionBytes | src/mod_coraza_body_in.c:58-64 | Partitioning moves no byte and is incomplete exactly when too few remain |
| Brigade.PartitionShape | src/mod_coraza_body_in.c:84-99 | A complete partition of a saved body takes data only and leaves the EOS behind, on an exact fit too |
| Brigade.SplitLine | src/mod_coraza_body_in.c:48-50 | A line read ends at its line feed, is at least the maximum long, or takes the rest with the EOS, however file buckets are read in |
| WafCache.Cache.Find | src/mod_coraza.c:107-119 | A lookup hits exactly when that rule list was stored and returns its handle, whatever the hashes collide on |
| WafCache.Cache.Add | src/mod_coraza.c:121-155 | A new list is added while there is room, with its correct hash and keys kept distinct; a full cache keeps what it has |
| WafCache.RulesEqual | src/mod_coraza.c:90-105 | Equal exactly when the ordered entries are |
| WafConf.Merge | src/mod_coraza.c:993-1049 | Rules are the parent's then the child's in every case, arrays shared when only one side has any; settings, WAF and memo as inherited |
| WafConf.MergeAll | src/mod_coraza.c:993-1049 | However the merges of a request nest, the result has the rules of all its configurations in order, the handle of the last one with rules, and that one as its memo exactly when it was itself merged last under other rules |
| WafChild.ChildProcess.BuildWaf | src/mod_coraza.c:1083-1150 | A handle is new and built from exactly the list, entry by entry; there is one exactly when the engine takes every entry and makes the WAF, and none for an empty list |
| WafStart.ChildInit | src/mod_coraza.c:1165-1277 | Afterwards every server, every tracked configuration with rules and every base with its server's rules has no WAF or one built from exactly its own list; server handles are distinct, each configuration holding its last one and each base its first; none is without one whose list the engine accepts; the same array has one WAF |
| WafStart.StartServers | src/mod_coraza.c:1183-1225 | One compilation per record; which handle every configuration and every base is left with |
| WafServing.Serve | src/mod_coraza.c:384-440 | A request, however the merges of its configuration nest, ends up with its own rules, or no WAF, if and only if the handle it inherits is 0 or was built from them; with none inherited it has one exactly when its list is cached or the engine accepts it; on which configurations the outcome stays |
| WafChild.ChildProcess.ResolveWaf | src/mod_coraza.c:400-440 | A configuration ends up running its own rules if and only if the WAF it has, or else the memo of its child, is 0 or was built from them; with neither, it has a WAF exactly when its list is cached or accepted, and is compiled only when the cache lacks it |
| WafServing.ServeAll | src/mod_coraza.c:384-440 | Over any run, however many lists and however full the cache: from right handles, if each configuration that keeps an outcome is only used for the same rules ever after, every request runs its own rules or none; if all do and no build failed, that is how they were used; when the engine accepts every list, all requests with rules run exactly their own if and only if they were so used; a list compiled twice was first compiled after 64 others |
| WafServing.MemoIgnoresThePath | src/mod_coraza.c:1019-1028 | A second request that takes its handle from the same configuration gets the WAF of the first and nothing corrects it: the right one exactly when both have the same rules |
| WafServing.SameRulesBefore | src/mod_coraza.c:1013-1023 | For the same last section that means the same rules before it |
| WafChild.ChildProcess.NeverCompiledTwice | src/mod_coraza.c:50-67 | What went into the cache is never compiled again; with at most 64 distinct lists in play, no list is |
| WafExit.ChildExit | src/mod_coraza.c:1290-1357 | Every handle reachable from the frozen configurations and the servers is freed exactly once, and of the handles ever built exactly those; none of these fields keeps one, for any sharing |
| WafLife.ChildLife | src/mod_coraza.c:1165-1357 | Start, any run of requests, exit, in one: agreement of what is served, exactly for stable runs when no build fails: if the engine accepts every list, all requests with rules run their own if and only if the run is stable; recompilation only of lists first compiled after 64 others; every handle freed was built and is freed once; no frozen or server field keeps one |
| WafLife.StartWafsAtExit | src/mod_coraza.c:1183-1225 | Of the WAFs compiled at start for server records, exit frees exactly the last of each configuration and those a frozen base without rules kept; a base that is not frozen keeps its handle |
| WafLife.RequestWafAtExit | src/mod_coraza.c:425-437 | A WAF compiled at request time is freed at exit if and only if it was remembered on a configuration that is frozen |
| WafExit.FreeDirConfs | src/mod_coraza.c:1303-1344 | The first pass frees each handle no server has, at its first occurrence only |
| WafExit.FreeServers | src/mod_coraza.c:1346-1354 | Server handles are freed once even when servers share a configuration |

## Left out

- Symbol loading and the forwarding wrappers of `src/mod_coraza_dl.c`: no logic.
- Rule evaluation, the Go runtime and the content of the audit log: the engine is an oracle.
- Directive tables, hook registration, log messages, the counting of rules and the start-up checks: plumbing.
- Handling of the Location header, protocol version selection and the event-stream media-type test: the last is a boolean of the response.
- The wording of the refusal message of `coraza_check_rules_text`, and files that cannot be opened.
- Read granularity of response buckets: a bucket that a read splits counts as the buckets it is split into.
- Wrap-around of `pending_len` and of the body counters, which would need more than 2^63 bytes in memory.
- The text kept between the lines of an action list: a line feed is kept here, but the verdict does not depend on it, since by then the first word is complete or holds a backtick.
- Bytes of rule text are characters; only ASCII letters fold case, as in the C locale.
- Memory ownership of buckets, temp file creation and pools: a save either fails, at any chunk, or keeps the bytes.
- Effects of an aborted connection inside httpd and what `ap_die` sends: recorded as a flag and an error page.
- The arguments of the connection, request-line and phase-3 status calls, and the request and response fields they come from.
- Loading the engine in `coraza_child_init`, and the list of configurations merged so far: the list is an argument there.
- Which sections apply to a request and in what order httpd merges them: any nesting of merges is covered.
- Configuration parsing: what directives store is constant in `DirConf`, where only the WAF handle changes.
- Threads: the cache section of `coraza_create_ctx` is one step, as its mutex makes it.
- `coraza_create_ctx` in the request hook: whether a transaction comes out of it is an input there; its WAF resolution is in `WafServing.dfy`.
- `apr_bucket_read`, `apr_bucket_split`, `apr_brigade_write`, `apr_brigade_partition` and `apr_brigade_split_line` are not part of this repository; they are given their documented behaviour on brigades of memory, file and EOS buckets.
