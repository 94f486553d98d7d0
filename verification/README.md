# termesh: edits, agents and small tables, modelled and proved

termesh is a terminal editor with an agent pane. This project models its hardest logic in Dafny and proves what
it is for.

* **Edits and review.** A document changes only by change sets (retain, delete, insert). `Change`, `ChangeSets`,
  `ChangeLaws`, `Edits`, `Survival`, `Positions`, `Uniqueness` and `Inverses` model applying, inverting, composing
  and mapping, and prove the laws, among them that an inverse touches no more than its change did. `Lines`,
  `Diffing`, `Accepting`, `Rebasing` and `Proposals` follow an agent's whole-file proposal from diff to hunks, across
  what the human typed meanwhile, to the one change that is accepted: a three-way merge. `Fates` tells what becomes
  of each hunk and decoration from the edits made. `Anchoring` places an edit given only as a fragment. `Timelines`,
  `Histories` and `Documents` are the undo log; `Decorations` the overlays that ride along with edits.
* **The agent translator.** `Translations` says what one message in either direction does to the translator's state,
  `Translators` is the object with its fields updated in place, proved to be at every moment what its whole history
  makes it. `Exchanges` turns a run into a log of what could be seen from outside, `Ledgers` shows that the tables
  are functions of that log, and `Answers` and `Calls` that every message means what was asked and every call is
  passed on as it was. `Conservation`, `Grants`, `Turns`, `Terminals`, `Handshakes`, `Strandings` and `Correlation`
  prove, over every run, that no call is dropped or answered twice, that one-shot grants are spent at most once and
  none outlives its session's next expiry, just when they stay within their turn, that terminals are named and used
  only by their owner until released, that holding requests before the handshake cannot be told from making them
  after it, when held requests go out at all, and that replies are told apart. Message kinds are those of sections 4,
  4.1 and 5 of the JSON-RPC 2.0 Specification.
* **Small tables.** `Utf16` (code units as in section 2 of RFC 2781), `Keymap` (chord grammar and printer),
  `Channels` (the bounded channel's depth counter, as a state machine over the atomic operations of any number of
  senders and one receiver) and `Searching` (the capped, sorted result list).

Each imperative method is proved equal to a function of the old state; the theorems are about those functions.
`dafny verify dfyconfig.toml` checks everything.

## Five promises the code does not keep

* **Text typed right behind a hunk is lost on accept.** Both ends of a hunk are mapped with `After`
  (`crates/agent/src/proposal.rs:209-210`), so an insertion exactly at a non-empty hunk's end falls inside the moved
  range while the hunk stays clean. `docs/adr/0006-transaction-spine.md:167` promises never to destroy human text
  silently. `Rebasing.RebaseMerges` gives the exact condition, checkable before accepting, and exactly what is left
  when it fails; `Proposals.InsertionAtEndIsLost` is a concrete case. The same boundary stretches decorations
  (`Decorations.SpanCoversSame`).
* **A one-shot grant can outlive its turn.** A permission prompt stays open when the turn it was raised in ends, and
  answering it then grants a launch in the next turn, against `crates/agent/src/protocol.rs:277-280` and
  `docs/adr/0008-terminal-service-and-acp-execution.md:238-240`. `Turns.LateAnswerReachesNextTurn` is such a run;
  `Turns.GrantEndsWithItsTurn` shows that a grant is confined to its turn exactly when its session is in a turn as
  the answer is encoded.
* **A refused handshake strands every request.** An error in reply to `initialize` is reported and forgotten
  (`crates/agent/src/protocol.rs:408-421`), so nothing held is ever sent, against
  `crates/agent/src/protocol.rs:361-363`. `Strandings.RefusedHandshakeStrands` shows it,
  `Strandings.HeldUntilAnswered` that requests go out exactly once a response to a handshake is heard.
* **A fragment found twice can be placed.** The second search starts behind the first match, so overlapping
  occurrences are not reported as ambiguous, against `crates/agent/src/proposal.rs:474-476`.
  `Anchoring.RefusedWhenTwice` shows that exactly the fragments with a border slip through.
* **The plus key cannot be written in a keymap file.** `Keymap.ChordRoundTrip` shows it is the only chord that does
  not survive printing and parsing, against `crates/config/src/keymap_file.rs:150-152`.

## Model

| member | source | states |
|---|---|---|
| `Change.PushesKeepCanonical` | crates/editor/src/change.rs:398-459 | retain, delete and insert keep a change canonical: nothing empty, no two of a kind side by side, a deletion before an insertion |
| `Change.PushRetainApplies` | crates/editor/src/change.rs:412-423 | one more retain copies exactly the next chars of the document |
| `Change.PushDeleteApplies` | crates/editor/src/change.rs:425-445 | one more deletion skips the next chars, also when it slides in front of a trailing insertion |
| `Change.PushInsertApplies` | crates/editor/src/change.rs:447-459 | one more insertion adds its text and consumes nothing |
| `Change.ComposeIsSequence` | crates/editor/src/change.rs:287-363 | a composed change does what its two changes do one after the other, on every document |
| `Change.InvertUndoes` | crates/editor/src/change.rs:159-188 | the inverse taken on the pre-image leads the changed document back to it |
| `ChangeSets.ChangeSetBuilder.constructor` | crates/editor/src/change.rs:80-83 | a builder starts with nothing consumed |
| `ChangeSets.ChangeSetBuilder.Retain` | crates/editor/src/change.rs:412-423 | the builder's operations become those with a retain pushed |
| `ChangeSets.ChangeSetBuilder.Delete` | crates/editor/src/change.rs:425-445 | the builder's operations become those with a deletion pushed, merged before a trailing insertion |
| `ChangeSets.ChangeSetBuilder.Insert` | crates/editor/src/change.rs:447-459 | the builder's operations become those with an insertion pushed |
| `ChangeSets.ChangeSetBuilder.Build` | crates/editor/src/change.rs:461-479 | the rest of the document is retained, so input and output lengths are exact |
| `ChangeSets.Replace` | crates/editor/src/change.rs:91-95 | a replacement splices its text over the range and leaves everything else |
| `ChangeSets.ApplyTo` | crates/editor/src/change.rs:149-157 | the loop over operations yields the applied text |
| `ChangeSets.InverseOf` | crates/editor/src/change.rs:179-188 | the loop over operations yields the inverse change, the one `Inverses.InverseMirrors` says touches only what was touched |
| `ChangeSets.MapPosition` | crates/editor/src/change.rs:209-233 | the loop over operations yields the mapped position |
| `ChangeSets.EffectOn` | crates/editor/src/change.rs:257-285 | the loop over operations yields how a change disturbs a range, deletion outranking insertion |
| `ChangeSets.ComposeWith` | crates/editor/src/change.rs:295-363 | the loop over both operation lists yields the composition |
| `ChangeSets.InvertRoundTrip` | crates/editor/src/change.rs:159-188 | inverting is well formed, fits the changed text and restores the original |
| `ChangeSets.ComposeRoundTrip` | crates/editor/src/change.rs:287-363 | composing is well formed and equals applying both in order |
| `ChangeSets.IdentityChangesNothing` | crates/editor/src/change.rs:109-112 | a change counts as none if and only if it leaves every document as it is |
| `Inverses.InverseMirrors` | crates/editor/src/change.rs:159-188 | an inverse makes one edit for each edit of the change, where that edit's text now stands, over exactly that text, putting back what was replaced, and nothing else |
| `Inverses.InvertTwice` | crates/editor/src/change.rs:159-188 | inverting the inverse gives the change itself, operation for operation |
| `ChangeLaws.EffectDeterminesChange` | crates/editor/src/change.rs:398-403 | two canonical changes that do the same to every document are the same change |
| `ChangeLaws.ComposeAssociative` | crates/editor/src/change.rs:664-674 | composition is associative operation for operation, not only in effect |
| `ChangeLaws.ComposeIdentity` | crates/editor/src/change.rs:677-681 | composing with the identity on either side changes nothing |
| `ChangeLaws.EditsApply` | crates/editor/src/change.rs:149-157 | applying a change is splicing its separate edits into the document |
| `Uniqueness.EffectDeterminesEdits` | crates/editor/src/change.rs:398-403 | separated edits with the same effect on every document are the same edits |
| `Positions.EditsSeparated` | crates/editor/src/change.rs:398-403 | a canonical change is a list of ordered edits with untouched text between any two |
| `Positions.EditsSplice` | crates/editor/src/change.rs:149-157 | applying from any operation on is splicing the edits from there |
| `Positions.MapIsMove` | crates/editor/src/change.rs:190-233 | mapping a position with After is moving it past every edit that starts at or before it |
| `Positions.SidesOfAnEdit` | crates/editor/src/change.rs:203-233 | the two associations differ at a position by the text of the edit that ends there, and nowhere else |
| `Positions.UntouchedIsClear` | crates/editor/src/change.rs:235-285 | a range is untouched exactly when every edit ends at or before its start or starts at or behind its end |
| `Edits.MoveMonotone` | crates/editor/src/change.rs:190-233 | moved positions keep their order and stay in the new document |
| `Edits.MoveEditsOrdered` | crates/agent/src/proposal.rs:205-212 | edits clear of the others stay ordered and disjoint when both their ends are moved |
| `Edits.MergeSplices` | crates/agent/src/proposal.rs:174-214 | splicing moved edits into the changed text gives the text of both lists spliced into the original, exactly when no insertion sits at the end of a moved non-empty edit; else it is shorter |
| `Survival.MovedIsKept` | crates/agent/src/proposal.rs:205-212 | in every case that text is both lists spliced into the original but for the insertions so swallowed |
| `Survival.AllSurvive` | crates/agent/src/proposal.rs:205-212 | all edits survive exactly when none is swallowed |
| `Edits.RangeMoves` | crates/editor/src/decoration.rs:178-197 | a range clear of every edit moves onto the same text, followed by what was inserted at its end |
| `Lines.LineOffsets` | crates/agent/src/proposal.rs:117-126 | the loop yields the char offset of every line start and of the end |
| `Lines.LinesBetween` | crates/agent/src/proposal.rs:112-126 | the chars between two line starts are exactly those lines |
| `Lines.SplitsIntoLines` | crates/agent/src/proposal.rs:112-126 | no line is empty, and a line break ends every line but perhaps the last and stands nowhere else |
| `Lines.LinesAreSplit` | crates/agent/src/proposal.rs:112-126 | lines put together split into the same lines: there is one way only to read a text as lines |
| `Diffing.DiffIsExact` | crates/agent/src/proposal.rs:132-152 | for every valid script, the hunks are ordered, in bounds, and splicing all of them into the old text gives the new one |
| `Diffing.HunksStartClean` | crates/agent/src/proposal.rs:132-152 | derived hunks start out clean |
| `Diffing.HunksAreSteps` | crates/agent/src/proposal.rs:128-151 | one hunk for each step of the diff that changes something, in order, from the chars before its lines to those up to their end |
| `Accepting.InOrderKeeps` | crates/agent/src/proposal.rs:157-160 | sorting hunks by position keeps them pairwise apart and in bounds |
| `Accepting.BuildApplies` | crates/agent/src/proposal.rs:157-171 | the change built from ordered edits covers the whole document and splices exactly them |
| `Accepting.BuildRoundTrip` | crates/agent/src/proposal.rs:157-171 | reading the edits back out of the built change gives the separated edits put in |
| `Accepting.ChangesetFromHunks` | crates/agent/src/proposal.rs:157-171 | for hunks in any order that do not overlap, the retain subtraction never saturates and the change splices exactly those hunks |
| `Accepting.TiesKeepListing` | crates/agent/src/proposal.rs:158-159 | two insertions at one place are made in the order they are listed in |
| `Rebasing.CatchUpIsExact` | crates/agent/src/proposal.rs:185-189 | the catch-up change takes the base to the current text exactly |
| `Rebasing.HumanEditsAreHunks` | crates/agent/src/proposal.rs:185-189 | the human's edits are the hunks of the diff from base to current |
| `Rebasing.RebaseMerges` | crates/agent/src/proposal.rs:174-214 | three-way merge: accepting the clean hunks gives the base with the kept agent edits and the human's edits spliced in together, but for the human insertions that sit exactly where a kept non-empty hunk ends; so nothing the human typed is lost if and only if there is none |
| `Fates.TouchMeans` | crates/editor/src/change.rs:255-285 | a range is partly deleted if and only if an edit replaces one of its chars, or all around an anchor; edited inside if and only if not that and something was inserted between two of its chars |
| `Fates.HunksAreClassified` | crates/agent/src/proposal.rs:180-213 | each hunk of a review, exactly: satisfied where the human made the very same change, in conflict for the reason that holds where the human replaced or typed into its range, else as it was and moved along |
| `Rebasing.AcceptanceIsWellFormed` | crates/agent/src/proposal.rs:157-214 | any selection of clean hunks, in any order, lies apart inside the current text |
| `Rebasing.PicksMerge` | crates/agent/src/proposal.rs:157-214 | accepting any of the clean hunks, as the review lists them, merges exactly the picked agent edits and the human's edits, but for the human insertions a picked hunk swallows |
| `Proposals.RebaseHunks` | crates/agent/src/proposal.rs:180-214 | the array is rebased in place: satisfied, conflicted with a reason, or moved |
| `Proposals.EditProposal.constructor` | crates/agent/src/proposal.rs:73-87 | a new proposal holds the review of its two texts against the current one |
| `Proposals.EditProposal.Refresh` | crates/agent/src/proposal.rs:93-96 | hunks are recomputed from the two original texts, whatever they were before |
| `Proposals.EditProposal.AcceptAll` | crates/app/src/model.rs:4114-4128 | on a refreshed proposal the buffer gets that merged text in one transaction of the agent's, and nothing happens when no hunk applies; no hunk applies and none conflicts exactly when the review is settled |
| `Proposals.EditProposal.AcceptedChange` | crates/app/src/model.rs:4114-4121 | the one change of the buffer that this transaction carries |
| `Proposals.DoneIsSettled` | crates/agent/src/proposal.rs:191-204 | once the text is what was proposed, every hunk reports itself done |
| `Proposals.BackToBase` | crates/agent/src/proposal.rs:88-96 | refreshed on its own base every hunk is clean and accepting all gives the proposed text |
| `Proposals.InsertionAtEndIsLost` | crates/agent/src/proposal.rs:205-212 | a line typed just behind a rewritten line leaves the hunk clean and is removed on accept |
| `Anchoring.FragmentIsPlaced` | crates/agent/src/proposal.rs:489-517 | a fragment is placed exactly when it is non-empty, occurs, and does not start again at or behind its first occurrence's end; each refusal's meaning |
| `Anchoring.OutsideSurvives` | crates/agent/src/proposal.rs:512-516 | everything outside the placed window is kept |
| `Anchoring.BorderSlipsThrough` | crates/agent/src/proposal.rs:504-510 | a fragment with a border is placed in a text where it occurs twice |
| `Anchoring.RefusedWhenTwice` | crates/agent/src/proposal.rs:474-476 | a fragment is placed only where it occurs once, in every text, exactly when it has no border |
| `Histories.History.GroupFor` | crates/editor/src/history.rs:49-62 | free typing joins the newest run and is the only source that does; anything else gets the next id |
| `Histories.History.BreakGroup` | crates/editor/src/history.rs:67-69 | the next edit starts its own run |
| `Histories.History.Push` | crates/editor/src/history.rs:73-90 | a change is recorded and the redo stack dropped; an identity change does neither |
| `Histories.History.Undo` | crates/editor/src/history.rs:104-122 | the whole newest run moves over, newest first, and its inverses come back composed |
| `Histories.History.Redo` | crates/editor/src/history.rs:125-142 | the whole newest undone run moves back and its changes come back composed |
| `Timelines.UndoKeeps` | crates/editor/src/history.rs:104-122 | undoing keeps the log linked and its runs whole |
| `Timelines.RedoKeeps` | crates/editor/src/history.rs:125-142 | redoing keeps the log linked and its runs whole |
| `Timelines.PushKeeps` | crates/editor/src/history.rs:73-90 | recording on top keeps the log linked whatever the group, and groups rising when it is the top run's or a later one |
| `Timelines.RedoAfterUndo` | crates/editor/src/history.rs:104-142 | redo right after undo restores document and log |
| `Timelines.UndoAfterRedo` | crates/editor/src/history.rs:104-142 | undo right after redo restores document and log |
| `Timelines.FoldWalks` | crates/editor/src/history.rs:104-142 | the composition of a run of steps leads from its first document to its last |
| `Timelines.UndoWalks` | crates/editor/src/history.rs:104-122 | the one change undo returns leads from the current document to the one before the run's first edit |
| `Timelines.RedoWalks` | crates/editor/src/history.rs:125-142 | the one change redo returns leads from the current document to the one behind the run |
| `Documents.GroupIsTopOrFresh` | crates/editor/src/history.rs:49-62 | a group handed out is the top one or exceeds every id in both stacks |
| `Documents.NextKeeps` | crates/editor/src/buffer.rs:263-305 | edits, transactions of any group, breaks, undos and redos all keep the log valid, and groups rising when they may |
| `Documents.LogReplays` | crates/editor/src/history.rs:49-142 | after any run, applied entries rebuild the text and undone ones replay from it, and no run spans both; groups are contiguous and on one side when every transaction carries the top group or a later one |
| `Documents.UndoAll` | crates/editor/src/history.rs:311-328 | enough undos from any point bring the first document back |
| `Documents.RecordThenUndo` | crates/editor/src/history.rs:264-282 | a change that starts its own run is exactly one undo from gone |
| `Documents.OthersUndoAlone` | crates/editor/src/transaction.rs:44-50 | in every session, an edit from any source but the keyboard is one undo from gone, whatever came before it |
| `Documents.KeystrokeStartsRun` | crates/editor/src/history.rs:45-62 | a keystroke behind anything but another keystroke is one undo from gone |
| `Documents.KeystrokesRunTogether` | crates/editor/src/history.rs:45-62 | two keystrokes in a row are undone by one undo |
| `Documents.PausedKeystrokesPart` | crates/editor/src/history.rs:45-71 | with a break between them each is undone by its own |
| `Documents.PutThenUndo` | crates/editor/src/history.rs:264-282 | changes put under one group of their own are together exactly one undo from gone |
| `Documents.Document.Transact` | crates/editor/src/buffer.rs:263-266 | a transaction carries the current version and its group |
| `Documents.Document.Apply` | crates/editor/src/buffer.rs:273-305 | stale and ill-fitting transactions are refused and change nothing; others, of whatever group, move text, version and log together |
| `Documents.Document.Edit` | crates/editor/src/buffer.rs:308-320 | an edit is a transaction applied at once |
| `Documents.Document.Undo` | crates/editor/src/buffer.rs:464-472 | undo walks the document and the log back together |
| `Documents.Document.Redo` | crates/editor/src/buffer.rs:474-482 | redo walks the document and the log forth together |
| `Decorations.DecorationSet.Push` | crates/editor/src/decoration.rs:123-125 | a decoration is added last |
| `Decorations.DecorationSet.Retain` | crates/editor/src/decoration.rs:143-164 | keeping by a test keeps exactly those passing, in order |
| `Decorations.DecorationSet.Map` | crates/editor/src/decoration.rs:178-197 | in place, every decoration is moved, conflicted or dropped as its class says |
| `Decorations.DecorationSet.ClearDerived` | crates/editor/src/decoration.rs:156-158 | derived spans go, the rest stays in order |
| `Decorations.DecorationSet.RemoveProposal` | crates/editor/src/decoration.rs:161-165 | the hunks of that proposal go |
| `Fates.DecorationsAreCarried` | crates/editor/src/decoration.rs:168-202 | one by one and in order: what is derived goes if and only if its range was disturbed, a hunk stays and is marked with the reason, the rest move along |
| `Decorations.KeepIsOneByOne` | crates/editor/src/decoration.rs:138-165 | what a filter keeps is decided one by one, and the order stays |
| `Decorations.AllButHunksIsDerived` | crates/editor/src/decoration.rs:155-158 | clearing what is derived leaves the hunks and nothing else |
| `Decorations.MapKeepsReview` | crates/editor/src/decoration.rs:178-197 | no hunk is lost or reordered, and a conflicted one stays conflicted |
| `Decorations.ReviewsSurvive` | crates/editor/src/decoration.rs:178-197 | the same through any sequence of changes |
| `Decorations.SpanCovers` | crates/editor/src/decoration.rs:178-197 | a surviving span covers its old chars and then what was inserted at its end |
| `Decorations.SpanCoversSame` | crates/editor/src/decoration.rs:178-197 | a surviving span covers exactly the same chars if and only if nothing was inserted at its end |
| `Decorations.SpanCoversThroughout` | crates/editor/src/decoration.rs:178-197 | the same through any sequence of changes with nothing inserted at its end |
| `Decorations.KeepingHunks` | crates/editor/src/decoration.rs:143-158 | clearing derived spans leaves every hunk |
| `Decorations.RemovingProposal` | crates/editor/src/decoration.rs:161-165 | of the hunks, exactly that proposal's go |
| `Decorations.LineInOrder` | crates/editor/src/decoration.rs:204-219 | the line's list is a permutation of the clipped items, by start and then by end, those alike in both as they were pushed, and in bounds |
| `Decorations.DrawnTogether` | crates/editor/src/decoration.rs:204-219 | what is drawn of two lists together is what is drawn of each |
| `Decorations.DrawnOnce` | crates/editor/src/decoration.rs:204-229 | one decoration has one entry on each line it reaches, of its own class, cut at the line's ends |
| `Decorations.LineClippingLosesNothing` | crates/editor/src/decoration.rs:204-229 | over any tiling of the document, what the line lists draw of a decoration is exactly its text |
| `Decorations.DrawnAmongAll` | crates/editor/src/decoration.rs:204-219 | what is drawn of one decoration alone is drawn among all of them |
| `Decorations.PieceIsIntersection` | crates/editor/src/decoration.rs:204-229 | a piece is what decoration and line share |
| `Decorations.AnchorShows` | crates/editor/src/decoration.rs:224-229 | a zero-width anchor is drawn on some line of any tiling |
| `Agents.ChoiceKeepsDirection` | crates/agent/src/protocol.rs:889-908 | the option chosen says what the human said or its once form, never the opposite; none only if neither was offered |
| `Answers.PromptsAreAnswered` | crates/agent/src/protocol.rs:233-253 | over every run, what is written for a decision replies to the call that raised the prompt, names the first option offered of the very kind chosen, else of its once form, and selects nothing exactly where neither was offered |
| `Answers.CancelledPromptsAreAnswered` | crates/agent/src/protocol.rs:254-260 | a cancelled prompt is answered, once, with nothing selected |
| `Answers.ReadsAreAnswered` | crates/agent/src/protocol.rs:218-232 | contents reply to the call that raised the read, and a file that cannot be read is an error and no empty text |
| `Answers.CallsAreAnswered` | crates/agent/src/protocol.rs:285-343 | what is written for a terminal call replies to the call that raised it, with the answer its operation calls for, or refuses for a reason that holds |
| `Answers.RequestsReachTheirSession` | crates/agent/src/protocol.rs:184-271 | a prompt, mode change or cancel goes to its own session under the name that was opened with, the context first; for a session never opened nothing is written |
| `Answers.ResponsesMeanTheirCall` | crates/agent/src/protocol.rs:356-406 | over every run, a response does what the call it answers was for: it ends that session's turn for the reason given, changes to the mode asked for, opens one more session, or nothing if no such call is waited for |
| `Answers.ErrorsMeanTheirCall` | crates/agent/src/protocol.rs:408-421 | an error is reported against the session whose prompt or mode change it answers |
| `Answers.TranscriptIsComplete` | crates/agent/src/protocol.rs:423-558 | over every run, all the agent says to a session is passed on in order and unchanged: words as words, thoughts as thoughts, every edit shown or written as one to review, every change of mode |
| `Calls.CallsAreHeard` | crates/agent/src/protocol.rs:502-698 | over every run, what the agent calls for is raised under the next id against the session named, or refused at once with the code that tells why |
| `Calls.IdsCountUp` | crates/agent/src/protocol.rs:455-698 | over every run, reads, edits, prompts and terminal calls are numbered together from one in the order raised, none left out and none twice |
| `Calls.ShutdownPasses` | crates/agent/src/protocol.rs:163-169 | being told to stop writes nothing and is never held |
| `Ledgers.TablesAreTheLog` | crates/agent/src/protocol.rs:171-342 | after every run a read, prompt or terminal call is held under an id, for a wire id, if and only if the log raised it under that id on hearing that call and has not answered it since; likewise calls of ours |
| `Ledgers.SessionsAreTheLog` | crates/agent/src/protocol.rs:128-134 | after every run a session is known by the name it was opened under, and a name stands for the session first opened under it |
| `Agents.OutputLimit` | crates/agent/src/protocol.rs:834-842 | a limit asked for is kept up to the cap, an absent one is the default, and only a field that is no number is refused |
| `Decimals.DecimalRoundTrip` | crates/agent/src/protocol.rs:304 | a terminal's number reads back from its decimal name |
| `Conservation.RepliesAreConserved` | crates/agent/src/protocol.rs:163-342 | over every run the calls heard are, counted with repetition, those answered and those held in the three tables |
| `Conservation.RunIsSane` | crates/agent/src/protocol.rs:43-62 | ids in the tables were handed out and sessions are numbered from one, after every run |
| `Conservation.EncodeBalances` | crates/agent/src/protocol.rs:171-342 | an encoded request answers exactly the held call it removes |
| `Conservation.RequestBalances` | crates/agent/src/protocol.rs:500-698 | an agent's call is answered at once or held, never both and never neither |
| `Conservation.HearBalances` | crates/agent/src/protocol.rs:345-455 | nothing else an agent sends answers or drops a call |
| `Grants.GrantsAreSpentOnce` | crates/agent/src/protocol.rs:233-283 | for every session and exact launch, since the last expiry, launches let through plus unspent grants are the allowances given |
| `Grants.LaunchIsPreauthorizedExactly` | crates/agent/src/protocol.rs:627-655 | a well-formed launch is let through unasked if and only if an allowance for it is left |
| `Grants.HearSpends` | crates/agent/src/protocol.rs:391-421 | hearing a message expires or spends grants exactly as the events it raises say |
| `Grants.EncodeEarns` | crates/agent/src/protocol.rs:233-268 | an answer earns a grant exactly when it allows, an option is selected and the prompt named the launch; a cancel expires |
| `Turns.GrantEndsWithItsTurn` | crates/agent/src/protocol.rs:276-283 | a grant is spent or expired in every run that sees the turn over in which it was given, if and only if its session is in a turn when the answer is encoded |
| `Turns.GrantReachesNextTurn` | crates/agent/src/protocol.rs:233-244 | a grant unspent when its session is prompted again lets a launch of that turn through unasked |
| `Turns.LateAnswerReachesNextTurn` | crates/agent/src/protocol.rs:233-244 | a whole run from the start in which this happens |
| `Turns.TurnOutlastsGrant` | crates/agent/src/protocol.rs:383-421 | through any run a turn goes on until its session's grants are gone |
| `Terminals.NamesAreABijection` | crates/agent/src/protocol.rs:294-311 | after every run each terminal has one wire name and each name one terminal |
| `Terminals.OperationsAreOwned` | crates/agent/src/protocol.rs:656-686 | a call on a terminal is raised if and only if its name is that of a terminal this known session launched and has not released, else refused at once |
| `Terminals.AttachmentsOutliveRelease` | crates/agent/src/protocol.rs:481-492 | any name resolves to an attachment if and only if it is that of a terminal this session launched, released or not |
| `Terminals.ReleaseIsFinal` | crates/agent/src/protocol.rs:321-329 | after an acknowledged release no call on that name is raised, for the rest of the run |
| `Terminals.AnswerStanding` | crates/agent/src/protocol.rs:285-342 | an answer binds or releases its own terminal and touches no other |
| `Exchanges.RunIsPlayed` | crates/agent/src/protocol.rs:356-369 | a run is the same as its smallest steps: state, messages and events |
| `Handshakes.QueueingIsInvisible` | crates/agent/src/protocol.rs:163-169 | holding requests until the handshake reply gives the state, messages and events over the run of making them just after it |
| `Handshakes.HoldingSetsAside` | crates/agent/src/protocol.rs:163-169 | until the handshake everything else goes on as if the requests had not been made |
| `Handshakes.IssuingIsDraining` | crates/agent/src/protocol.rs:358-369 | draining the queue is issuing its requests one by one |
| `Strandings.HeldUntilAnswered` | crates/agent/src/protocol.rs:356-369 | over every run requests go out if and only if a response to a handshake was heard; until then all are held, in order, and nothing they ask for is written |
| `Strandings.StrandedForGood` | crates/agent/src/protocol.rs:408-421 | with no handshake under way and none started again, no request is ever sent |
| `Strandings.RefusedHandshakeStrands` | crates/agent/src/protocol.rs:408-421 | a first handshake answered with an error strands whatever is asked, however the run goes on |
| `Correlation.ReadyHoldsNothing` | crates/agent/src/protocol.rs:163-169 | once ready the queue stays empty |
| `Correlation.RequestIdsNeverRepeat` | crates/agent/src/jsonrpc.rs:123-137 | of any two calls written the later carries the larger id |
| `Correlation.ResponsesCountOnce` | crates/agent/src/protocol.rs:356-406 | a response has an effect if and only if its call is waited for, and after any reply to a call none ever has |
| `Correlation.StrayErrorIsReported` | crates/agent/src/protocol.rs:408-421 | an error for a call nobody waits for is still reported, against no session |
| `Translators.Translator.constructor` | crates/agent/src/protocol.rs:104-106 | a new translator has heard nothing |
| `Translators.Translator.Greet` | crates/agent/src/protocol.rs:109-126 | the handshake is sent and recorded |
| `Translators.Translator.Send` | crates/agent/src/protocol.rs:163-169 | a request is held or encoded; the fields stay what the whole history makes them |
| `Translators.Translator.Receive` | crates/agent/src/protocol.rs:345-354 | a message is absorbed; the fields stay what the whole history makes them |
| `Translators.Translator.Encode` | crates/agent/src/protocol.rs:171-275 | field by field, the effect of encoding one request, whose message `Answers` ties to what was asked |
| `Translators.Translator.EncodeTerminalResponse` | crates/agent/src/protocol.rs:285-342 | field by field, the effect of answering a terminal call |
| `Translators.Translator.ExpireTerminalGrants` | crates/agent/src/protocol.rs:281-283 | the grants left are those of other sessions, in order |
| `Translators.Translator.OnResponse` | crates/agent/src/protocol.rs:356-406 | field by field, the effect of a response, with the drain loop |
| `Translators.Translator.OnError` | crates/agent/src/protocol.rs:408-421 | field by field, the effect of an error |
| `Translators.Translator.OnNotification` | crates/agent/src/protocol.rs:423-453 | what an update raises |
| `Translators.Translator.EventsFromToolCall` | crates/agent/src/protocol.rs:455-496 | what the pieces of a tool call raise, in order, and the ids they use |
| `Translators.Translator.OnRequest` | crates/agent/src/protocol.rs:502-698 | field by field, the effect of an agent's call, which is what `Calls.CallsAreHeard` says of it |
| `Utf16.Utf16RoundTrip` | crates/editor/src/position.rs:10-32 | an offset comes back from its position if and only if line and column fit 32 bits |
| `Utf16.DecodingGivesText` | crates/editor/src/position.rs:10-17 | the code units of a text, one below 0x10000 and else a surrogate pair, decode to that text |
| `Utf16.WidthIsEncoded` | crates/editor/src/position.rs:10-17 | the width of a stretch is the number of code units of its encoding |
| `Utf16.PositionCounts` | crates/editor/src/position.rs:10-17 | a position is the number of line breaks before it and the code units between its line's start and it |
| `Utf16.ShortTextFits` | crates/editor/src/position.rs:15 | they do for every text of fewer than 2^31 chars |
| `Utf16.Utf16PositionsRise` | crates/editor/src/position.rs:10-16 | positions, in the code units of `Utf16.WidthIsEncoded`, rise strictly with offsets |
| `Utf16.PositionsClamp` | crates/editor/src/position.rs:18-32 | any request maps to the greatest offset of that line not past it, mid-pair and out of range included, or to the document's end |
| `Utf16.LineSpan` | crates/editor/src/position.rs:22-30 | the offsets on a line are those from its start to its content's end |
| `Keymap.ParseChord` | crates/config/src/keymap_file.rs:153-174 | the loop over modifiers yields the parsed chord or the first error |
| `Keymap.RenderChord` | crates/config/src/keymap_file.rs:219-232 | the printed chord is its modifiers and key joined by plus signs |
| `Keymap.ChordRoundTrip` | crates/config/src/keymap_file.rs:150-256 | a printed chord reads back as itself if and only if its key is not the plus sign |
| `Keymap.FunctionKeyReads` | crates/config/src/keymap_file.rs:197-203 | every F0 to F255 reads back |
| `Keymap.ModsAreThoseMentioned` | crates/config/src/keymap_file.rs:161-170 | parsing succeeds on exactly the known modifier names and sets exactly those mentioned |
| `Keymap.ParsingIgnoresForm` | crates/config/src/keymap_file.rs:150-174 | order, case and repetition of modifiers and the case of a named key do not matter |
| `Keymap.PrintingNormalises` | crates/config/src/keymap_file.rs:150-256 | whatever was read prints to a text that reads the same |
| `Keymap.KeySpellings` | crates/config/src/keymap_file.rs:176-215 | every spelling a key is read from and no other: its names and aliases in any case, f and its number, or the very character |
| `Keymap.RefusalsSayWhy` | crates/config/src/keymap_file.rs:153-174 | a refusal names the part at fault: no key, an unknown modifier, or more than one character that names no key |
| `Channels.DepthIsExact` | crates/app/src/main.rs:207-262 | under every interleaving depth is queued plus in flight plus not yet counted, never below the queue, and the queue's length exactly when all are idle |
| `Channels.DecrementsAreExact` | crates/app/src/main.rs:208-241 | no decrement saturates or wraps, also after the receiver is gone |
| `Channels.DroppedDepthRests` | crates/app/src/main.rs:208-215 | with the receiver gone the counter rests at the messages lost with it |
| `Channels.FirstInFirstOut` | crates/app/src/main.rs:264-268 | messages taken and messages queued are those put in, in order |
| `Searching.MatchesAreOrdered` | crates/app/src/search_state.rs:113-119 | ordering by path, line and column is a total preorder |
| `Searching.ListedByPathLineColumn` | crates/app/src/search_state.rs:113-119 | one find is listed before another by path component by component, then by line, then by column, absent first |
| `Searching.ResultsAreTheFirst` | crates/app/src/search_state.rs:94-125 | the results are sorted and a permutation of the first 1000 finds, those of one place as they came |
| `Searching.BatchesAddUp` | crates/app/src/search_state.rs:101-119 | a batch sorted in on top gives what all finds sorted together would, ties included |
| `Searching.IncludedOneByOne` | crates/app/src/search_state.rs:101-110 | a find is left out exactly when its file is excluded, and the others keep their order |
| `Searching.SearchOverlay.ReplaceResults` | crates/app/src/search_state.rs:94-99 | the list is the first 1000 given, sorted, and the selected place is moved back inside it |
| `Searching.SearchOverlay.AppendResults` | crates/app/src/search_state.rs:101-110 | the finds outside excluded files are added up to the limit and sorted in; the selected place stays, whatever stands there now |
| `Searching.SearchOverlay.SetLiveResults` | crates/app/src/search_state.rs:172-175 | the live results take over and their files are excluded from then on |
| `Searching.SearchOverlay.Refilter` | crates/app/src/search_state.rs:112-125 | sorted, the first 200 visible, the selection clamped |
| `Searching.SearchOverlay.MoveDown` | crates/app/src/search_state.rs:78-82 | one down, around the end |
| `Searching.SearchOverlay.MoveUp` | crates/app/src/search_state.rs:84-88 | one up, around the start |
| `Searching.SearchOverlay.Selected` | crates/app/src/search_state.rs:90-92 | there is a selected result exactly when anything was found |

## Left out

- The diff library: any valid line edit script stands for it; its choice of script is not modelled.
- Rope internals: text is a sequence of chars, lines end at `\n` only, as the buffer normalises on load; the other
  line breaks the rope library knows are not modelled.
- JSON and TOML text: messages come with their fields already parsed, a field of the wrong type counting as absent;
  a call whose id is not a number is read as a notification by `crates/agent/src/jsonrpc.rs:83-96` and never reaches
  this model.
- How a terminal launch is parsed from its parameters (`crates/agent/src/protocol.rs:730-842`) but for the output
  limit: the parsed launch or the reason for refusing it is a parameter.
- The wording of error messages: a reason stands for each.
- Machine widths: counters are unbounded but for the two casts in `Utf16`; the request counter, the channel's depth
  and text lengths would need 2^64 steps, senders or chars to differ.
- Threads, pipes, process handling and the main loop around the translator and the channel; the translator is
  called by one thread only. The channel's steps are atomic and sequentially consistent, in place of relaxed
  atomics on one counter.
- Undo beside the log: selections, pending-change queues, dirty flags and rendering of a buffer.
- The review loop outside the accept itself: a proposal is taken to be refreshed against the buffer it is accepted
  into, as `crates/app/src/model.rs:4486` does after every edit; base versions of proposals are not modelled.
- Files mode of the search overlay, its ranker and previews; paths are lists of components compared as text.
- Rows of `apply_keymap_file` (`crates/config/src/keymap_file.rs:110-145`): lookups and diagnostics only.
- Rebasing.PicksMerge: says nothing of picks listed in another order than the review's, because two insertions carried
  to the same place are made in the order they are listed in (`Accepting.TiesKeepListing`).
- Covering spans of a change (`crates/editor/src/change.rs:114-133`), git, language-server, task and settings state:
  they would only add easy members.
