# Lucy, modelled and proved

A Dafny model of five parts of Lucy, with proofs of what they promise:

1. **The context budget.** `Bands` specifies the allocator that fits prompt sections into band ceilings, for an
   arbitrary token counter; `Allocator` is the same thing as it runs, mutating entries in place, proved equal to the
   specification. `Projection` and `Projector` do the same for the history projection. `BandsProofs`, `Accounting`,
   `Isolation`, `Shortening`, `Ledger`, `ProjectionProofs`, `Prompt`, `Coverage`, `History` and `Survival` hold the
   theorems, the last two across both.
2. **The text boundary.** `Patterns` gives the scrub rules' regular expressions a meaning on ASCII text, `Rules` the
   theory of rules that escape one character beside a pattern, `Scrub` the six rules themselves, `ScrubTree` the walk
   over structured results; `OnePass` and `LookAlikes` say in characters what fencing does to a text. `Framing` and
   `Claims` are the two frames; `Containment`, `Delimiters` and `ClaimsProofs` prove that nothing gets out of them, and
   `Provenance` what they say of where it came from.
3. **The delegation scheduler.** `Tasks` and `Scheduler` are the state machine, `CoderService` the object that runs it,
   `TaskFields` what each operation leaves in a row, and `SchedulerProofs`, `PumpProofs`, `TurnsProofs` and `Revivals`
   what every run keeps.
4. **UTF-8 windows.** `Utf8` is the encoding of section 3 of RFC 3629 and a strict incremental decoder for the syntax
   of section 4; `Windows` reads files through byte windows.
5. **Caches and a cut.** `Lru`, `CountCache` and `TokenCache` are the two bounded tables, `LiveLines` the line cut
   whose notice decides its own length.

`Sorting`, `Text` and `Numbers` hold what the others share.

Specification functions say what is computed; methods and classes with loops and updates follow the source's own
control flow and are proved to compute exactly those functions; the lemmas are about the functions.

## Findings

Places where a promise of the code or its documentation holds only under a condition. Each has the exact condition as
a lemma, and an input or a run that breaks the promise.

- Snapping a compaction widens once. Every request then covers whole turns exactly when no two turns cross
  (`WholeTurnsExactly`); two interleaved turns are split (`InterleavedTurnIsSplit`).
- The documentation of `Item` says an entry with no turn is never inside a compacted range. The code covers any entry
  whose sequence number falls in the snapped range of a shown compaction (`CoveredExactly`), and a request for an entry
  by itself always covers it (`AskedForIsCovered`). So the promise holds, whatever is compacted, exactly for transcripts
  with no turnless entry (`TurnlessKeptOutExactly`). Nobody need ask for the entry itself: in `TurnlessEntryIsCovered`
  it goes with the turn around it. The model follows the code.
- Age priorities are distinct up to exactly 71 verbatim entries (`SeventyOneRungs`), and that is also exactly how far
  what is read is sure to be the newest entries, for each counter that goes by length, the default one included: at
  every greater length some older entry outlives a newer one (`NewestSurviveExactly`, `DefaultSurvivesExactly`,
  `OlderOutlivesNewer`).
- A message to a cancelled task whose killed turn has not settled starts a second turn on one session. That is the only
  step that breaks one turn per task (`OneTurnExactly`), and `TwoTurnsOnOneTask` is the run.
- A message is said to resume the session of an ended task. When no turn of the task is unsettled, its next turn, over
  every run that follows, does so exactly when some turn had been counted when the message came
  (`RevivedRunsMessageExactly`). A task interrupted in its first turn has none: the turn its message starts runs the
  brief from the beginning while the message waits for the turn after (`BriefRunsAgain`). When the killed turn is still
  unsettled it can be counted later, and the count at the time of the message decides nothing (`HastyMessageResumes`).
- The reply that a message waits for the end of the current turn is wrong exactly when the message woke a task with a
  turn counted, nothing already waiting, and fewer tasks queued ahead of it than slots free (`MisledExactly`);
  `MisledAfterOneTurn` is the smallest run.
- Start-up does not pump: queued tasks wait for the next operation that does (`RestartDrainedExactly`).
- A line cut never finishes when the digits of the length plus the reference's length are 104 or 195 (`EndsExactly`);
  `NeverCut` gives a family of such lines and `ThreeHundredLetters` one of them. The line comes out over the limit
  exactly when that sum exceeds 205 (`CutSaysWhatItKeeps`).
- A dictionary neutralised key by key loses an entry exactly when two keys become one (`EntriesKeptExactly`,
  `TwinIsLost`).
- A window moves on exactly when the character it starts on fits in it (`ProgressExactly`); a narrower one returns
  nothing and says to continue where it is (`NarrowWindowStalls`).

## Assumptions

- A token counter is a deterministic function from text to a natural number. Nothing else is asked of it unless a lemma
  names `ByLength`: longer text never costs less and only the empty text is free, as `Estimate` does.
- `Budget.allocation` and `Budget.usable` are arbitrary integers.
- Each scheduler step is one atomic read-modify-write. The source holds no lock across its awaits
  (src/lucy_coder/service.py:136-147, 155-168 and 246-269), so a stale save can overwrite a settle; runs here are all
  interleavings of whole steps, not of halves of them.
- A task's identifier is its place in the table. The source draws it at random and never deletes a row.
- Clocks, the answers of other services, the outcome of a turn, and whether a directory exists are parameters.

## Model

| member | source | states |
|---|---|---|
| `BandsProofs.ExcerptSound` | src/lucy_api/context/bands.py:241-300 | for every counter and every allowance, negative ones included, an excerpt costs at most the allowance and is a prefix and a disjoint suffix with at least one character left out, its marker giving the counter's own figure for what is kept; there is none only when the bare confession does not fit |
| `BandsProofs.FragmentsCut` | src/lucy_api/context/bands.py:265-300 | the head and tail are true ends of the text, never overlap, never exceed the character budget, and with any budget at all the head is not empty |
| `BandsProofs.JudgeFair` | src/lucy_api/context/bands.py:199-219 | one section's turn in the loop: kept only when it costs nothing or the band already fits, shortened at or above its floor, or dropped with its own notice |
| `BandsProofs.CutPoint` | src/lucy_api/context/bands.py:199-219 | in the give-up order there is a cut: every section with a cost before it was dropped whole, every section after it is untouched, so at most the one at the cut is shortened |
| `BandsProofs.AffordedKept` | src/lucy_api/context/bands.py:200-201 | once the band fits, nothing more is given up |
| `BandsProofs.RemainingFits` | src/lucy_api/context/bands.py:221-224 | what is left of a band costs at most its ceiling, for every counter |
| `Allocator.MakeExcerpt` | src/lucy_api/context/bands.py:241-262 | the shrinking loop ends for every counter and allowance and computes the specified excerpt, which fits and tells the truth |
| `Allocator.GiveUpOne` | src/lucy_api/context/bands.py:204-219 | one entry updated in place exactly as its verdict says, and the running total lowered by what was reclaimed |
| `Allocator.GiveUpInOrder` | src/lucy_api/context/bands.py:197-219 | the loop over the entries, in an order read once before any of them changes, gives each the verdict of the specification |
| `Allocator.Fit` | src/lucy_api/context/bands.py:189-224 | one band brought down in place: the surviving entries, their total added up again, and the notices are those of the specification |
| `Allocator.FitBands` | src/lucy_api/context/bands.py:111-119 | band after band, each fitted from its own entries, with survivors and notices in band order |
| `Allocator.Allocate` | src/lucy_api/context/bands.py:98-127 | the whole allocation equals the specification, refusals included |
| `Shortening.HeadExactly` | src/lucy_api/context/bands.py:275-281 | a head is its whole character budget, or ends at the last line break that leaves at least half of it |
| `Shortening.TailExactly` | src/lucy_api/context/bands.py:284-291 | a tail is its whole character budget, or starts after the first line break that leaves at least half of it |
| `Shortening.FragmentShares` | src/lucy_api/context/bands.py:265-272 | below 160 characters the head has the whole budget, and from there on three fifths; each keeps at least half of its share, and all of it where there is no line break |
| `Shortening.ShortensGenerously` | src/lucy_api/context/bands.py:241-262 | with the default counter there is an excerpt exactly when the bare marker fits; counted in characters it shows at least half of what the allowance buys beyond the marker and seven more, and all of it beyond the marker and six more where the text has no line break |
| `Shortening.ShortenedNotDropped` | src/lucy_api/context/bands.py:199-219 | a section whose allowance has room for the marker and twice its floor is shortened when its turn comes, not dropped; for the floor alone where no line break is in the way |
| `Shortening.LongSectionIsShortened` | src/lucy_api/context/bands.py:98-127 | so the allocation of one such section shows it shortened, within the ceiling, and confesses no drop |
| `Numbers.GroupedReads` | src/lucy_api/context/bands.py:303-320 | the figures of a printed count read as that count, with a comma before every third from the right |
| `Ledger.GivesUpInOrder` | src/lucy_api/context/bands.py:227-229 | sections are given up by falling priority, then by id in code point order, then as they came |
| `Ledger.RefusedExactly` | src/lucy_api/context/bands.py:140-169 | an allocation is refused exactly when some section is in no writable band, and names the first of them and which of the two ways it is wrong |
| `Ledger.TotalsExactly` | src/lucy_api/context/bands.py:111-127 | a band's figure is what its sections in the prompt add up to, and the total is the four of them |
| `Accounting.CeilingsWithinWindow` | src/lucy_api/context/bands.py:172-186 | the scaled ceilings add up to at most the usable window, however large or negative the shares and the window are |
| `Accounting.CeilingExactly` | src/lucy_api/context/bands.py:172-186 | a ceiling is the allocation while all of them fit the usable window, and else its share of the window in proportion, rounded down |
| `Accounting.NeverOverspent` | src/lucy_api/context/bands.py:98-127 | no band exceeds its ceiling and the total never exceeds the usable window, for every counter |
| `Accounting.NothingLost` | src/lucy_api/context/bands.py:106-127 | the output is an order-preserving subsequence; every section is either shown, with the recount of its own body, or confessed in exactly one notice |
| `Accounting.FitTotal` | src/lucy_api/context/bands.py:221-224 | a band's reported total is within its ceiling |
| `Accounting.FitAccounts` | src/lucy_api/context/bands.py:189-224 | within a band the shown and the confessed together are exactly what came in |
| `Isolation.BandsArePrivate` | src/lucy_api/context/bands.py:114-119 | discarding every other band's sections changes nothing for this one: not a body, not a count, not a notice |
| `Isolation.NoticesBandByBand` | src/lucy_api/context/bands.py:112-119 | the notices are each band's own notices, in band order |
| `Isolation.FitRenumbered` | src/lucy_api/context/bands.py:189-229 | relabelling arrivals without disturbing the give-up order changes neither verdicts nor notices |
| `Isolation.ArrivalIrrelevant` | src/lucy_api/context/bands.py:227-229 | permuting an input with distinct ids gives the same multiset of sections, the same totals and identical notices |
| `Projector.Project` | src/lucy_api/context/projection.py:96-166 | the loop over compactions with its covered dictionary and growing lists computes the specified projection |
| `Projector.PriceTurns` | src/lucy_api/context/projection.py:199-225 | one section a verbatim entry, at its position, priced, with its age as priority |
| `ProjectionProofs.WholeTurnsExactly` | src/lucy_api/context/projection.py:169-184 | every requested range snaps to whole turns if and only if no two turns cross |
| `ProjectionProofs.SnapBounds` | src/lucy_api/context/projection.py:177-184 | a snapped range contains the request and every entry of every touched turn, and reaches no further than one of them |
| `ProjectionProofs.SnapAgain` | src/lucy_api/context/projection.py:169-184 | snapping a snapped range changes nothing exactly when it already holds whole turns |
| `ProjectionProofs.TurnsWholeOrVerbatim` | src/lucy_api/context/projection.py:119-152 | where no two turns cross, every turn is entirely covered by shown summaries or entirely verbatim |
| `ProjectionProofs.InterleavedTurnIsSplit` | src/lucy_api/context/projection.py:169-184 | two interleaved turns and a request for one entry: half of the second turn is summarised |
| `ProjectionProofs.EveryEntryReadOnce` | src/lucy_api/context/projection.py:119-156 | every entry is covered by exactly one shown summary or rendered as exactly one section, never both |
| `Coverage.ShownByNewest` | src/lucy_api/context/projection.py:108-131 | a compaction is shown exactly when it is active, its snapped range holds an entry, and none of those is in the snapped range of a shown newer one |
| `Coverage.CoveredExactly` | src/lucy_api/context/projection.py:119-131 | an entry, with a turn or without, is covered exactly when its sequence number falls in the snapped range of a shown compaction |
| `Coverage.AskedForIsCovered` | src/lucy_api/context/projection.py:119-131 | a request for one entry covers it, with a turn or without, in every transcript |
| `Coverage.TurnlessKeptOutExactly` | src/lucy_api/context/projection.py:52-53 | the promise that entries with no turn are never inside a compacted range holds of a transcript, over every set of compactions, exactly when it has no such entry |
| `Coverage.TurnlessEntryIsCovered` | src/lucy_api/context/projection.py:121-121 | a turnless entry between the two entries of a turn is summarised away |
| `ProjectionProofs.SectionsOfProjection` | src/lucy_api/context/projection.py:151-166 | the sections are one a shown compaction and one a verbatim entry, in position order |
| `Prompt.PromptReads` | src/lucy_api/context/projection.py:131-166 | shown compactions and entries read verbatim match the sections one to one: a summary says how many entries it stands for, ends in its own text and stands where the first of them stood; an entry says who spoke and what was said |
| `Prompt.EveryCompactionAnswered` | src/lucy_api/context/projection.py:119-130 | every active compaction is shown or has one notice, newest first: it covers no entry, or it is superseded by the shown newer one that stands for the first of its entries any of them stands for |
| `Prompt.ProjectionCounts` | src/lucy_api/context/projection.py:157-166 | the counts that go with the history: entries covered, summaries shown, and distinct turns summarised |
| `ProjectionProofs.DeactivatingUnshown` | src/lucy_api/context/projection.py:108-130 | deactivating a compaction that was not shown changes only notices |
| `History.SeventyOneRungs` | src/lucy_api/context/projection.py:206-210 | the rounded priorities fall strictly with age exactly up to 71 entries |
| `History.PriorityRange` | src/lucy_api/context/projection.py:209-210 | every verbatim entry's priority lies between the two named ends, and so above a summary's |
| `History.AgePriorityExactly` | src/lucy_api/context/projection.py:206-210 | priority falls from 90 to 20 in equal steps of age, rounded to the nearest number and to the even one of two; a single entry is the newest |
| `Sorting.SortStable` | src/lucy_api/context/projection.py:103-112 | sorting keeps elements that none of them comes before in the order they came in, so entries at one position stay as given |
| `History.VerbatimInOrder` | src/lucy_api/context/projection.py:151-156 | reading past the summaries, the prompt's history is the verbatim entries in order |
| `History.SummaryAllOrNothing` | src/lucy_api/context/bands.py:189-229 | run on a projection's sections, the allocator never shortens a summary, and drops one only when every verbatim entry was dropped |
| `History.NewestTurnsSurvive` | src/lucy_api/context/projection.py:199-225 | with at most 71 verbatim entries, what survives allocation is a contiguous newest suffix, and only its oldest member may be shortened |
| `Survival.OlderOutlivesNewer` | src/lucy_api/context/bands.py:227-229 | at every length past 71, and for each counter that goes by length, there are a transcript and a budget where an entry is read and a newer one is not |
| `Survival.NewestSurviveExactly` | src/lucy_api/context/projection.py:206-210 | for each counter that goes by length, what is read of the verbatim entries is a newest suffix over every transcript, set of compactions and budget exactly for lengths up to 71 |
| `Survival.DefaultSurvivesExactly` | src/lucy_api/context/tokens.py:44-49 | and so for the default counter |
| `Tokens.EstimateByLength` | src/lucy_api/context/tokens.py:44-49 | the default estimate goes by length and charges everything but the empty text |
| `Tokens.EstimateRoundsUp` | src/lucy_api/context/tokens.py:44-49 | a token for every four characters begun |
| `Rules.HitReflected` | src/lucy_api/context/scrub.py:121-154 | after escaping, every match of a rule stood there, unescaped, before: escapes create no match |
| `Rules.ScanningEscapes` | src/lucy_api/context/scrub.py:264-271 | scanning left to right and consuming whole matches replaces exactly the positions the rule hits, front rules and back rules alike |
| `Scrub.Apply` | src/lucy_api/context/scrub.py:264-271 | the loop over the rules rewrites as specified, names the rules that bit, and names none exactly when it changed nothing |
| `Scrub.FenceCleans` | src/lucy_api/context/scrub.py:121-154 | after one pass over six ordered rules that rewrite each other's output, no rule matches anywhere |
| `Scrub.FenceOnce` | src/lucy_api/context/scrub.py:254-271 | fencing twice is fencing once, and the second pass reports nothing |
| `Scrub.ChangedExactlyWhenMatched` | src/lucy_api/context/scrub.py:264-271 | no rule is reported exactly when no character changed |
| `Scrub.FenceDeletesNothing` | src/lucy_api/context/scrub.py:121-154 | decoding the entities in the fenced text gives the same string as decoding them in the original |
| `OnePass.OnePassExactly` | src/lucy_api/context/scrub.py:264-271 | rules that leave one another standing, applied in turn, are one substitution in the original text |
| `OnePass.BitingExactly` | src/lucy_api/context/scrub.py:264-271 | and what they report is what the original text holds |
| `LookAlikes.KindsExactly` | src/lucy_api/context/scrub.py:121-154 | each rule hits exactly where its look-alike stands, spelt out in characters: the seventeen tags, the special token, the three turn markers, the harness and elision markers, the live block |
| `LookAlikes.FenceExactly` | src/lucy_api/context/scrub.py:254-271 | fencing escapes one character of each look-alike in the original text, with the entity of its kind, and leaves every other character as it is |
| `LookAlikes.NoneLeft` | src/lucy_api/context/scrub.py:254-271 | fenced text holds no look-alike of any of the six kinds |
| `LookAlikes.ReportedExactly` | src/lucy_api/context/scrub.py:264-271 | the names reported are those of the kinds the original text holds, each once, in order |
| `ScrubTree.WalkNeutral` | src/lucy_api/context/scrub.py:239-251 | after the walk every string and key at every depth is one no rule changes, and dictionary keys are distinct |
| `ScrubTree.WalkOnce` | src/lucy_api/context/scrub.py:239-251 | walking a walked value changes nothing |
| `ScrubTree.WordsKept` | src/lucy_api/context/scrub.py:241-251 | a string is fenced where it stands, and what is neither a string nor a container is left alone |
| `ScrubTree.ListKept` | src/lucy_api/context/scrub.py:247-248 | a list keeps its length, and each value its place |
| `ScrubTree.DictKept` | src/lucy_api/context/scrub.py:245-246 | a dictionary has exactly its own keys fenced, each with the walked value of the last entry that fences to it |
| `ScrubTree.EntriesKeptExactly` | src/lucy_api/context/scrub.py:245-246 | a dictionary keeps every entry exactly when no two keys are neutralised to the same key |
| `ScrubTree.SomeKeyChanges` | src/lucy_api/context/scrub.py:127-127 | there is a key the rules change, so there are such dictionaries |
| `ScrubTree.TwinIsLost` | src/lucy_api/context/scrub.py:245-246 | a key beside its own escaped form: the first entry's value is gone |
| `Framing.MakeResultFrame` | src/lucy_api/context/framing.py:195-212 | the lines built one by one are the specified frame |
| `Framing.FrameSplits` | src/lucy_api/context/framing.py:195-212 | no value inserts a line: splitting the frame gives back the lines it was built from |
| `Framing.OnlyDelimitersAtMargin` | src/lucy_api/context/framing.py:195-212 | for every body, origin and trust, only the first and the last line start at column zero |
| `Framing.FramesParseBack` | src/lucy_api/context/framing.py:219-237 | taking a frame off gives the provenance line, if there was one, and exactly the fenced body |
| `Framing.ResultRoundTrip` | src/lucy_api/context/framing.py:219-237 | without an address or a helper, framing and unframing is fencing, for every body, one already framed included |
| `Provenance.ResultReads` | src/lucy_api/context/framing.py:195-212 | the lines of a result, word for word: the trust in its first is the word given when that is stated, observed or inferred and untrusted otherwise, and the sentence about attacks closes it exactly in the latter case |
| `Provenance.TrustIsRead` | src/lucy_api/context/framing.py:323-337 | cut at its quotation marks, the first line gives the source and that word |
| `Provenance.UnframeExactly` | src/lucy_api/context/framing.py:219-237 | a text that does not open and end as a result does is left alone; of one that does, the lines between are kept but for a last one that reports a source, each without its indent |
| `Provenance.ValuesExactly` | src/lucy_api/context/framing.py:288-316 | a value is fenced, and then each of its quotation marks, line breaks and brackets is replaced by its entity, and nothing else |
| `Provenance.ValuesRead` | src/lucy_api/context/framing.py:288-316 | to a reader who undoes the entities a value reads the same quoted, inlined or in an attribute as it was given |
| `Containment.IndentingIsClean` | src/lucy_api/context/framing.py:208-208 | indenting after each line break creates no control tag |
| `Containment.ValuesAreClean` | src/lucy_api/context/framing.py:288-311 | quoting and inlining create no control tag |
| `Containment.NoTagBegins` | src/lucy_api/context/scrub.py:122-126 | a text without tags, followed by something no tag can run on into, begins none where they meet |
| `Delimiters.SplitIndent` | src/lucy_api/context/framing.py:208-208 | indenting every line of a split text is indenting the text once and again after each break |
| `Delimiters.ExactlyTwoTags` | src/lucy_api/context/framing.py:195-212 | for every body, capability, address, helper and trust, a control tag begins at exactly two positions, the frame's own delimiters |
| `Claims.MakeClaimLines` | src/lucy_api/context/framing.py:249-257 | one claim's lines, built from its quoted body |
| `Claims.MakeClaimsFrame` | src/lucy_api/context/framing.py:166-192 | the block of claims as specified, with its counts and closings |
| `ClaimsProofs.OnlyNotesAtMargin` | src/lucy_api/context/framing.py:166-192 | no claim, source or lead inserts a line, and only the block's delimiters stand at column zero |
| `ClaimsProofs.QuotesSplit` | src/lucy_api/context/framing.py:249-257 | every quotation mark in the block is the block's own: cutting at them gives back its parts |
| `ClaimsProofs.ClaimsParseBack` | src/lucy_api/context/framing.py:249-298 | cutting at quotation marks gives exactly one run a claim, in order, and removing the continuation indent gives the claim's quoted body |
| `Provenance.ClaimsRead` | src/lucy_api/context/framing.py:166-192 | cut at its quotation marks, the block gives before each claim its trust, the warning exactly when no one vouches for it, its source and its date, and at the end its counts and closing sentences, the second exactly when some claim is untrusted |
| `Provenance.OriginExactly` | src/lucy_api/context/framing.py:274-277 | a source reads by who said it when it has a name, whatever its case and spaces, and as itself otherwise |
| `Provenance.IsoReads` | src/lucy_api/context/framing.py:266-270 | a date prints as its year, month and day |
| `ClaimsProofs.ExactlyTwoNoteTags` | src/lucy_api/context/framing.py:166-192 | a block of claims holds a control tag at exactly two positions, its own delimiters |
| `CoderService.LiveCount` | src/lucy_coder/tasks.py:281-286 | the number of running rows |
| `CoderService.NextQueued` | src/lucy_coder/tasks.py:272-279 | the oldest queued row, whoever it belongs to |
| `CoderService.MarkInterrupted` | src/lucy_coder/tasks.py:232-244 | every running row failed and made resumable, every other untouched, and how many there were |
| `CoderService.CoderService.constructor` | src/lucy_coder/service.py:66-73 | a new process over the old table, with no turn in flight |
| `CoderService.CoderService.Start` | src/lucy_coder/service.py:77-110 | a valid request becomes one queued row and a pump; every refusal leaves the world unchanged |
| `CoderService.CoderService.Message` | src/lucy_coder/service.py:112-151 | a follow-up queued, an ended task revived, a pump, and the reply; each refusal in the source's order and without effect |
| `CoderService.CoderService.Cancel` | src/lucy_coder/service.py:153-170 | a live task cancelled with its follow-ups dropped, and a pump; anything else unchanged |
| `CoderService.CoderService.Pump` | src/lucy_coder/service.py:198-225 | the loop ends, takes follow-ups without failing, computes the specified launches, and leaves nothing queued or no slot free |
| `CoderService.CoderService.Settle` | src/lucy_coder/service.py:249-269 | an outcome on its row, unless the row was cancelled, and a pump |
| `CoderService.CoderService.Progress` | src/lucy_coder/service.py:271-278 | counters copied onto a running row and onto no other |
| `TaskFields.StartExactly` | src/lucy_coder/service.py:77-110 | a delegation is taken on exactly when its brief says something, its level is one of four, its model is a name, and its directory is absolute and there; its row is what was asked for, queued or running; a refusal names the first thing wrong, changes nothing and is a 422 |
| `TaskFields.MessageExactly` | src/lucy_coder/service.py:112-151 | a follow-up is taken exactly when it says something in a known mode with at most ten well-formed tools, to a task of the same account that may use them and is not over for good; a refusal names the first thing amiss and changes nothing; the reply says mid-turn exactly when the task is now running |
| `TaskFields.CancelExactly` | src/lucy_coder/service.py:153-170 | one's own task is cancelled with its follow-ups dropped when it is live, and left alone otherwise |
| `TaskFields.StrangersFindNothing` | src/lucy_coder/tasks.py:248-254 | another account's task, or none: both answers are the same 404, and nothing changes |
| `TaskFields.ModelNameExactly` | src/lucy_coder/service.py:31-31 | what a model may be called |
| `TaskFields.ToolRuleExactly` | src/lucy_coder/service.py:34-34 | a tool rule is a name, or a name and one argument in parentheses |
| `TaskFields.ToldReads` | src/lucy_coder/service.py:141-147 | the row after a follow-up |
| `TaskFields.StoppedReads` | src/lucy_coder/service.py:158-167 | the row after a cancel |
| `TaskFields.LaunchReads` | src/lucy_coder/service.py:202-225 | the turn a launch adds, its prompt, level and tools, and what its row then says |
| `TaskFields.LaunchesTheOldest` | src/lucy_coder/tasks.py:272-279 | no queued task was created before the one launched, nor as early and inserted before it |
| `TaskFields.SettledReads` | src/lucy_coder/service.py:249-269 | the row after its turn: failed exactly when the turn was not ok, with its detail and the old result; otherwise queued exactly when a follow-up waits and idle when none does, with the result cut to 20,000 characters; turns, cost and denials added; a cancelled row and every other row unchanged |
| `TaskFields.FinishedReads` | src/lucy_coder/service.py:246-269 | after the pump as well, a row moves on from there only to its own follow-up, exactly when fewer tasks are queued ahead of it than slots are free |
| `TaskFields.ProgressReads` | src/lucy_coder/service.py:271-278 | the live counters, each in its place, on a running row and no other |
| `TaskFields.RestartReads` | src/lucy_coder/tasks.py:232-244 | what was running is failed with its session kept, and nothing else changes |
| `SchedulerProofs.StepSafe` | src/lucy_coder/service.py:136-225 | every step keeps the invariant tying each row's fields to each other and to whether it has run |
| `SchedulerProofs.NeverOverbooked` | src/lucy_coder/service.py:198-202 | in every run, however its steps interleave, running rows never exceed the slots |
| `SchedulerProofs.QueuedHasMessage` | src/lucy_coder/service.py:206-206 | in every run a queued task that has had a turn has a queued message, so taking the first never fails |
| `SchedulerProofs.ResumableMeansRan` | src/lucy_coder/service.py:158-165 | in every run, outside `running`, a row is resumable exactly when its task has ever run |
| `SchedulerProofs.RefusedMeansNeverRan` | src/lucy_coder/service.py:139-140 | in every run the refusal of an ended task means exactly that it was cancelled before it ever ran |
| `SchedulerProofs.ConflictMeansNeverRan` | src/lucy_coder/service.py:139-140 | so a message answered with 409 names a task cancelled before it ever ran, in every run and for every message |
| `SchedulerProofs.FollowUpsInOrder` | src/lucy_coder/service.py:141-167 | in every run, the messages accepted for a task are, in order, those that each started one turn or were dropped by a cancel, followed by those still queued |
| `SchedulerProofs.ResumedByMessage` | src/lucy_coder/service.py:206-210 | in every run, a turn that resumes a session is prompted by the message it took, with that message's tools; only a first turn runs the brief |
| `PumpProofs.PumpDrains` | src/lucy_coder/service.py:198-225 | the pump ends with no queued task or every slot taken |
| `PumpProofs.PumpFills` | src/lucy_coder/service.py:202-205 | it starts exactly as many turns as there are free slots and queued tasks for |
| `PumpProofs.PumpStartsOldest` | src/lucy_coder/tasks.py:272-279 | no task left queued is older than one the pump started |
| `PumpProofs.PumpStartsExactly` | src/lucy_coder/service.py:198-225 | a queued task is started by the pump exactly when fewer tasks are queued ahead of it than slots are free, and is otherwise left as it was |
| `PumpProofs.PumpIsLaunches` | src/lucy_coder/service.py:198-225 | a pump is a run of launches, so it keeps whatever every step keeps |
| `PumpProofs.ServeDrained` | src/lucy_coder/service.py:77-269 | every operation that changes a state leaves the queue drained, and a refusal, a cancel of an ended task or a progress report keeps it so |
| `PumpProofs.StaysDrained` | src/lucy_coder/service.py:77-269 | from the first pump on, over every sequence of operations, no slot is free while a task waits |
| `PumpProofs.RestartDrainedExactly` | src/lucy_coder/service.py:66-73 | start-up leaves the queue drained exactly when nothing is queued or there are no slots |
| `Revivals.MisledExactly` | src/lucy_coder/service.py:147-151 | from every world that keeps the invariant, the reply calls a message queued behind a turn while nothing waits exactly when the message woke a task with a turn counted, nothing already waiting, and fewer tasks queued ahead of it than slots free |
| `Revivals.MisledWhenDrained` | src/lucy_coder/service.py:144-151 | from a drained world that last condition is a free slot |
| `Revivals.IdleMessageStartsAtOnce` | src/lucy_coder/service.py:144-151 | and so it does for every idle task in a drained world with a slot free |
| `Revivals.MisledAfterOneTurn` | src/lucy_coder/service.py:147-151 | the run of one task, one finished turn and one message that gets that reply |
| `Revivals.RevivedRunsMessageExactly` | src/lucy_coder/service.py:144-218 | over every run after a message to an ended resumable task with no turn unsettled, the next turn of the task, unless a cancel comes first, resumes on the oldest follow-up exactly when some turn had been counted when the message came; otherwise it runs the brief and takes no message |
| `Revivals.HastyMessageResumes` | src/lucy_coder/service.py:141-269 | with the killed turn unsettled: the run where no turn was counted when the message came and the next turn resumes on it |
| `Revivals.BriefRunsAgain` | src/lucy_coder/service.py:153-210 | the run, in order and with the killed turn settled, whose last turn runs the brief again with the message still waiting |
| `TurnsProofs.OneTurnExactly` | src/lucy_coder/service.py:144-146 | from a world with one turn a task, a step keeps it exactly when it is not a message to a cancelled task whose killed turn is unsettled |
| `TurnsProofs.OneTurnPerTask` | src/lucy_coder/service.py:153-269 | over every run without such a message, no task has two unsettled turns, and a row is running exactly when it has one and was not cancelled |
| `TurnsProofs.TwoTurnsOnOneTask` | src/lucy_coder/service.py:144-170 | the five steps that put two turns on one task while only one slot is counted taken |
| `Utf8.PrefixDecodes` | src/lucy_api/clients/environments.py:706-712 | a window that begins on a boundary decodes to the characters that fit in it and holds back exactly the rest |
| `Utf8.DecodeEncode` | src/lucy_api/clients/environments.py:700-708 | decoding undoes encoding |
| `Utf8.EncodeDecode` | src/lucy_api/clients/environments.py:706-712 | the decoder is strict: what it accepts encodes back to exactly the bytes consumed |
| `Utf8.AcceptedExactly` | src/lucy_api/clients/environments.py:706-712 | bytes are accepted, with or without some held back, exactly when some text encodes to something that begins with them |
| `Utf8.EncodingExactly` | src/lucy_api/clients/environments.py:700-708 | the bytes of a character, by the table of RFC 3629 |
| `Utf8.FitsExactly` | src/lucy_api/clients/environments.py:706-712 | how many whole characters fit, and not one more |
| `Windows.FakeEnvironments.Read` | src/lucy_api/clients/environments.py:688-724 | one window of a file: its text, where it ends, whether there is more, or the refusal |
| `Windows.WindowReads` | src/lucy_api/clients/environments.py:688-724 | a window answers for the bytes from its offset to its end, as they are or as the characters they encode, never for more than were asked for, and says which they are and where to go on |
| `Windows.ReadFrom` | src/lucy_api/clients/environments.py:832-851 | the retry loop answers with the first accepted of four consecutive offsets |
| `Windows.SeekLeast` | src/lucy_api/clients/environments.py:820-829 | the least boundary at or after an offset is at most three bytes on |
| `Windows.ReadInside` | src/lucy_api/clients/environments.py:706-711 | a read that starts inside a character is refused |
| `Windows.ReadFromLands` | src/lucy_api/clients/environments.py:832-851 | from every offset in the file and for every positive size, the read succeeds at the least character boundary at or after it, and shows the characters that fit |
| `Windows.ReadPastEnd` | src/lucy_api/clients/environments.py:832-851 | from beyond the end it succeeds with an empty last window |
| `Windows.ProgressExactly` | src/lucy_api/clients/environments.py:712-720 | a window moves on exactly when the character it starts on fits in it |
| `Windows.WindowsTile` | src/lucy_api/clients/environments.py:713-722 | following the next offsets shows the rest of the file, nothing skipped and nothing twice |
| `Windows.WindowsEnd` | src/lucy_api/clients/environments.py:713-722 | with room for four bytes, following them comes to an end |
| `Windows.NarrowWindowStalls` | src/lucy_api/clients/environments.py:706-722 | with less, a window can come back empty and point at itself |
| `CountCache.Cached.Count` | src/lucy_api/context/tokens.py:70-82 | the answer is always the wrapped counter's, and the table stays exactly the most recently counted texts |
| `CountCache.HeldExactly` | src/lucy_api/context/tokens.py:70-82 | a text is held exactly while fewer than `capacity` other texts have been counted since it last was |
| `CountCache.RememberedInOrder` | src/lucy_api/context/tokens.py:74-81 | entries stand in the order their texts were last counted |
| `TokenCache.TokenCache.Find` | src/lucy_api/auth/broker.py:158-173 | a live token, moved to the newest end; an expired one deleted; nothing otherwise |
| `TokenCache.TokenCache.Hold` | src/lucy_api/auth/broker.py:175-183 | the new entry at the newest end, and the oldest evicted down to the bound |
| `TokenCache.TokenCache.Forget` | src/lucy_api/auth/broker.py:185-187 | exactly one key's entry removed |
| `TokenCache.TokenBroker.TokenFor` | src/lucy_api/auth/broker.py:230-240 | the live token held, renewed; else a freshly minted one, held from then on; else the refusal |
| `TokenCache.TokenBroker.Remint` | src/lucy_api/auth/broker.py:242-249 | what comes back was minted now and is held in place of what was; nothing is held when minting is refused |
| `TokenCache.Attempt` | src/lucy_api/auth/broker.py:251-279 | one token sent, and after a refusal one more, freshly minted; never a third; and the whole table afterwards |
| `TokenCache.MintedIsHeld` | src/lucy_api/auth/broker.py:281-290 | a freshly minted token is held as the newest of all, and served while it lives |
| `TokenCache.ServesLastLive` | src/lucy_api/auth/broker.py:158-187 | over every run, a token served was the last put for that subject and audience, not dropped since and not expired |
| `TokenCache.UsedIsNewest` | src/lucy_api/auth/broker.py:172-183 | a put, and an ask that is served, make the key the newest there is |
| `TokenCache.KeptUntilCrowded` | src/lucy_api/auth/broker.py:158-187 | a token just used stays, whatever is done for other keys, until `max_entries` others have been put or served |
| `TokenCache.GoneExactlyWhenCrowded` | src/lucy_api/auth/broker.py:175-183 | when nothing is dropped or found expired meanwhile, it is gone exactly when `max_entries` others were used |
| `LiveLines.Bounded` | src/lucy_api/clients/live_feeds.py:374-385 | where its counts settle the loop ends within four passes, and the line is the cut they settle on |
| `LiveLines.CompactExactly` | src/lucy_api/clients/live_feeds.py:375-375 | a line is its characters but for what is white, with one space wherever white parted two of them |
| `LiveLines.SettlesInFour` | src/lucy_api/clients/live_feeds.py:379-385 | whatever the length and the reference, counts that settle at all do so in at most four passes |
| `LiveLines.EndsExactly` | src/lucy_api/clients/live_feeds.py:380-385 | the loop reaches a fixed point exactly when the digits of the length and the reference add up to neither 104 nor 195 |
| `LiveLines.Alternates` | src/lucy_api/clients/live_feeds.py:380-385 | with those sums the counts alternate between 99 and 100, or 9 and 10, for ever |
| `LiveLines.NeverCut` | src/lucy_api/clients/live_feeds.py:374-385 | a word of a few hundred characters with a reference of 101 or 192 has to be cut and never is |
| `LiveLines.ThreeHundredLetters` | src/lucy_api/clients/live_feeds.py:374-385 | one such line |
| `LiveLines.CutSaysWhatItKeeps` | src/lucy_api/clients/live_feeds.py:379-384 | the printed count is the number of characters kept, and the line is within the limit exactly when the fixed part leaves room for the notice |

## Left out

- LiveLines.Bounded: is specified only where its loop ends; the inputs on which the source loops for ever have no result to state.
- Floating point: the head share, the half that decides a line boundary, the first guess of an excerpt's length and the age share are exact rationals, with rounding to even where the source rounds. Nothing proved about excerpts depends on the first guess beyond its bounds.
- Unicode beyond ASCII in the scrub rules' classes and case folding, in `strip` and in `split`.
- `scrub`'s marker line, and the JSON rendering and final pass of `scrub_tree`; keys that are not strings, and tuples, which walk as lists do.
- The errors the two caches raise when built with room for nothing are their constructors' precondition.
- Base64: a binary file's window is its bytes before they are encoded.
- The table of turn handles in the service, whose callback can drop the handle of a task's next turn; turns in flight here are the unsettled ones.
- Starvation: the queue is ordered by creation, so a revived old task overtakes newer ones and no fairness holds.
- Rows stored before follow-ups carried modes, and the recorded times of an update.
- HTTP, SQLite, subprocesses, threads, the file system, the transcripts, and the other operations of the fake workspace.
- The device flow, connection tickets, the error table, feed policy and the feed builders, the context ladder, the assembled state and rendering, the agents' store, the command line, the evaluation harness and the scripts.
