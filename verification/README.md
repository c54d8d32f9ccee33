# Jentic CLI and configuration: a verified model

This project models four parts of the repository in Dafny and proves what they are for.

* **Managed skill files** (`cli/internal/skillgen`). Generated text is kept inside a file that the user also
  edits, between two sentinel lines with a recorded hash. The model covers printing, finding, splicing, the
  edit guard, applying and removing, over single calls and over whole runs; and the printer and parser of the
  skill content itself.
* **Configuration** (`src/jentic_one/shared/config.py`). Nested mappings are merged, environment variables are
  turned into a mapping in whatever order they come, and the two together are what a launched process sees.
* **The interactive API browser** (`cli/internal/cmd/apis_browser.go`), as a state machine over keys and late
  replies in every order.
* **Smaller algorithms**: greedy word wrap, crash-safe replacement of files, the two-phase teardown of the
  state directory, and the polling loops with their exit codes.

`dafny verify dfyconfig.toml` checks everything.

## How it is modelled

* Text is a sequence of Unicode scalar values. Offsets count characters where the Go code counts bytes; the
  scanner's line limit is counted in UTF-8 bytes.
* SHA-256 is a function from a text and a position to a hexadecimal digit, about which nothing is assumed. A
  property that needs hashes to differ says so in its `requires`.
* The two sentinels are a parameter (`AnchoredText.Markers`): any pair of one-line texts of
  which the closing one is no longer than the opening one and no prefix of it. `JenticMarkers` shows that the
  repository's own pair is one.
* A file system is a `Disk` whose operations may fail and which counts their failures and records every state it
  went through, so that a crash is "stop in any recorded state". The directory of a new file, its permissions and
  symbolic links are not part of it.
* Code that works step by step is a method, proved against a function or a stated result; loops are kept
  where the source has them. The browser, the string builder, the disk and the polling session are classes.
* Clocks, replies, failures and interrupts are chosen freely by the model, so the results hold for all of them.

## Findings

Stated as lemmas with concrete inputs or exact conditions:

* Unless hashes collide, splicing any body is idempotent exactly when the file has a region or no BEGIN line, and the
  body has no line that begins with the END marker (`Idempotence.IdempotentIff`). With a BEGIN line without an END line
  the second splice discards the user's text from that line on (`SpliceLimits.OrphanBeginSwallowsText`). The second
  apply is refused instead exactly when that line records a well-formed hash which is not the hash of what now stands
  behind it; with no hash on the line, the text is lost without force (`SkillOrphans.OrphanApplies`). With an END line
  in the body the generator takes its own output for a user edit (`EndLines.EndLineCutsRegion`), and every refresh
  leaves the tail of the old body behind as user text (`Idempotence.EndLineGrows`).
* The guard in `splice` for a byte-identical rewrite is reached by no text when the BEGIN line is read as recording
  the hash that was printed on it, as it is for every source without white space (`SpliceLimits.GuardUnreachable`,
  exact in `SpliceLimits.GuardUnreachableExactly`).
* On a claude or cursor file, an update that changes the skill's name or description is refused as if the user
  had edited the file, and no other update is (`SkillDedicated.DirSkillGuard`, `JenticMarkers.JenticGuard`); on a hermes
  file it is the name, the version and the shortened description (`SkillDedicated.HermesGuard`).
* On a claude, cursor or hermes file, an unforced apply replaces a file without a region as a whole and is never refused
  (`SkillDedicated.HandwrittenIsReplaced`), a hand-written `SKILL.md` included, although the comment on `Apply`
  (`cli/internal/skillgen/apply.go:28`) says that it never clobbers the user's content outside the region.
* Content whose lines the scanner takes survives being printed and parsed exactly when its bullets are trimmed and not
  empty, its titles are not empty and end in no white space, its step bodies hold no heading, and its values are plain
  (`SkillReadable.ParseRenderedExactly`); the parser itself returns bullets and titles that do not survive
  (`SkillReadable.ParserCanReturnMore`).
* Opening one API's revisions while another API's are still loading lets a later action go to the wrong API
  (`ApisRuns.StaleReplyMisfires`), and only that does (`ApisRuns.PairedExactly`).
* Under an open prompt for a revision, a yes deletes the revision named, whatever arrives first, exactly when
  neither a load of revisions nor an action on one is outstanding (`ApisPrompts.PromptIsTrueExactly`). Opening one
  API's revisions twice is enough to be misled (`ApisPrompts.LateReloadMisfires`).
* Environment variables of which one path lies below another fail in one order and lose a value in every other
  (`EnvOrder.PrefixLosesEitherWay`).
* A second teardown removes the backups that the first one made (`Uninstall.TwiceLeavesNothing`).
* A build that lies where the staging file goes is emptied by its own copy, and a target of that name is overwritten
  before it is backed up (`AtomicFiles.ReplaceBinary`).
* `truncate` leaves a marked line wider than the width when the width is one (`WordWrap.MarkedLine`).

## Model

| member | source | states |
|---|---|---|
| Newlines.NormalizeWithCRLF | cli/internal/skillgen/skillgen.go:156-161 | A text saved with CRLF line ends normalises to the text itself. |
| Newlines.TrimBeforeNormalizing | cli/internal/skillgen/skillgen.go:143-161 | Newlines at the end make no difference to a text once its line endings and its end are cleaned, whatever mixture of endings it has. |
| AnchoredText.LineAnchoredIndex | cli/internal/skillgen/skillgen.go:217-230 | The search loop returns the first occurrence of the marker that starts a line, or -1. |
| AnchoredText.AnchoredLeast | cli/internal/skillgen/skillgen.go:217-230 | No line-anchored occurrence comes before the one returned, and if there is one at all, one is returned. |
| AnchoredText.FindPrinted | cli/internal/skillgen/skillgen.go:165-213 | Finding a region undoes printing it: exact start, note and end, for every prefix, suffix, note and body in which the markers do not start a line. |
| ManagedBlock.HashContent | cli/internal/skillgen/skillgen.go:143-146 | A content hash always has the form that a recorded hash must have, twelve hexadecimal digits. |
| ManagedBlock.SameHashExactly | cli/internal/skillgen/skillgen.go:139-146 | Short of a collision of these two, two bodies have one hash exactly when they are the same text but for line endings and newlines at the end. |
| Splicing.HashIgnoresNewlines | cli/internal/skillgen/skillgen.go:139-146 | For every body, trailing newlines do not change the content hash, so a body read back hashes like the body printed. |
| ManagedBlock.ReadMeta | cli/internal/skillgen/skillgen.go:196-211 | The token loop reads the last `hash=` and the last `source=` of the BEGIN line. |
| ManagedBlock.LastOneWins | cli/internal/skillgen/skillgen.go:196-211 | Of several hashes or sources on a BEGIN line the last one counts, and no other token does. |
| ManagedBlock.ParsePrintedMeta | cli/internal/skillgen/skillgen.go:165-211 | The metadata printed on the BEGIN line is read back as it was. |
| ManagedBlock.FindBlock | cli/internal/skillgen/skillgen.go:180-213 | The imperative search finds the first region of the normalised text, with its metadata and offsets. |
| ManagedBlock.FindPrintedLine | cli/internal/skillgen/skillgen.go:165-213 | For any one-line source, the region printed is the region found, with whatever its BEGIN line is read to say. |
| ManagedBlock.FindPrintedBlock | cli/internal/skillgen/skillgen.go:165-213 | Block extraction inverts block printing in any context: region, hash and source exactly, and the body without trailing newlines. |
| Splicing.ChangedIsExact | cli/internal/skillgen/skillgen.go:257-298 | For every input, `changed` is reported exactly when the output differs from the normalised input. |
| Splicing.FirstSpliceAppends | cli/internal/skillgen/skillgen.go:257-277 | A first splice puts the region at the end, behind the text and a blank line. |
| Splicing.SpliceShape | cli/internal/skillgen/skillgen.go:257-298 | A changed output is the user's text before, the printed region, and the user's text after; otherwise it is the normalised input. |
| Splicing.ManagedState | cli/internal/skillgen/skillgen.go:180-249 | In a text holding a printed region the generator finds exactly that region, reads its body, sees no user edit, and keeps the surroundings. |
| Splicing.SpliceIntoManaged | cli/internal/skillgen/skillgen.go:257-298 | Over its own output a splice is skipped exactly when the hashes agree and otherwise replaces the region alone; it is never taken for a user edit. |
| Splicing.SpliceIdempotent | cli/internal/skillgen/skillgen.go:257-298 | A second splice of the same body reports no change and returns the same text. |
| Splicing.SpliceIgnoresCRLF | cli/internal/skillgen/skillgen.go:154-161 | How an editor saved the line ends makes no difference to a splice. |
| SpliceLimits.OrphanRegion | cli/internal/skillgen/skillgen.go:180-230 | After a splice behind a BEGIN line without END, the region found runs from that line to the new END marker. |
| SpliceLimits.OrphanBeginSwallowsText | cli/internal/skillgen/skillgen.go:257-298 | The second splice, of the same body or another, then replaces all the user's text from that line on. |
| SkillOrphans.OrphanHash | cli/internal/skillgen/skillgen.go:180-213 | That region is taken to record what the line without an END said before. |
| SkillOrphans.OrphanApplies | cli/internal/skillgen/apply.go:49-80 | An apply over such a shared file is never refused; the next unforced one is refused exactly when that line records a well-formed hash which is not the hash of what stands behind it, and otherwise discards the user's text from that line on, unless that hash is the one to be written. |
| Idempotence.FoundBodyHasNoEnd | cli/internal/skillgen/skillgen.go:180-213 | The body read from any text never holds a line that begins with the END marker. |
| Idempotence.IdempotentExactly | cli/internal/skillgen/skillgen.go:257-298 | For every body, whatever its line endings: a second splice changes nothing exactly when the file had a region or no BEGIN line and the body has no END line, or else the second call finds the region up to date. |
| Idempotence.IdempotentIff | cli/internal/skillgen/skillgen.go:257-298 | Unless two hashes collide, the last case drops out: exactly when the file had a region or no BEGIN line, and the body has no END line. |
| Idempotence.EndLineRefresh | cli/internal/skillgen/skillgen.go:257-298 | Splicing a body with an END line again over its own output reports a change exactly when the hashes of the body and of its cut differ, and then leaves the tail of the old body behind. |
| Idempotence.EndLineGrows | cli/internal/skillgen/skillgen.go:257-298 | So after a first splice that wrote such a body, the second one grows the file by that tail. |
| SpliceLimits.IdenticalRewriteWasUpToDate | cli/internal/skillgen/skillgen.go:278-292 | When the BEGIN line tells its hash, a rewrite that gives back the same text means that the region was up to date and unedited. |
| SpliceLimits.GuardUnreachable | cli/internal/skillgen/skillgen.go:283-292 | Then the guard after the rewrite is reached by no text. |
| SpliceLimits.GuardUnreachableExactly | cli/internal/skillgen/skillgen.go:283-292 | For a one-line source, the guard is reached by no text exactly when the BEGIN line is read as recording the hash printed on it, or the body has a carriage return or an END line. |
| SpliceLimits.UnchangedExactly | cli/internal/skillgen/skillgen.go:278-292 | Then a splice reports no change exactly when the text is up to date. |
| EndLines.EndLineCutsRegion | cli/internal/skillgen/skillgen.go:180-249 | A body with an END line is read back cut at its first one, with the rest of the printed block left outside the region, and counts as edited exactly when the two hashes differ. |
| JenticMarkers.JenticIsValid | cli/internal/skillgen/skillgen.go:125-128 | The two sentinels of the repository meet the conditions on a pair of markers. |
| JenticMarkers.JenticGuard | cli/internal/skillgen/apply.go:50-60 | With them, for skills of plain lines: the update after an accepted one is refused on a claude or cursor file exactly when the name or the description has changed. |
| SkillRender.WriteBullets | cli/internal/skillgen/adapters.go:47-56 | The loop appends exactly the section for these bullets to the builder, and nothing for none. |
| SkillRender.WriteSteps | cli/internal/skillgen/adapters.go:24-30 | The loop appends exactly the numbered procedure to the builder. |
| SkillRender.Render | cli/internal/skillgen/adapters.go:13-37 | The builder ends up holding the rendered body. |
| SkillRender.HermesDescription | cli/internal/skillgen/adapters.go:191-202 | The short description has one to sixty characters and a single period, at its end. |
| SkillRender.HermesTakesTheSentence | cli/internal/skillgen/adapters.go:191-202 | It is the first sentence of the description, white space aside, when there is one of at most fifty-nine characters, and the fixed sentence otherwise. |
| SkillParse.ClosingFence | cli/internal/skillgen/bundled.go:99-108 | The offset loop finds the first line that is exactly three dashes, and where it ends. |
| SkillParse.SplitFrontmatter | cli/internal/skillgen/bundled.go:74-93 | The loop over the header collects the fields, last one winning, and returns the text behind the fence. |
| SkillParse.SplitSections | cli/internal/skillgen/bundled.go:112-138 | The scanner loop with its flushes maps each heading to the text below it. |
| SkillParse.Bullets | cli/internal/skillgen/bundled.go:141-156 | The loop collects the bullets with their continuation lines. |
| SkillParse.ParseSteps | cli/internal/skillgen/bundled.go:160-192 | The scanner loop with its flushes collects the steps in order. |
| SkillParse.ParseCanonical | cli/internal/skillgen/bundled.go:38-68 | The parser returns the content, or the error for a missing description or missing steps. |
| SkillRoundTrip.BulletsUnwrap | cli/internal/skillgen/bundled.go:141-156 | For any list of bullets, wrapping each at any of its spaces into indented lines does not change what is read. |
| SkillRoundTrip.FrontmatterRead | cli/internal/skillgen/bundled.go:74-93 | The printed frontmatter is read back field by field, and the body behind it is untouched. |
| SkillRoundTrip.PaddedLinesRead | cli/internal/skillgen/bundled.go:74-93 | Frontmatter of any lines is read line by line, and newlines in front of it and of the body do not count. |
| SkillRoundTrip.HeadingIsTrimmed | cli/internal/skillgen/bundled.go:112-138 | White space around the heading of a section does not count. |
| TextLines.ScanCRLF | cli/internal/skillgen/bundled.go:112-138 | Lines that end in a carriage return and a newline are scanned without either. |
| SkillRoundTrip.SectionsOfBody | cli/internal/skillgen/bundled.go:112-138 | Every section of a rendered body is read back under its heading, and no other. |
| SkillRoundTrip.BulletsReadBack | cli/internal/skillgen/bundled.go:141-156 | The bullets of a rendered section are read back as the list that was printed. |
| SkillRoundTrip.StepsReadBack | cli/internal/skillgen/bundled.go:160-192 | The numbered steps with their multi-line bodies are read back as printed. |
| SkillRoundTrip.ParseRendered | cli/internal/skillgen/bundled.go:38-192 | For all well-formed content, parsing the printed frontmatter and body gives the content back, up to base URL and origin. |
| SkillReadable.ParsedIsOk | cli/internal/skillgen/bundled.go:38-192 | Whatever text is parsed, names, descriptions and bullets come out as single lines, the first two trimmed, and no line of a step's body is a heading of a section or a step. |
| SkillReadable.ParseRenderedExactly | cli/internal/skillgen/bundled.go:38-192 | As long as the scanner takes the rendered lines, parsing the printed content gives it back exactly when bullets are trimmed and not empty, titles are not empty and end in no white space, step bodies are trimmed and hold no heading, the values are trimmed lines, the description is not empty, there is a step, and the version is 1. |
| SkillReadable.ParserCanReturnMore | cli/internal/skillgen/bundled.go:141-192 | Two concrete sections: one is read as a bullet with white space at its end, one as a step without a title. |
| SkillReparse.StepIsNumbered | cli/internal/skillgen/adapters.go:24-30 | The heading of each step carries the digits of its number, counting from one. |
| SkillReparse.TitleIsFirst | cli/internal/skillgen/adapters.go:13-22 | The first line rendered is the title: the skill's name, but for the skill that comes with the tool. |
| SkillReparse.RenderingTellsAll | cli/internal/skillgen/adapters.go:13-37 | Two well-formed skills that are printed alike are the same, base URL included, up to where they come from. |
| SkillReparse.ErrorsExactly | cli/internal/skillgen/bundled.go:61-66 | A printed document is refused exactly when it has no description or no steps, with the error that says so. |
| SkillReparse.DefaultsApply | cli/internal/skillgen/bundled.go:38-52 | Without a name or a version in the frontmatter the parser has its own. |
| SkillReparse.NoOpeningFence | cli/internal/skillgen/bundled.go:74-93 | A document that does not start with a fence has no frontmatter, and so lacks a description. |
| SkillReparse.NoClosingFence | cli/internal/skillgen/bundled.go:74-93 | A document whose fence is not closed by a line of exactly three dashes has no frontmatter. |
| SkillReparse.OtherLineIsSkipped | cli/internal/skillgen/bundled.go:141-156 | A line that is neither a bullet nor indented does not count. |
| SkillReparse.TitleIsRead | cli/internal/skillgen/bundled.go:177-182 | A title without an ordinal is the whole heading, and whatever stands in front of the first point is taken off. |
| SkillReparse.HermesParsed | cli/internal/skillgen/bundled.go:38-68 | The document printed for the hermes runtime is read back with its version, the description being the short one. |
| SkillRoundTrip.RenderIsFixedPoint | cli/internal/skillgen/adapters.go:13-56 | Rendering what was parsed from a rendering gives the same text. |
| AtomicFiles.WriteFileAtomic | cli/internal/skillgen/apply.go:209-249 | At every crash point the target is whole, old or new; success means new, an error means old, and nothing but the scratch file differs. It succeeds exactly when no operation has failed, and leaves a scratch file only when two have. |
| AtomicFiles.CopyFile | cli/internal/update/update.go:151-171 | A copy touches only its destination at every step, and on success the destination holds the source's content, unless they are one file. It succeeds exactly when the source is there and no operation has failed. |
| AtomicFiles.ReplaceBinary | cli/internal/update/update.go:122-149 | At every crash point the target is whole, old or new, and the old content is whole at the target or at its backup; an error means the old target, and that there was no build or an operation has failed; the result names the backup. New is the build, or nothing when the build lies where the staging file goes; a target of that name gets the build, and its old content is gone. |
| SkillFits.HasLineExactly | cli/internal/skillgen/skillgen.go:217-230 | A marker is found in a text exactly when one of its lines begins with the marker. |
| SkillFits.FitsExactly | cli/internal/skillgen/adapters.go:13-37 | A skill whose rendered lines are lines can be kept in a region exactly when it has no carriage return, its source no white space, and no line of a step's body begins with the END marker. |
| SkillApply.EditsAreGuarded | cli/internal/skillgen/apply.go:50-60 | An edit that a well-formed recorded hash proves blocks every unforced write; a refusal changes nothing, and on a shared file it has no other cause. |
| SkillEdits.EditRefusedExactly | cli/internal/skillgen/apply.go:49-60 | Told from the texts: with anything in place of the printed body, an unforced apply to a shared file and an unforced removal are refused, and leave the file, exactly when it is another text than that body, line endings and newlines at the end aside. |
| SkillEdits.MalformedIsNoEdit | cli/internal/skillgen/skillgen.go:240-249 | A region that records anything but twelve hexadecimal digits is never taken for edited. |
| SkillEdits.UpdateWritesExactly | cli/internal/skillgen/apply.go:62-78 | Over a printed region an apply writes exactly when the two renderings differ, and changes the region alone. |
| SkillEdits.DryRunTells | cli/internal/skillgen/apply.go:69-71 | A dry run reports what the real one would, and leaves the file. |
| SkillEdits.DryRemovalTells | cli/internal/skillgen/apply.go:133-136 | The same for a removal. |
| SkillEdits.ForcedRemoval | cli/internal/skillgen/apply.go:128-131 | With force a region goes, edited or not, and the text around it stays but for newlines at the ends. |
| SkillEdits.OutcomeTells | cli/internal/skillgen/apply.go:11-19 | Created means that there was no file, changed that there is another text now, skipped that neither happened nor was refused. |
| SkillEdits.SpliceReports | cli/internal/skillgen/skillgen.go:233-238 | Created means that there was no region, and user edits that the region found was edited; either means a change. |
| SkillApply.Guard | cli/internal/skillgen/apply.go:49-60 | The guard refuses exactly the unforced writes over an edited region or edited surroundings. |
| SkillApply.Apply | cli/internal/skillgen/apply.go:31-80 | Success reports and leaves what the specification says, an error means that an operation has failed and leaves the file as it was, and at every crash point the file is one or the other. |
| SkillApply.TrimSurrounding | cli/internal/skillgen/apply.go:274-282 | The two loops remove exactly the newlines at both ends. |
| SkillApply.Remove | cli/internal/skillgen/apply.go:103-170 | The same for removal: reported outcome, resulting file, errors and crash points. |
| SkillRemoval.OnlyFrontmatterExactly | cli/internal/skillgen/apply.go:256-270 | A printed frontmatter with a text behind it is only frontmatter exactly when that text is blank. |
| SkillRemoval.NoFenceNoFrontmatter | cli/internal/skillgen/apply.go:256-270 | A text that is not blank and does not start with a fence is not only frontmatter. |
| SkillRemoval.RemovalKeepsText | cli/internal/skillgen/apply.go:138-168 | Removing the region from a SKILL.md with a text behind it leaves the frontmatter and that text, and deletes the file exactly when the text is blank. |
| SkillRuns.ApplySettles | cli/internal/skillgen/apply.go:31-80 | An apply to a shared file is refused and changes nothing, or leaves an unedited region with the new hash between the same surroundings. |
| SkillRuns.RunKeepsUserText | cli/internal/skillgen/apply.go:31-80 | Over any run of applies, forced or not, dry or not, the user's text before and after the region stays what it was, up to line endings, and the region records the last accepted content. |
| SkillRuns.LastBodyStands | cli/internal/skillgen/apply.go:31-80 | When the bodies of the run and of the starting file do not collide, the region's body after any accepted apply is the last accepted content's, also when the run comes back to the starting file. |
| SkillRuns.EditsSurviveCalls | cli/internal/skillgen/apply.go:31-170 | A file whose region the user has edited comes through any sequence of applies and removals without force exactly as it is. |
| SkillRuns.SettledIsNotRefused | cli/internal/skillgen/apply.go:50-60 | Over an unedited region the guard of a shared file never refuses. |
| SkillRuns.RemoveSettled | cli/internal/skillgen/apply.go:103-170 | Removing an unedited region leaves exactly the surroundings without newlines at the ends, or no file. |
| SkillRuns.ApplyThenRemove | cli/internal/skillgen/apply.go:103-170 | Apply then remove on a shared file gives the text back up to newlines at its ends, and deletes a file with nothing else in it. |
| SkillRuns.ApplyThenRemoveRestores | cli/internal/skillgen/apply.go:103-170 | A text in the usual form is restored exactly. |
| SkillDedicated.AppliedDedicated | cli/internal/skillgen/adapters.go:78-83 | After an accepted apply a file that is all ours holds exactly the rendered file. |
| SkillDedicated.GuardIsExact | cli/internal/skillgen/apply.go:179-200 | On a file that is all ours, the next unforced apply is refused exactly when the two frontmatters differ up to surrounding white space. |
| SkillDedicated.SharedNeverRefused | cli/internal/skillgen/apply.go:50-60 | On a shared file the next unforced apply is never refused. |
| SkillDedicated.DirSkillGuard | cli/internal/skillgen/adapters.go:137-139 | On the claude and cursor files that means: exactly when the name or the description differs. |
| SkillDedicated.HermesGuard | cli/internal/skillgen/adapters.go:173-183 | On the hermes file: exactly when the name, the version or the shortened description differs. |
| SkillDedicated.RefusedExactly | cli/internal/skillgen/apply.go:49-60 | Over any file that is all ours, an unforced apply is refused exactly when there is a region and it holds an edit that the hash proves, or the text in front of it is not the new frontmatter or the text behind it is not blank; what is not refused is replaced as a whole. |
| SkillDedicated.HandwrittenIsReplaced | cli/internal/skillgen/apply.go:49-80 | Without a region, a file that is all ours is replaced as a whole. |
| SkillDedicated.AppliedIsDeleted | cli/internal/skillgen/apply.go:143-155 | Removing right after an apply deletes the dedicated file. |
| ConfigTree.Merge | src/jentic_one/shared/config.py:807-815 | The loop with its recursion merges the two mappings, whatever order the keys come in. |
| ConfigTree.MergePath | src/jentic_one/shared/config.py:807-815 | At every path the merge has what the override has, or what the base has when the walk in the override meets a missing key with only mappings before it. |
| ConfigTree.MergeIdentity | src/jentic_one/shared/config.py:807-815 | The empty mapping is a two-sided identity of merging. |
| ConfigTree.MergeIdempotent | src/jentic_one/shared/config.py:807-815 | Merging a mapping with itself changes nothing. |
| ConfigTree.MergeCovered | src/jentic_one/shared/config.py:807-815 | Merging below a mapping leaves that mapping exactly when it covers what lies below. |
| ConfigTree.Associative | src/jentic_one/shared/config.py:807-815 | Merging three mappings is associative exactly when no value of the middle one stands between two mappings of which the upper does not cover the lower. |
| ConfigTree.AssociativityCanFail | src/jentic_one/shared/config.py:807-815 | Three concrete mappings for which the two groupings differ. |
| EnvOverlay.EnvOverrides | src/jentic_one/shared/config.py:818-833 | The loop builds the mapping variable by variable, or fails when it walks into a value. |
| EnvOverlay.InsertKind | src/jentic_one/shared/config.py:829-832 | One variable sets its path, makes mappings above it, clears what was below, and leaves every other path. |
| EnvOverlay.InsertFails | src/jentic_one/shared/config.py:829-832 | One variable fails exactly when a value stands on the way to its last key. |
| EnvOverlay.LastWriterWins | src/jentic_one/shared/config.py:824-833 | In an order that loads, each path has what the last variable related to it makes of it. |
| EnvOverlay.FailsExactly | src/jentic_one/shared/config.py:824-833 | An order loads exactly when no variable comes before one whose path lies below its own. |
| EnvOrder.LeavesAreTheVariables | src/jentic_one/shared/config.py:818-833 | Consistent variables load in every order; the leaves are exactly the variables, and the mappings exactly the paths above them. |
| EnvOrder.PrefixLosesEitherWay | src/jentic_one/shared/config.py:818-833 | With one path below another, some order fails, some order loads, and every order that loads drops the longer one. |
| EnvOrder.OrderIndependentExactly | src/jentic_one/shared/config.py:818-833 | All orders give the same result exactly when no path lies below another and equal paths have equal values. |
| ConfigLoad.LoadConfig | src/jentic_one/shared/config.py:857-869 | Loading merges the file with the variables and takes `apps` apart, or fails with the variables. |
| ConfigLoad.NameIsPath | src/jentic_one/shared/config.py:818-833 | The prefix and parts joined by two underscores stand for the path of those parts in lower case. |
| ConfigLoad.ItemsExactly | src/jentic_one/shared/config.py:868-869 | A comma-separated list is read as exactly its items in order, whatever white space stands beside them and however many places are empty. |
| ConfigLoad.EveryTextIsAList | src/jentic_one/shared/config.py:868-869 | Every text is such a list. |
| ConfigLoad.ListFromEnvironment | src/jentic_one/shared/config.py:865-869 | End to end, a list in the last setting for `apps` is loaded as its items. |
| ConfigLoad.ListFromFile | src/jentic_one/shared/config.py:865-869 | And so is one in the file, when no variable has to do with `apps`. |
| ConfigLoad.AppsRoundTrip | src/jentic_one/shared/config.py:868-869 | A list of surfaces joined by commas loads back as the same list exactly when every one is non-empty, trimmed and free of commas. |
| ConfigLoad.AbsentIfUnrelated | src/jentic_one/shared/config.py:865-866 | Consistent variables leave exactly the unrelated paths to the file. |
| ConfigLoad.VariableIsLoaded | src/jentic_one/shared/config.py:865-869 | Each of a consistent set of variables is found at its path, whatever the file says. |
| ConfigLoad.FileIsLoaded | src/jentic_one/shared/config.py:865-869 | What the file says on unrelated paths stands. |
| ConfigLoad.AppsAreLoaded | cli/internal/install/compose.go:227 | In every environment that loads and does not name `apps` again later, the surfaces that the installer joins into `JENTIC__APPS` load back as the same list exactly when each is non-empty, trimmed and free of commas. |
| ConfigLoad.BrokerIsLoaded | cli/internal/install/start.go:29-34 | Whatever is inherited, a broker that loads serves `broker` alone on its port; and it loads exactly when the inherited variables do and none sets `server` itself. |
| WordWrap.WrapLines | cli/internal/cmd/catalog_browser.go:618-644 | The loop produces the greedy lines, capped. |
| WordWrap.WrapIsShortest | cli/internal/cmd/catalog_browser.go:618-638 | The greedy lines are a division of the words into lines that fit or are single words, with the fewest lines of any such division. |
| WordWrap.GreedyExactly | cli/internal/cmd/catalog_browser.go:618-638 | They are the only division into lines that fit whose lines have no room for the first word of the next. |
| WordWrap.WrapKeepsWords | cli/internal/cmd/catalog_browser.go:618-638 | The lines joined by spaces give back the words. |
| WordWrap.CapIsExact | cli/internal/cmd/catalog_browser.go:639-643 | At most `maxLines` lines, and the last one is marked exactly when no division into that few lines exists; the others are unchanged. |
| WordWrap.MarkedLine | cli/internal/cmd/catalog_browser.go:647-656 | The marked line is the longest start of its line that fits with the mark behind it, when the width is at least two, and otherwise does not keep the width. |
| ApisBrowser.Browser.constructor | cli/internal/cmd/apis_browser.go:42-60 | The browser starts empty, in the list of APIs, with a load outstanding, and valid: cursors inside their lists, the prompt for an API showing the label of the API a yes deletes. |
| ApisBrowser.Browser.Update | cli/internal/cmd/apis_browser.go:202-227 | Every message leads to the specified state and sends the specified command, and keeps the browser valid. |
| ApisBrowser.Browser.OnPage | cli/internal/cmd/apis_browser.go:229-247 | The fields change as specified for a page, appended or from the start. |
| ApisBrowser.Browser.OnRevs | cli/internal/cmd/apis_browser.go:249-262 | The same for loaded revisions. |
| ApisBrowser.Browser.OnAction | cli/internal/cmd/apis_browser.go:264-285 | The same for the reply to an action, with the reload that follows. |
| ApisBrowser.Browser.OnKey | cli/internal/cmd/apis_browser.go:287-298 | A key goes to the prompt, the search, the revisions or the list, in that order. |
| ApisBrowser.Browser.OnAPIsKey | cli/internal/cmd/apis_browser.go:300-343 | Keys in the list of APIs. |
| ApisBrowser.Browser.OnRevisionsKey | cli/internal/cmd/apis_browser.go:345-372 | Keys in the list of revisions. |
| ApisBrowser.Browser.OnConfirmKey | cli/internal/cmd/apis_browser.go:374-398 | Keys under a prompt. |
| ApisBrowser.Browser.ActOnRevision | cli/internal/cmd/apis_browser.go:402-434 | Promotion, archiving and the prompt for deletion, guarded by the revision's state. |
| ApisBrowser.Browser.OpenRevisions | cli/internal/cmd/apis_browser.go:436-450 | Opening the revisions of the API under the cursor. |
| ApisBrowser.Browser.Back | cli/internal/cmd/apis_browser.go:454-472 | Going back one layer. |
| ApisBrowser.Browser.OnSearchKey | cli/internal/cmd/apis_browser.go:474-498 | Keys while the vendor filter is typed. |
| ApisBrowser.Browser.MaybeLoadOps | cli/internal/cmd/apis_browser.go:514-529 | Loading the operations of the API under the cursor once. |
| ApisKeys.PromotesExactly | cli/internal/cmd/apis_browser.go:402-434 | In any state: a promotion is sent exactly by `p` in the revisions, without a prompt or a filter being typed, when not busy, for the draft under the cursor and the API shown. |
| ApisKeys.ArchivesExactly | cli/internal/cmd/apis_browser.go:402-434 | The same for archiving and `a`. |
| ApisKeys.AsksForRevisionExactly | cli/internal/cmd/apis_browser.go:402-434 | The prompt for a revision is opened exactly by `x` on the archived one under the cursor, and names it. |
| ApisKeys.DeletesRevisionExactly | cli/internal/cmd/apis_browser.go:374-398 | A revision is deleted exactly by a yes under that prompt, and it is the one under the cursor. |
| ApisKeys.AsksForAPIExactly | cli/internal/cmd/apis_browser.go:336-341 | The prompt for an API is opened exactly by `d` on it. |
| ApisKeys.DeletesAPIExactly | cli/internal/cmd/apis_browser.go:374-398 | An API is deleted exactly by a yes under that prompt. |
| ApisKeys.LoadsRevisionsExactly | cli/internal/cmd/apis_browser.go:264-285 | Revisions are loaded exactly for the API that is opened, and for the one shown after an action on a revision has succeeded. |
| ApisKeys.LoadsOpsExactly | cli/internal/cmd/apis_browser.go:514-529 | Operations are loaded exactly by `o`, for the API under the cursor, unless they are shown or on their way. |
| ApisKeys.LoadsMoreExactly | cli/internal/cmd/apis_browser.go:300-343 | More of the list is loaded exactly by moving down near the end of a list that has more and is not loading, from where the last page ended. |
| ApisKeys.ReloadsExactly | cli/internal/cmd/apis_browser.go:134-144 | The list is loaded from its start exactly when it is reloaded, filtered, unfiltered, or after an API was deleted, with the filter that then holds. |
| ApisKeys.QuitsExactly | cli/internal/cmd/apis_browser.go:287-343 | The browser is left exactly by Ctrl-C without a prompt, by `q` in a list, and by going back when there is nothing to go back to. |
| ApisKeys.ListIsThePages | cli/internal/cmd/apis_browser.go:229-247 | In every run the list shown is the pages that have arrived since the last one from the start, one behind the other. |
| ApisKeys.AsksBehindTheLast | cli/internal/cmd/apis_browser.go:134-144 | In every run a further page is asked for where the last one that arrived says that the list goes on. |
| ApisKeys.RevisionsFollow | cli/internal/cmd/apis_browser.go:249-262 | The revisions shown are those of the last reply since an API was opened, and the view changes only by opening, going back, and the deletion of an API. |
| ApisKeys.CursorFollows | cli/internal/cmd/apis_browser.go:300-343 | The cursor of the list moves by one with its keys, inside the list, goes to the start with a new list, and otherwise stands. |
| ApisKeys.RevCursorFollows | cli/internal/cmd/apis_browser.go:345-372 | The same for the revisions. |
| ApisKeys.VendorFollows | cli/internal/cmd/apis_browser.go:474-498 | The filter is what was entered, without white space at its ends, until it is taken back. |
| ApisKeys.OpsFollow | cli/internal/cmd/apis_browser.go:454-472 | Operations are shown once they have arrived, until they are closed under the cursor. |
| ApisKeys.OpsLoadingFollows | cli/internal/cmd/apis_browser.go:514-529 | The operations being loaded are those last asked for, until they arrive. |
| ApisKeys.LoadingFollows | cli/internal/cmd/apis_browser.go:229-247 | The list is loading from when a page is asked for until one arrives or fails to. |
| ApisKeys.BusyFollows | cli/internal/cmd/apis_browser.go:264-285 | The browser is busy from when an action is sent until one is answered, or a yes finds nothing to delete. |
| ApisKeys.PromptFollows | cli/internal/cmd/apis_browser.go:374-398 | A prompt is closed by any key and by nothing else. |
| ApisKeys.ShownAPIFollows | cli/internal/cmd/apis_browser.go:436-450 | The API shown or asked about is the one that was under the cursor. |
| ApisKeys.SearchFollows | cli/internal/cmd/apis_browser.go:474-498 | The filter is typed between `/` and enter or escape, starting from the one that holds. |
| ApisRuns.Program | cli/internal/cmd/apis_browser.go:42-60 | A browser that is handed any messages one after the other is valid and in the state that the runs speak of. |
| ApisRuns.CursorsStayInRange | cli/internal/cmd/apis_browser.go:202-450 | After any messages in any order, both cursors are inside their lists. |
| ApisPrompts.DeletesTheNamedAPI | cli/internal/cmd/apis_browser.go:336-341 | After any messages in any order, an API is deleted only from a prompt, and it is the very API that was under the cursor when the prompt was opened. |
| ApisRuns.ActionsFitTheAPI | cli/internal/cmd/apis_browser.go:402-434 | In every run in which revisions are opened only while no load of another API's is outstanding, each promotion, archiving and deletion names an API for which that revision was loaded, a draft for the first two. |
| ApisRuns.PairedExactly | cli/internal/cmd/apis_browser.go:249-262 | A possible step keeps revisions and outstanding loads paired with the API shown exactly when it does not open revisions over another API's load. |
| ApisRuns.BusyMeansPending | cli/internal/cmd/apis_browser.go:374-434 | In every run the browser is busy only while the reply to an action is outstanding. |
| ApisRuns.UncleanOpeningMisfires | cli/internal/cmd/apis_browser.go:436-450 | Every run with such an opening can go on to act on a revision never loaded for the API named. |
| ApisRuns.StaleReplyMisfires | cli/internal/cmd/apis_browser.go:155-162 | A run from the start that does so, for any two APIs. |
| ApisPrompts.PromptIsTrueExactly | cli/internal/cmd/apis_browser.go:374-398 | Under an open prompt for a revision, a yes deletes the revision named whatever replies arrive before it, exactly when neither a load of revisions nor an action on one is outstanding. |
| ApisPrompts.DeletesTheNamedRevision | cli/internal/cmd/apis_browser.go:374-398 | In every run whose prompts for revisions are opened with neither outstanding, the revision deleted is the one the prompt names. |
| ApisPrompts.LateLoadMisleads | cli/internal/cmd/apis_browser.go:249-262 | A load outstanding under the open prompt can make a yes delete another revision. |
| ApisPrompts.LateActionMisleads | cli/internal/cmd/apis_browser.go:264-285 | So can an action outstanding under it, through the reload that its reply sends for. |
| ApisPrompts.LateReloadMisfires | cli/internal/cmd/apis_browser.go:249-262 | A run from the start, without any opening over another API's load, in which a yes deletes another revision than the one named. |
| Uninstall.BackupNamesDiffer | cli/internal/cmd/uninstall.go:67-70 | Different files have different backup names, and no backup name is the file's own. |
| Uninstall.ConfigBackups | cli/internal/cmd/uninstall.go:61-64 | The two configurations have the documented backup names, which are no configurations. |
| Uninstall.BackUpConfigs | cli/internal/cmd/uninstall.go:143-155 | In any order, each configuration that is there moves to its backup; at every step none is lost. |
| Uninstall.Teardown | cli/internal/cmd/uninstall.go:143-169 | It succeeds exactly when no operation has failed, and then leaves exactly the backups of the configurations that were there, each with its content; at every step, failed or not, none is lost and no other directory changes. |
| Uninstall.TwiceLeavesNothing | cli/internal/cmd/uninstall.go:143-169 | A second teardown leaves nothing at all. |
| Polling.TotalIs | cli/internal/cmd/register.go:182-188 | The first `n` waits together, in closed form. |
| Polling.PollForTokens | cli/internal/cmd/register.go:258-284 | `n` calls are made only if the first `n - 1` waits fit the timeout; every call but the last left approval pending, and the last one is what ended it, if a call did; timing out means that the waits and all other time exceed the timeout; the loop ends. |
| Polling.WaitForApproval | cli/internal/cmd/register.go:228-249 | An agent that is approved already gets its tokens from the first call, a failure ends it there, and otherwise the polling decides. |
| Polling.PollAccessRequest | cli/internal/cmd/access.go:437-461 | The same for an access request, ended by the first status that is not pending. |
| Polling.TimedOutExactly | cli/internal/cmd/register.go:262-270 | Without time lost elsewhere, a loop that times out has made exactly as many calls as fit. |
| Polling.AccessRequest | cli/internal/cmd/access.go:283-326 | A pending request is polled when waiting is asked for, and only then: every call but the last finds it pending, the last one finds the status that is reported, unless the timeout has passed (code 3), a call has failed, or there was an interrupt. For the six statuses, codes 2, 3 and 4 mean exactly denied, expired or withdrawn; still pending after waiting; and partially approved. |

## Left out

- Byte offsets: text is modelled as characters; invalid UTF-8 does not occur.
- Hash values: SHA-256 itself is library code.
- File permissions, symbolic links, pruning of empty directories, and other processes writing to the same file.
- Whether a file exists is taken as known; a `Stat` that fails for another reason counts as the read error where the source has one.
- The random name of the scratch file is a parameter, required to be unused, as the system promises.
- AtomicFiles.ReplaceBinary: a target that has the name of the staging file itself is promised no crash safety, because the code overwrites it before it is backed up.
- SkillReadable.ParseRenderedExactly: content with rendered lines that end in a carriage return or exceed the scanner's limit, and base URLs of several lines; what is lost of them is not stated.
- SpliceLimits.GuardUnreachableExactly: sources of several lines; the source constants are single words.
- Operator registry, detection, and the paths of the adapters: configuration tables.
- The embedded skill text and the stamping of base URL and origin in `Bundled`.
- EnvOverlay.EnvOverrides: the source changes nested dictionaries in place through a moving reference; the model rebuilds the path on values, which cannot show aliasing. The splitting of names and the skipping of foreign variables come before the loop here.
- Finding and reading the configuration file, YAML syntax, keys that are no strings, and the validation of the merged mapping.
- Python's lower-casing is a parameter; only what it does to the three names that the installer uses is assumed, where it is needed.
- The launcher's removal of repeated names from an environment: the broker result holds for whatever is inherited.
- ApisBrowser.Browser.OnSearchKey: backspace removes a character, where the source removes the last byte of a character of several bytes.
- ApisBrowser.Browser.Update: error texts, status lines, window size, scroll offsets and the quit flag only affect drawing and are not modelled; of loaded operations only the labels are kept.
- Docker, process handling and prompts of the uninstall command; entries that appear in the directory while it runs.
- Uninstall.Teardown: removing an entry is one operation that may fail half-way, not a recursive walk.
- Polling.AccessRequest: filing the request and printing it; a status outside the six exits with 0, as in the source.
- HTTP clients, terminal drawing, the install wizard, the web application, and the server side: not part of this model.
