# Verified models of the workspace backend and the agent server

A Dafny model of the parts of this repository whose correctness does not show from reading one
function: applying unified diffs, reading and printing configuration through environment variables,
rate-limited provider calls, webhook buffering, streaming of command output, run-task ownership,
paging, repository listing, context assembly and skill names. Code that works by updating variables is
modelled by methods and classes with loops, proved equal to specification functions; concurrent code is
modelled as step machines whose properties are proved for every interleaving.

| files | what they model |
|---|---|
| `Text.dfy` | decimal numerals, white space, searching and replacing in strings |
| `PatchApply.dfy`, `PatchTheorems.dfy` | the staged search for a hunk's place and the cursor that rewrites a file; when it succeeds and what it produces |
| `PatchLines.dfy` | which lines count as the same, what a hunk header is, which complaint a failing hunk draws |
| `PatchRoundTrip.dfy`, `PatchDrift.dfy` | edit scripts, printed as hunks and applied forwards and backwards; hunks whose line numbers are off |
| `PatchParse.dfy`, `PatchMetadata.dfy` | parsing patch text into files and hunks; counting added and removed lines |
| `PatchText.dfy` | edit scripts printed as patch text, parsed and applied, lines that look like file marks included |
| `EnvParser.dfy`, `EnvReader.dfy`, `EnvLocality.dfy` | reading a value from environment variables through a possibly cyclic graph of parsers |
| `EnvMeaning.dfy` | which value wins where several are merged, what becomes of fields, items and kinds, what the leaves accept |
| `EnvBuild.dfy`, `EnvSchema.dfy` | building that graph from a class table; the round trip for the classes themselves |
| `EnvTemplate.dfy`, `EnvText.dfy` | printing a value as template text, and the variables a line-by-line loader takes from the text |
| `EnvRoundTrip.dfy`, `EnvLineFeed.dfy`, `EnvTextRoundTrip.dfy` | reading the variables back, and exactly when the whole value returns |
| `CircuitBreaker.dfy`, `LlmCalls.dfy` | semaphore, slot reservation, sliding-window circuit breaker, retries |
| `Webhook.dfy` | buffered event posting with a flush timer, retries and re-queueing |
| `BashStream.dfy` | two readers that cut command output into chunks under one order counter |
| `RunTask.dfy` | who owns the reference to the background run |
| `Paging.dfy` | filtered, sorted listings read page by page, and the separate count |
| `RepoTree.dfy` | the size- and depth-limited directory walk |
| `ContextPack.dfy` | collecting snippets under a character budget; the cache of context packs |
| `SkillName.dfy` | normalising and validating skill names |

## What the proofs found

These are facts about the code as it stands; each has a lemma with the exact condition or a concrete run.

- A hunk that only inserts, printed with the usual empty-range header, is placed one line early. The
  result is right exactly when the inserted lines are copies of the line they jump over, or the
  insertion stands right at the cursor (`PatchRoundTrip.ApplyRenderedIff`, `PatchRoundTrip.EarlyInsertionExample`).
- The two relaxed fallbacks of the hunk search never make a hunk apply (`PatchTheorems.RelaxedNeverSucceeds`).
- Patch paths lose an inner `a/` or `b/` when the prefix is taken off: `lib/x` becomes `lix`
  (`PatchParse.OldPathSurvivesIff`, `PatchParse.NewPathSurvivesIff`, `PatchParse.InnerPrefixLost`).
- A removed line whose text begins with `-- ` ends its hunk and its file's hunks early
  (`PatchParse.TaggedBoundary`). The text of a patch still reaches the target exactly when, from that line
  on, the edits change nothing and forge no file mark (`PatchText.PatchTextRoundTripIff`,
  `PatchText.DashedButHarmless`).
- Changed text that looks like a file mark is not counted (`PatchMetadata.MetadataCountsIff`,
  `PatchMetadata.LookalikeUncounted`).
- Printing a configuration value raises `TypeError` when it reaches a union with a subscripted alternative
  such as `list[int] | None`, whatever the value is (`EnvSchema.SubscriptedUnionRaises`,
  `EnvSchema.OptionalListRaises`). Otherwise the parsers read the whole value from the printed text exactly
  when no list in it is empty, no model in it lacks fields, no string in it holds a line feed or a NUL, and
  the prefix can name its variables (`EnvTextRoundTrip.RoundTripIff`, `EnvSchema.ClassRoundTripIff`). A
  string with a line feed may set an unrelated variable (`EnvText.LineFeedSpills`). This is about what the
  parsers return; validation afterwards may put defaults where they return nothing.
- Cancelling the flush timer during its own post drops the batch, and nothing else ever does
  (`Webhook.StrictIffNoPostCancelled`, `Webhook.DroppedByClose`). Events are left in the queue with no timer to flush them exactly
  when they arrive during the tracked timer's own post or are put back after the last retry, with no other
  timer waiting (`Webhook.UnattendedIff`); no task moves them again (`Webhook.UnattendedStays`).
- Order numbers of command output repeat exactly when a chunk of one stream is cut while the other stream
  is publishing one (`BashStream.OrdersDistinctIff`).
- A repository tree of exactly the permitted size is complete and still reported as truncated
  (`RepoTree.UnflaggedIsComplete`).
- A skill name with a final line feed passes validation, because `$` matches before it (`SkillName.ValidIff`).
- A page size below one returns the same page for ever (`Paging.PagesMakeTheListing`).
- A context pack exceeds the budget of a request exactly when an earlier request with the same fingerprint
  stored a larger one (`ContextPack.AnswerFitsIff`, `ContextPack.CachedPackOvershoots`).

## Model

| member | source | states |
|---|---|---|
| PatchApply.HunkMatchesAt | app/backend/main.py:239-254 | the matching loop with its moving probe decides whether a hunk matches at a position |
| PatchApply.MatchesAtIff | app/backend/main.py:228-254 | a hunk matches at a position iff every line carries a known tag and the block of its context and removed lines stands there, up to trailing white space and CR |
| PatchLines.SameLineIff | app/backend/main.py:228-237 | without carriage returns, two lines are the same iff they differ in trailing white space only |
| PatchLines.CarriageReturnIgnored | app/backend/main.py:228-229 | a carriage return anywhere in a line makes no difference |
| PatchLines.IndentationCounts | app/backend/main.py:228-237 | lines with different leading white space are never the same |
| PatchLines.UnknownLineFails | app/backend/main.py:299-333 | a hunk that names a line the source does not have never applies |
| PatchLines.IndentedTextStays | app/backend/main.py:299-333 | a hunk for unindented text does not rewrite the indented text |
| PatchLines.ParseHeaderIff | app/backend/main.py:302-305 | a line is a hunk header with given numbers iff it has the shape of one, counts optional and anything after it |
| PatchLines.FirstComplaint | app/backend/main.py:314-333 | a failing body fails with the complaint of its first line that draws one |
| PatchLines.HunkComplaint | app/backend/main.py:302-333 | a hunk fails on its header iff that is no header, otherwise for want of a place or on its body |
| PatchApply.FirstMatch | app/backend/main.py:267-272 | the lowest matching position of a range, or none when there is none |
| PatchApply.CollectTagged | app/backend/main.py:274-274 | the lines with one tag, in order, without the tag |
| PatchApply.BlockMatches | app/backend/main.py:277-283 | comparing a block line by line with early exit decides equality of the normalised blocks |
| PatchApply.FindBlock | app/backend/main.py:276-283 | the first place at or after the cursor where a non-empty block stands |
| PatchApply.FindHunkStart | app/backend/main.py:256-297 | the five-stage search computes the specified position |
| PatchApply.ApplyHunkBody | app/backend/main.py:314-333 | the loop over one hunk's lines appends and advances as specified, with the same error for the same line |
| PatchApply.CopyLines | app/backend/main.py:311-313 | unchanged lines up to the hunk (or the end) are copied and the cursor ends there |
| PatchApply.PlaceHunk | app/backend/main.py:302-333 | header, search, copy and body of one hunk, including all its errors |
| PatchApply.ApplyHunksToLines | app/backend/main.py:299-337 | the whole loop over hunks computes the specified result or error |
| PatchTheorems.NewBlockLength | app/backend/main.py:314-331 | a hunk's new block is as long as the old one plus added minus removed lines |
| PatchTheorems.ApplyBodyIff | app/backend/main.py:314-333 | processing a body at the cursor succeeds iff it matches there, consumes exactly its old block and yields the new block, context keeping the source's text |
| PatchTheorems.StrictStartIff | app/backend/main.py:261-272 | the strict stages find a place iff one exists at or after the cursor |
| PatchTheorems.StrictStartIsPreferred | app/backend/main.py:261-272 | the place chosen is the nominal line, else the lowest match within 120 lines of it, else the lowest match at or after the cursor, and it is determined by that |
| PatchTheorems.RelaxedNeverSucceeds | app/backend/main.py:273-297 | a place found only by a fallback is rejected when the body is applied |
| PatchTheorems.ApplyHunkIff | app/backend/main.py:256-333 | a hunk applies iff its header parses and a strict match exists at or after the cursor, and then it replaces exactly the preferred occurrence |
| PatchTheorems.AppliedIsSpliced | app/backend/main.py:299-337 | on success the source is gap, old block, gap, ... and the output is the same gaps in the same order with every old block replaced |
| PatchTheorems.SplicedLength | app/backend/main.py:299-337 | length of the spliced text from the added and removed lines |
| PatchTheorems.AppliedLength | app/backend/main.py:299-337 | output length is source length plus added minus removed lines |
| PatchTheorems.AppliesIff | app/backend/main.py:299-337 | success of the whole patch, told by strict matches only |
| PatchRoundTrip.ParsePrintedHeader | app/backend/main.py:302-305 | parsing a printed hunk header gives back its four numbers |
| PatchRoundTrip.RenderedLands | app/backend/main.py:256-337 | for every edit script that fits the source, applying its printed hunks succeeds, with a stated result |
| PatchRoundTrip.LandedIsTargetIff | app/backend/main.py:256-337 | that result is the intended target iff every early insertion is harmless |
| PatchRoundTrip.ApplyRenderedIff | app/backend/main.py:224-337 | applying the hunks printed for an edit script gives the target iff every early insertion is harmless |
| PatchRoundTrip.AnchoredRoundTrip | app/backend/main.py:224-337 | it always gives the target when each hunk names an old line or stands right at the cursor, white-space drift included |
| PatchRoundTrip.EarlyInsertionExample | app/backend/main.py:261-263 | a concrete insertion that lands one line early |
| PatchRoundTrip.ReverseOfRendered | app/backend/main.py:302-305 | swapping sides in the printed hunks is printing the inverse script with the starts shifted by the accumulated deltas |
| PatchRoundTrip.InverseLeadsBack | app/backend/main.py:224-337 | the inverse script fits the target and leads back to the source |
| PatchRoundTrip.PatchThenReverseIff | app/backend/main.py:224-337 | the hunks give the target, and the reversed hunks give back the source from it, each iff its early insertions are harmless |
| PatchRoundTrip.PatchThenReverse | app/backend/main.py:224-337 | patch then reverse patch is the identity when each hunk names an old line on both sides or stands at the cursor |
| PatchDrift.DriftedLands | app/backend/main.py:256-337 | hunks with wrong line numbers rewrite the text where their lines are now, when the search prefers those places |
| PatchDrift.AppliesBelowPrefix | app/backend/main.py:261-272 | with lines added above the file the patch gives the target below them when each hunk is preferred at its shifted place |
| PatchDrift.AppliesWhenUnambiguous | app/backend/main.py:261-272 | that holds for any number of added lines, inside the window or beyond, when no hunk's old lines occur earlier after the cursor |
| PatchParse.ReadBody | app/backend/main.py:211-216 | a body runs up to the next line that opens a hunk or a file, or to the end |
| PatchParse.ReadHunks | app/backend/main.py:207-219 | the hunk loop splits off exactly the hunks that follow |
| PatchParse.ParseUnifiedPatch | app/backend/main.py:189-221 | the whole parser terminates on every input and computes the specified files |
| PatchParse.TaggedBoundary | app/backend/main.py:213-214 | a tagged line is mistaken for a boundary iff it removes text beginning with `-- ` |
| PatchParse.ParsedFilesOk | app/backend/main.py:207-217 | every parsed hunk has a hunk header and a body without boundaries |
| PatchParse.ParsePrintedFiles | app/backend/main.py:189-221 | parsing printed files gives the same hunks grouped under the same files, the paths as they are reread |
| PatchParse.OldPathSurvivesIff | app/backend/main.py:182-186 | an old path survives iff it has no white space at its end and no `b/` inside |
| PatchParse.NewPathSurvivesIff | app/backend/main.py:182-186 | a new path survives iff it has no white space at its end and no `a/` inside |
| PatchParse.PlainPath | app/backend/main.py:182-186 | a path without the prefixes is only stripped; nothing and the null device are no path |
| PatchParse.InnerPrefixLost | app/backend/main.py:186-186 | `lib/x` comes back as `lix` |
| PatchParse.ParseUndoesPrintIff | app/backend/main.py:182-221 | parsing undoes printing iff every hunk is printable and every path survives |
| PatchMetadata.ExtractDiffMetadata | app/backend/main.py:547-567 | the report lists every path once, in order of first appearance, with the specified counts |
| PatchMetadata.CountFromBound | app/backend/main.py:556-561 | no file is charged more than the lines could add or remove |
| PatchMetadata.CountedUnderPath | app/backend/main.py:552-552 | a printed path without mark, prefix or outer white space is counted under itself |
| PatchMetadata.MetadataCountsIff | app/backend/main.py:547-567 | for a whole printed patch, the counts of every path are the true additions and removals iff no added text starts with `++` and no removed text with `--` |
| PatchMetadata.LookalikeUncounted | app/backend/main.py:558-561 | an added line `++x` that is not counted |
| PatchMetadata.MetadataPredictLength | app/backend/main.py:189-337 | printed, counted, parsed and applied: a file's output length is its source length plus the counted additions minus the counted removals |
| PatchText.PatchRereadIff | app/backend/main.py:189-337 | the patch text of several files reads back as the very same files, and each application reaches its target, iff each path survives, no removed text starts with `-- `, and every early insertion is harmless |
| PatchText.ParsedCount | app/backend/main.py:195-221 | the parser returns one file for every line that opens a file and is followed by one that names its new path, wherever it stands |
| PatchText.ParseCutFiles | app/backend/main.py:189-221 | printed files with file marks among their lines parse as the same files with their hunks cut at the first mark |
| PatchText.CutLands | app/backend/main.py:224-337 | what applying such cut hunks makes of the source |
| PatchText.PatchTextRoundTripIff | app/backend/main.py:189-337 | the patch text of several files, parsed and applied, names the same files and takes every source to its target iff each path survives, no file mark is forged, early insertions are harmless up to the first removed line that opens a file, and from there on the edits change nothing |
| PatchText.UndashedHarmless | app/backend/main.py:211-216 | without such removed lines the condition is that of the application alone |
| PatchText.DashedButHarmless | app/backend/main.py:211-216 | a patch that loses a removed and re-added line and still reaches its target |
| EnvParser.FromEnv | openhands-agent-server/openhands/agent_server/env_parser.py:50-357 | reading terminates for every environment and every graph whose cycles pass through models; without variables under the key nothing is read |
| EnvParser.Merge | openhands-agent-server/openhands/agent_server/env_parser.py:360-382 | merging with a missing value is the identity, and a result is missing only if both sides are |
| EnvMeaning.OverlayWins | openhands-agent-server/openhands/agent_server/env_parser.py:360-382 | wherever the later value has a leaf, at any depth, the merged value has that leaf |
| EnvMeaning.BaseStays | openhands-agent-server/openhands/agent_server/env_parser.py:360-382 | where the later value says nothing, the merged value keeps the earlier one's |
| EnvMeaning.MergeRaisesIff | openhands-agent-server/openhands/agent_server/env_parser.py:370-377 | merging raises iff somewhere both have a list and the later one is longer |
| EnvMeaning.ModelEntry | openhands-agent-server/openhands/agent_server/env_parser.py:118-149 | every entry a model reads is its JSON entry overlaid with the reading of the field of that name |
| EnvMeaning.NothingReadIff | openhands-agent-server/openhands/agent_server/env_parser.py:125-149 | a model reads as nothing iff it has no JSON and no field reads as something |
| EnvMeaning.VariableWins | openhands-agent-server/openhands/agent_server/env_parser.py:139-147 | a value read from a field's variables stands in the model whatever the JSON says |
| EnvMeaning.DecodedStays | openhands-agent-server/openhands/agent_server/env_parser.py:139-147 | where a field's variables say nothing the JSON value stands |
| EnvMeaning.VariableOverridesJson | openhands-agent-server/openhands/agent_server/env_parser.py:118-149 | a number in JSON overridden by the field's own variable |
| EnvMeaning.LastAlternativeWins | openhands-agent-server/openhands/agent_server/env_parser.py:245-250 | the last alternative of a union with a value at a path decides it |
| EnvMeaning.ItemsInOrder | openhands-agent-server/openhands/agent_server/env_parser.py:184-197 | a list holds exactly the readings of items 0, 1, 2, ... up to the first missing one |
| EnvMeaning.ItemsOverlaid | openhands-agent-server/openhands/agent_server/env_parser.py:209-217 | each item of a decoded list is overlaid with its own reading |
| EnvMeaning.NumberedList | openhands-agent-server/openhands/agent_server/env_parser.py:202-217 | a number asks for that many items, any of which may be missing |
| EnvMeaning.KindReads | openhands-agent-server/openhands/agent_server/env_parser.py:279-311 | a named kind is read by the parser of that name, and the name is recorded |
| EnvMeaning.KindUnknown | openhands-agent-server/openhands/agent_server/env_parser.py:280-297 | an unknown kind raises; without a kind several alternatives read as nothing |
| EnvMeaning.UpperIsCapitals | openhands-agent-server/openhands/agent_server/env_parser.py:129-129 | names are upper-cased letter by letter |
| EnvMeaning.VariableNames | openhands-agent-server/openhands/agent_server/env_parser.py:129-190 | the variable names of a field and of an item, concretely |
| EnvMeaning.TrueIff | openhands-agent-server/openhands/agent_server/env_parser.py:50-54 | exactly which texts are true |
| EnvMeaning.IntegerNotation | openhands-agent-server/openhands/agent_server/env_parser.py:60-64 | signs, outer white space and single underscores in integers |
| EnvMeaning.NoInteger | openhands-agent-server/openhands/agent_server/env_parser.py:60-64 | any other character makes an integer unreadable |
| EnvParser.ItemsFrom | openhands-agent-server/openhands/agent_server/env_parser.py:183-197 | the sequential list loop stops: only finitely many indices lead to variables |
| EnvParser.GuardLimitsLength | openhands-agent-server/openhands/agent_server/env_parser.py:131-137 | when the guard lets a field be read, less room is left under the environment's longest name |
| EnvReader.MergeValues | openhands-agent-server/openhands/agent_server/env_parser.py:360-382 | merging in place, element by element, computes the specified merge, including the index error of a longer overlay |
| EnvReader.ReadModel | openhands-agent-server/openhands/agent_server/env_parser.py:118-149 | the loop over a model's fields reads the specified value |
| EnvReader.ReadItems | openhands-agent-server/openhands/agent_server/env_parser.py:184-197 | the loop over items 0, 1, 2, ... reads the specified list |
| EnvReader.ReadOverlay | openhands-agent-server/openhands/agent_server/env_parser.py:209-217 | overwriting each item in place by its merge gives the specified list |
| EnvReader.ReadAlternatives | openhands-agent-server/openhands/agent_server/env_parser.py:245-250 | the loop over a union's alternatives merges as specified |
| EnvReader.ReadEnv | openhands-agent-server/openhands/agent_server/env_parser.py:50-357 | the whole family of imperative readers terminates and agrees with the specification |
| EnvLocality.FromEnvLocal | openhands-agent-server/openhands/agent_server/env_parser.py:118-149 | a result at a key depends only on the variables equal to the key or under key + `_` |
| EnvLocality.MissingWithoutVars | openhands-agent-server/openhands/agent_server/env_parser.py:183-197 | with no such variables, and no dangling reference, the result is missing and nothing is raised |
| EnvLocality.GuardIrrelevant | openhands-agent-server/openhands/agent_server/env_parser.py:131-137 | the coarser prefix guard changes no result: the exact guard reads the same |
| EnvBuild.BuildSound | openhands-agent-server/openhands/agent_server/env_parser.py:385-446 | building keeps the registry sound: no reference dangles once its class is finished, every parser respects the class order, work in progress is as before |
| EnvBuild.BuiltGraphIsReadable | openhands-agent-server/openhands/agent_server/env_parser.py:385-446 | every graph built from scratch meets what reading needs: cycles pass through models, every delayed reference resolves |
| EnvBuild.KnownIsBuilt | openhands-agent-server/openhands/agent_server/env_parser.py:385-446 | classes all of whose fields have known types always get a parser |
| EnvBuild.UnknownIsNotBuilt | openhands-agent-server/openhands/agent_server/env_parser.py:446-446 | an unknown class never does |
| EnvBuild.ParserRegistry.GetEnvParser | openhands-agent-server/openhands/agent_server/env_parser.py:385-446 | the construction that fills the dictionary and the delayed references terminates and does what the specification says, forgetting no class |
| EnvBuild.ParserRegistry.GetAll | openhands-agent-server/openhands/agent_server/env_parser.py:396-435 | the parsers of a list of member types or fields, built one after the other in one dictionary |
| EnvTemplate.Template.ToEnv | openhands-agent-server/openhands/agent_server/env_parser.py:43-357 | printing fails iff the value reaches a union with a subscripted alternative, and otherwise appends exactly the specified text |
| EnvTemplate.Template.WriteOptional | openhands-agent-server/openhands/agent_server/env_parser.py:252-272 | every alternative's type is tested before the one that fits is printed |
| EnvTemplate.Template.WriteFields | openhands-agent-server/openhands/agent_server/env_parser.py:151-162 | a model's fields are printed in order under their keys, up to the first that fails |
| EnvTemplate.Template.WriteItems | openhands-agent-server/openhands/agent_server/env_parser.py:219-223 | a list's items are printed in order under their indices, up to the first that fails |
| EnvTemplate.PrintedUnder | openhands-agent-server/openhands/agent_server/env_parser.py:43-355 | every variable a value is meant to set lies under its key |
| EnvText.TextLoads | openhands-agent-server/openhands/agent_server/env_parser.py:43-162 | the text of a value whose strings fit a line and a variable, under a usable key, sets exactly the variables it was meant to set, all under that key |
| EnvText.LineFeedSpills | openhands-agent-server/openhands/agent_server/env_parser.py:43-47 | a string with a line feed loses its rest and sets a variable of its own |
| EnvText.BadKeyLoadsNothing | openhands-agent-server/openhands/agent_server/env_parser.py:43-47 | under a prefix with an equals sign, a line feed or a NUL, or that starts a comment, no text sets anything |
| EnvTemplate.RegionsApart | openhands-agent-server/openhands/agent_server/env_parser.py:159-161 | sibling names that are no underscore-extension of each other have disjoint variables |
| EnvTemplate.FieldReads | openhands-agent-server/openhands/agent_server/env_parser.py:118-162 | under a field's key stand exactly the variables meant for that field |
| EnvTemplate.ItemReads | openhands-agent-server/openhands/agent_server/env_parser.py:183-223 | under an index stand exactly that item's variables, and none past the end |
| EnvTemplate.NoneHidden | openhands-agent-server/openhands/agent_server/env_parser.py:81-91 | a printed `IS_NONE` marker is not seen by the parser of the present value |
| EnvRoundTrip.ParsePrintedInt | openhands-agent-server/openhands/agent_server/env_parser.py:60-64 | a printed integer, of any sign, reads back |
| EnvRoundTrip.ReadBack | openhands-agent-server/openhands/agent_server/env_parser.py:43-272 | from the variables a value is meant to set, reading gives exactly its visible part: empty lists and models without fields read as missing |
| EnvRoundTrip.VariablesRoundTripIff | openhands-agent-server/openhands/agent_server/env_parser.py:43-272 | from those variables the whole value is read iff no list in it is empty and no model lacks fields |
| EnvLineFeed.NeverRead | openhands-agent-server/openhands/agent_server/env_parser.py:118-250 | no value read contains a string that no line holds and no unintended variable decodes to |
| EnvTextRoundTrip.UnfitStringLost | openhands-agent-server/openhands/agent_server/env_parser.py:43-272 | a value with a line feed or a NUL in a string is never read back, whatever its lines set |
| EnvTextRoundTrip.RoundTripIff | openhands-agent-server/openhands/agent_server/env_parser.py:43-272 | `from_env` undoes `to_env` through the text iff no reached union has a subscripted alternative, no list is empty, no model lacks fields, no string holds a line feed or a NUL, and the key can name its variables |
| EnvTextRoundTrip.RoundTripAmongOthers | openhands-agent-server/openhands/agent_server/env_parser.py:118-197 | a value that round-trips does so among any other variables outside its key |
| EnvTextRoundTrip.PrintTemplate | openhands-agent-server/openhands/agent_server/env_parser.py:501-511 | the top-level printer yields the specified text, or fails iff the value is not printable |
| EnvSchema.BuildRepresents | openhands-agent-server/openhands/agent_server/env_parser.py:385-446 | what is built for a type has the type's structure, delayed references standing for their classes |
| EnvSchema.BuiltIsPlain | openhands-agent-server/openhands/agent_server/env_parser.py:385-446 | for classes with proper names the built graph meets every condition of the round trip |
| EnvSchema.ClassRoundTripIff | openhands-agent-server/openhands/agent_server/env_parser.py:43-446 | the round trip with the parsers that are built for a class |
| EnvSchema.SubscriptedUnionRaises | openhands-agent-server/openhands/agent_server/env_parser.py:252-269 | no value of a union with a subscripted member can be printed |
| EnvSchema.OptionalListRaises | openhands-agent-server/openhands/agent_server/env_parser.py:252-269 | the parser built for an optional list of integers refuses the absent value |
| EnvRoundTrip.CollidingNamesLoseValues | openhands-agent-server/openhands/agent_server/env_parser.py:129-161 | a nested model beside a sibling named like its field: two different values print the same environment, so the condition on names cannot be dropped altogether |
| CircuitBreaker.PruneIsWithin | app/backend/llm_call_manager.py:156-157 | dropping the old front of a sorted deque keeps exactly the times within the window |
| CircuitBreaker.WithinIff | app/backend/llm_call_manager.py:156-157 | a time is kept iff it is at most the window before now |
| CircuitBreaker.PruneRefinesHistory | app/backend/llm_call_manager.py:154-157 | pruning the pruned deque is filtering the whole history |
| CircuitBreaker.ProviderState.ReserveSlot | app/backend/llm_call_manager.py:233-238 | the delay leads exactly to the reserved slot, and the next slot moves on by the interval |
| CircuitBreaker.ProviderState.OpenCircuit | app/backend/llm_call_manager.py:149-167 | records, prunes and opens as specified, and nothing else changes |
| LlmCalls.StepKeeps | app/backend/llm_call_manager.py:221-316 | every step of every call keeps the invariant on permits, lock, slots, attempts and breaker |
| LlmCalls.RunKeeps | app/backend/llm_call_manager.py:221-316 | the invariant holds in every interleaving, successive slots at least the interval apart |
| LlmCalls.ConcurrencyBounded | app/backend/llm_call_manager.py:120-127 | calls in flight never exceed the permits, and all permits are back when every call has returned or raised |
| LlmCalls.AttemptsDisciplined | app/backend/llm_call_manager.py:221-316 | a call that meets an open circuit never invokes the provider; any other waits for its own slot first and makes at most its permitted attempts |
| LlmCalls.RunTimes | app/backend/llm_call_manager.py:153-155 | clock and 429 history are what the run's own steps make them |
| LlmCalls.RunTells | app/backend/llm_call_manager.py:221-316 | over runs: a call's invocations and their limit, whether it is over, and how, told by its steps alone |
| LlmCalls.RetriedBelowLimit | app/backend/llm_call_manager.py:287-316 | a retryable failure that opens no circuit ends the call iff its invocations are used up, and otherwise the call backs off |
| LlmCalls.ExhaustedUsedAll | app/backend/llm_call_manager.py:289-297 | a call gives up as exhausted only after exactly the invocations allowed |
| LlmCalls.SpacedCount | app/backend/llm_call_manager.py:236-238 | times a fixed interval apart fill a window only up to its length |
| LlmCalls.SlotsInWindow | app/backend/llm_call_manager.py:232-240 | any window of length W holds at most W / m + 1 slots |
| LlmCalls.OpensIffEnoughRecent | app/backend/llm_call_manager.py:149-167 | after any run, a 429 opens the circuit iff the 429s of the whole history within the window reach the threshold |
| LlmCalls.OpenIffTripped | app/backend/llm_call_manager.py:144-167 | after any run, the circuit is open at a moment iff some 429 of the whole history, less than the opening time before it, reached the threshold within its window |
| Webhook.RunConserves | openhands-agent-server/openhands/agent_server/conversation_service.py:544-633 | in every interleaving each event is delivered, in a batch being posted, queued or dropped by a cancellation, as often as it was received |
| Webhook.RunRecords | openhands-agent-server/openhands/agent_server/conversation_service.py:544-603 | over runs: received is exactly what arrived, delivered exactly what was posted with success |
| Webhook.SuccessEnds | openhands-agent-server/openhands/agent_server/conversation_service.py:588-603 | a success delivers the batch and ends the task |
| Webhook.FailureDecides | openhands-agent-server/openhands/agent_server/conversation_service.py:604-614 | a failure re-queues the batch iff it is failure number `num_retries` + 1, and otherwise the same batch is posted again after a pause |
| Webhook.AttemptsBounded | openhands-agent-server/openhands/agent_server/conversation_service.py:588-614 | a batch is posted at most `num_retries` + 1 times |
| Webhook.StepDrops | openhands-agent-server/openhands/agent_server/conversation_service.py:616-633 | a step drops exactly the batch of the timer whose post it cancels |
| Webhook.RunDropsIff | openhands-agent-server/openhands/agent_server/conversation_service.py:616-633 | a run drops some event iff some step of it cancelled a timer during its own post |
| Webhook.StrictIffNoPostCancelled | openhands-agent-server/openhands/agent_server/conversation_service.py:544-633 | received = delivered + being posted + queued, as multisets, iff no timer was cancelled during its own post; `DroppedByClose` and `DroppedByArrivals` are runs where one was |
| Webhook.DroppedByClose | openhands-agent-server/openhands/agent_server/conversation_service.py:555-561 | closing during the timer's own post drops the batch |
| Webhook.DroppedByArrivals | openhands-agent-server/openhands/agent_server/conversation_service.py:548-551 | arrivals that fill the buffer during the timer's own post drop the batch |
| Webhook.ArrivalAttendedIff | openhands-agent-server/openhands/agent_server/conversation_service.py:544-553 | after an arrival a timer will flush the queue iff the buffer filled, no timer was tracked, or some timer waits |
| Webhook.AttendedCanFlush | openhands-agent-server/openhands/agent_server/conversation_service.py:622-633 | a waiting timer takes the whole queue into a post by its own steps |
| Webhook.UnattendedStepIff | openhands-agent-server/openhands/agent_server/conversation_service.py:544-633 | a step leaves the queue without a waiting timer iff it strands events, or they were stranded and it does not rescue them |
| Webhook.UnattendedIff | openhands-agent-server/openhands/agent_server/conversation_service.py:544-633 | over runs: a non-empty queue has no waiting timer iff the last stranding step (arrival during the tracked timer's post, or exhausted retries) has not been followed by a rescuing one |
| Webhook.UnattendedStays | openhands-agent-server/openhands/agent_server/conversation_service.py:563-633 | stranded events stay queued, in order, until another arrival or the close |
| Webhook.StrandedByArrival | openhands-agent-server/openhands/agent_server/conversation_service.py:552-553 | a run in which an event arrives during the timer's own post and is stranded |
| Webhook.StrandedByFailure | openhands-agent-server/openhands/agent_server/conversation_service.py:605-614 | a run in which a batch is put back after its last retry and is stranded |
| Webhook.WebhookSubscriber.ReceiveEvent | openhands-agent-server/openhands/agent_server/conversation_service.py:544-553 | an arrival up to its first await: whole new state |
| Webhook.WebhookSubscriber.CancelFlushTimer | openhands-agent-server/openhands/agent_server/conversation_service.py:616-620 | cancelling marks an unfinished timer and clears the reference |
| Webhook.WebhookSubscriber.PostEvents | openhands-agent-server/openhands/agent_server/conversation_service.py:563-569 | taking the batch empties the queue into the post |
| Webhook.WebhookSubscriber.CloseSubscriber | openhands-agent-server/openhands/agent_server/conversation_service.py:555-561 | closing cancels the timer and posts what is left |
| Webhook.WebhookSubscriber.TimerFires | openhands-agent-server/openhands/agent_server/conversation_service.py:622-633 | a timer that fires posts the queue, or ends when it is empty |
| Webhook.WebhookSubscriber.PostAnswered | openhands-agent-server/openhands/agent_server/conversation_service.py:588-614 | success delivers; failure retries, and after the last attempt puts the batch back behind the queue |
| BashStream.CutIsUnique | openhands-agent-server/openhands/agent_server/bash_service.py:228-231 | full chunks and a short remainder are the only cut of a text |
| BashStream.RunKeeps | openhands-agent-server/openhands/agent_server/bash_service.py:206-253 | the invariant of the two interleaved readers and the shared counter |
| BashStream.RunReads | openhands-agent-server/openhands/agent_server/bash_service.py:214-225 | a reader holds exactly the text the run read from its stream |
| BashStream.OutputIsDetermined | openhands-agent-server/openhands/agent_server/bash_service.py:206-302 | in every interleaving without timeout each stream's chunks and remainder are exactly the text read, cut at the maximum length: neither the schedule nor the read sizes show |
| BashStream.FinalOrderIsLast | openhands-agent-server/openhands/agent_server/bash_service.py:289-302 | the final event's order is the number of events before it and exceeds all of theirs |
| BashStream.OrdersIncrease | openhands-agent-server/openhands/agent_server/bash_service.py:234-243 | orders strictly increase within a stream |
| BashStream.OrdersDistinctIff | openhands-agent-server/openhands/agent_server/bash_service.py:228-243 | over runs: order numbers are distinct, and then count the events, iff no chunk was cut while the other stream was publishing |
| BashStream.OrdersCollide | openhands-agent-server/openhands/agent_server/bash_service.py:214-243 | a run of full reads only in which both streams publish the same order |
| BashStream.SplitBuffer | openhands-agent-server/openhands/agent_server/bash_service.py:228-231 | the cutting loop computes the cut |
| BashStream.CommandOutput.CutOrReadOn | openhands-agent-server/openhands/agent_server/bash_service.py:228-242 | the test of the inner loop: cut and publish the next chunk, or read on |
| BashStream.CommandOutput.ReadReturned | openhands-agent-server/openhands/agent_server/bash_service.py:214-225 | data or end of file reaches one stream's buffers |
| BashStream.CommandOutput.PublishReturned | openhands-agent-server/openhands/agent_server/bash_service.py:242-249 | the counter and the shared buffer move only after the publish returned |
| RunTask.OneActiveTask | openhands-agent-server/openhands/agent_server/event_service.py:508-546 | at most one task is unfinished and has not cleared its reference, and it is the one in `_run_task` |
| RunTask.ClearsOnlyItself | openhands-agent-server/openhands/agent_server/event_service.py:539-543 | a finishing task clears its own reference, never a newer task's |
| RunTask.RefusedIff | openhands-agent-server/openhands/agent_server/event_service.py:508-517 | a run is refused iff the conversation reports running or a task is active |
| RunTask.RequestStarts | openhands-agent-server/openhands/agent_server/event_service.py:508-546 | an accepted request starts and tracks one task; a refused one changes nothing |
| RunTask.ClearedMayRunAgain | openhands-agent-server/openhands/agent_server/event_service.py:541-543 | a task that has cleared its reference does not keep the next run out |
| RunTask.EventService.RequestRun | openhands-agent-server/openhands/agent_server/event_service.py:508-546 | check and set in one step: whole new state and the verdict |
| RunTask.EventService.ClearReference | openhands-agent-server/openhands/agent_server/event_service.py:541-543 | the reference is cleared and the run goes on to publish its state |
| Paging.StableSortSorted | openhands-agent-server/openhands/agent_server/event_service.py:146-150 | the listing is sorted in the requested order |
| Paging.StableSortStable | openhands-agent-server/openhands/agent_server/event_service.py:146-150 | items with equal keys keep their order, in both directions |
| Paging.ListingKeys | openhands-agent-server/openhands/agent_server/event_service.py:146-150 | ascending keys never fall, descending ones never rise |
| Paging.Collect | openhands-agent-server/openhands/agent_server/event_service.py:114-144 | the collecting loop keeps exactly the matching items, in order |
| Paging.Search | openhands-agent-server/openhands/agent_server/event_service.py:152-173 | the page starts at the page id (at the beginning for an unknown one), holds up to the limit, and names the first item left out |
| Paging.PageAt | openhands-agent-server/openhands/agent_server/event_service.py:163-173 | a page holds at most the limit, and names a next item, the first left out, iff more than the limit stand from its start on |
| Paging.PageStarts | openhands-agent-server/openhands/agent_server/event_service.py:156-161 | a page id starts the page at its item, an unknown one at the beginning |
| Paging.SearchStore | openhands-agent-server/openhands/agent_server/conversation_service.py:81-126 | a whole search is that page of the filtered and sorted listing |
| Paging.SortThenFilter | openhands-agent-server/openhands/agent_server/bash_service.py:130-143 | filtering after a stable sort gives the same listing as filtering before |
| Paging.SearchFiles | openhands-agent-server/openhands/agent_server/bash_service.py:130-164 | the search over event files, which sorts first, gives the same page |
| Paging.Count | openhands-agent-server/openhands/agent_server/event_service.py:218-249 | the separate counting loop counts the matching items |
| Paging.FollowFrom | openhands-agent-server/openhands/agent_server/bash_service.py:145-164 | following `next_page_id` from any page ends and yields the rest of the listing |
| Paging.PagesMakeTheListing | openhands-agent-server/openhands/agent_server/bash_service.py:145-164 | following the pages ends iff the limit is positive or the listing empty, and then the pages concatenate to the listing |
| Paging.StuckPage | openhands-agent-server/openhands/agent_server/event_service.py:165-171 | a limit below one never ends |
| Paging.SearchAgreesWithCount | openhands-agent-server/openhands/agent_server/conversation_service.py:81-149 | the pages hold every matching item exactly once, sorted, and as many as the count says |
| RepoTree.TreeBuilder.WalkDir | app/backend/main.py:433-477 | the recursive procedure with its shared counter and flag computes the specified tree, count and flag |
| RepoTree.Bounds | app/backend/main.py:423-481 | at most `max_nodes` + 1 nodes, depth at most `max_depth` + 1, and nothing but a pruned copy of what is there, in order, directories shown empty that are not being marked |
| RepoTree.WalkMarks | app/backend/main.py:437-452 | directories beyond the depth limit are marked as cut, and a mark within it means the node limit was reached |
| RepoTree.FullListsIff | app/backend/main.py:461-477 | the complete tree lists exactly the paths that lead through allowed, readable directories |
| RepoTree.TruncatedIff | app/backend/main.py:423-481 | the exact condition for the root's `truncated` flag |
| RepoTree.UnflaggedIsComplete | app/backend/main.py:423-481 | an unflagged tree is complete; one of exactly `max_nodes` nodes is complete and flagged |
| RepoTree.WalkCompletes | app/backend/main.py:433-477 | from any counter value: when the budget covers the subtree, the walk returns all of it and counts it exactly |
| RepoTree.WalkFlag | app/backend/main.py:433-477 | from any counter value: when a walk raises the flag |
| ContextPack.PackBuilder.AddSnippet | app/backend/context_pack.py:184-212 | adding one snippet: whole new state, with every early return |
| ContextPack.PackBuilder.AddRound | app/backend/context_pack.py:227-412 | the snippets one round offers, given the files included so far, are added in order |
| ContextPack.PackBuilder.Build | app/backend/context_pack.py:178-412 | the rounds run one after the other as specified |
| ContextPack.BudgetedIsClipped | app/backend/context_pack.py:184-412 | a pack is the unlimited pack clipped to the budget: its text is the first `max_chars` characters, `total_chars` is the sum of its snippets, at most one snippet is cut and nothing follows it |
| ContextPack.ClipShape | app/backend/context_pack.py:194-206 | all snippets but a shortened last one are those of the unlimited pack |
| ContextPack.RoundKeeps | app/backend/context_pack.py:184-208 | the unlimited pack holds exactly the offers with content, in order |
| ContextPack.KeptIsOffered | app/backend/context_pack.py:192-208 | a snippet keeps the place, lines and reason it was offered with |
| ContextPack.FreshEntries | app/backend/context_pack.py:402-413 | a fresh pack entry by entry, with a note iff a snippet was cut |
| ContextPack.LoadDefaults | app/backend/context_pack.py:92-120 | what is missing from a stored pack reads as empty, and a snippet without path fails |
| ContextPack.FilesInFirstOrder | app/backend/context_pack.py:210-212 | `files_included` is the duplicate-free list of snippet paths in order of first appearance |
| ContextPack.LoadUndoesSave | app/backend/context_pack.py:92-142 | a saved pack loads back whole, marked cached |
| ContextPack.PackCache.Request | app/backend/context_pack.py:178-413 | a hit returns the stored pack and changes nothing; a miss builds a pack within the asked budget and stores it |
| ContextPack.ServedHoldsFirst | app/backend/context_pack.py:178-183 | after any requests the cache holds, for each fingerprint, the pack built for the first of them |
| ContextPack.AnswerIsFirst | app/backend/context_pack.py:178-183 | a request is answered with its own fresh pack or the first one's, marked cached |
| ContextPack.AnswerFitsIff | app/backend/context_pack.py:178-212 | an answer keeps within the budget asked for iff it is fresh or the first stored total is small enough |
| ContextPack.CachedPackOvershoots | app/backend/context_pack.py:178-183 | a request for one character answered with three |
| SkillName.CollapseTidies | scripts/convert_legacy_skills.py:47-47 | collapsing hyphens leaves the runs joined by single ones, and one at an end that had some |
| SkillName.NormalizeJoinsRuns | scripts/convert_legacy_skills.py:38-49 | a normalised name is the runs of kept characters joined by single hyphens |
| SkillName.CharacterLaws | scripts/convert_legacy_skills.py:44-46 | capitals count as small letters, underscores as hyphens, other characters as nothing, anywhere in a name |
| SkillName.HyphenLaws | scripts/convert_legacy_skills.py:47-48 | hyphens at the ends count as nothing and several count as one |
| SkillName.NormalizeIdempotent | scripts/convert_legacy_skills.py:38-49 | the result is empty or in the language, and normalising again changes nothing |
| SkillName.FixedIff | scripts/convert_legacy_skills.py:38-49 | a name is left alone iff it is empty or in the language |
| SkillName.EmptyIff | scripts/convert_legacy_skills.py:38-49 | the result is empty iff no letter or digit is kept |
| SkillName.AcceptsIff | scripts/convert_legacy_skills.py:35-35 | the pattern's automaton accepts exactly non-empty words of letters and digits joined by single hyphens |
| SkillName.ValidIff | scripts/convert_legacy_skills.py:52-68 | exactly which names pass validation, the trailing line feed included |
| SkillName.ComplaintsIff | scripts/convert_legacy_skills.py:52-68 | each complaint is made exactly when it applies |
| SkillName.NormalizedIsValidIff | scripts/convert_legacy_skills.py:35-68 | a normalised name passes iff it is non-empty and has at most 64 characters |

## Left out

- Text: digits and upper case are ASCII only; splitting a patch into lines on anything but line feeds is not modelled.
- Lower case in skill names covers the characters that can yield a kept one; all others are removed later whatever they become.
- Patch application around the engine: `git apply`, path checks, reading and writing files, created and deleted files.
- Context lines between files, such as `diff --git`, are absorbed into the hunk before them by the parser; the printer here does not produce them.
- PatchMetadata.MetadataCountsIff: for files whose counted path is not empty; changes under an empty path are not counted by the source.
- EnvParser.FromEnv: decoding JSON and floating-point text are parameters; a dotted `KIND` of an unknown class raises instead of importing it; caller-supplied custom parsers are not modelled.
- EnvBuild: a class table stands for Python's type objects, numbered so that a subclass follows its bases; generic origins are resolved beforehand.
- EnvTemplate.Template.ToEnv: blank lines, descriptions, class names and commented-out samples are not part of the text; they are lines that set nothing. Strings print as themselves, so masked secrets are not modelled.
- EnvText.TextLoads: the loader is the plain one, lines split at line feeds and at the first equals sign, comments and lines no variable can hold skipped; quoting and other line separators are not modelled.
- EnvTextRoundTrip.RoundTripIff: for schemas of booleans, integers, strings, string enumerations, models, lists, delayed references and optional values; dictionaries are printed as Python text, floats need a printer, discriminated unions print no `KIND`, and general unions print every alternative that fits. Names are taken to be identifiers and enumerated values single lines, sibling names apart; decoding JSON is taken never to give a string longer than its text. Python's bound on the digits of an integer is not modelled. The result is what the parsers' `from_env` returns; the top-level function then validates it, and builds the class without arguments where nothing is returned, so a model without fields, or an empty list that is its field's default, does come back there.
- LlmCalls: time is real and monotone, settings are fixed during a run and one provider is modelled; which delay follows a failure is a free choice. Retries do not pass the interval gate, so spacing is stated for slots and first attempts.
- LlmCalls.AttemptsDisciplined: calls that were already past the entry check may invoke the provider while the circuit is open.
- CircuitBreaker.ProviderState.OpenCircuit: one atomic step; the source takes no lock around it.
- Webhook.RunConserves: a post succeeds or fails as a whole; a server that stored a batch and then failed to answer would see it twice. Headers, URLs and serialisation are not modelled.
- BashStream.OutputIsDetermined: runs without timeout, read error or failing publish; characters that straddle two reads are decoded by the source read by read, so text means the decoded pieces as read.
- RunTask: runs started through `send_message` are not tracked by the source and not modelled; tasks are not cancelled from outside.
- Paging.Search: filters are an arbitrary predicate and keys are integers; file names stand for ids in the listing of command events, whose unreadable files are dropped from a page after it is cut. The listing does not change between pages.
- RepoTree.TreeBuilder.WalkDir: the order of a directory's entries and the verdict of the path policy are inputs; symbolic links are followed only as far as a finite tree shows them.
- ContextPack.PackBuilder.Build: what a round offers (mentions, imports, symbols, scored chunks) is an arbitrary function of the files included so far; symbol names and the notes about folders without files are passed through.
- ContextPack.LoadUndoesSave: JSON text itself is not modelled; any key may be missing when a stored pack is read, but keys present have the expected type.
- The HTTP routes, the agents, the front end, the viewers and the scripts around them.
