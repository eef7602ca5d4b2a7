# Verified models of ALGAL's release and demo scripts

This project models the parts of the ALGAL repository whose correctness is hardest to see from one body, and proves
what they are for: protocols that recover from being stopped anywhere, text transformations that must not disturb
anything else, printers and parsers that are inverse to each other, and two encodings. Each module names the source
file it models. `dafny verify dfyconfig.toml` checks all of it.

| files | what they model |
|---|---|
| `Text.dfy` | sequence algebra, Python's character classes and digits, UTF-8, `Option` and `Result` |
| `Splice.dfy`, `AptScan.dfy`, `AptGrammar.dfy`, `AptRewrite.dfy`, `AptPlan.dfy` | the apt source rewriter: splicing by offset, the streaming deb822 scan (Debian Policy Manual, section 5.1), its patterns, idempotence, the plan over all files |
| `TagChain.dfy`, `Releases.dfy`, `PublishRelease.dfy` | the resumable publication of a release: peeling a tag, the remote service, the script call by call |
| `KeyOrder.dfy`, `Json.dfy`, `JsonText.dfy`, `JsonParse.dfy`, `CanonicalJson.dfy` | canonical JSON (RFC 8259, sections 4 and 7): key order, values, strings and numbers, printer and parser |
| `Evidence.dfy`, `BriefData.dfy`, `PrivateBrief.dfy`, `Preflight.dfy` | the private-brief workflow: its evidence bound, its records and their inspection, its commands, the bridge check |
| `AdapterLedger.dfy` | the operation ledger of the coding adapter |
| `PageFormat.dfy`, `WordSearch.dfy`, `ChangelogReflow.dfy`, `ChangelogGrammar.dfy`, `ReleasePage.dfy` | the form of a tag and of the identity comment, the search for a word, the changelog section of a release and its patterns, the release page and its identity comment |
| `Register.dfy`, `PngFiller.dfy`, `PngSize.dfy` | CRC-32 over an abstract shift register, and the filler chunk of an image (RFC 2083, sections 3.2 and 3.4) |
| `SourceInventory.dfy` | the bytes fed to the source hash |
| `WorkerPool.dfy` | workers that share a cursor |
| `InterfaceCall.dfy` | named interface arguments |

## How the environment enters

- **GitHub** is a store of releases with a log of effects. Every call is delivered, dropped, or has its effect while the
  reply is lost; `Attempt` says what one attempt does under all of these, and `Run` chains attempts. Tags may move
  whenever the script reads them: each `RequireTag` sees the `View` that the environment has by then. (Tag objects are
  named by their content, so within one reading only the first reference could move.)
- **The native VM** is any function from the calls made on a store to the answer of the last one (`Vm`), so safety holds
  for every behaviour. For the retry theorem it is assumed to be `Orderly`: a send with a used key changes nothing, a
  tick takes one message at most once. `OrderlyVmIsOrderly` shows that the assumption can be met.
- **Being killed** is a number of steps after which a command stops; each VM call and each file write is a step.
- **The bridge process** is the record of what passed through its pipes, under any order and any split of readiness
  events. What `json.loads` takes bytes for is a parameter (it detects their encoding); `.decode()` is modelled.
- **Adapter invocations and pool workers** interleave at their file operations and awaits under any schedule.
- Hashes, `canonicalize`, the install and verify texts and the characters of a word are function parameters.

## Where the code differs from what is said about it

- `docs/apple-brief.md:57` says a conflicting decision is refused. It is, exactly when `decision.json` is retained: an
  approval that was interrupted before that write can still be followed by a denial (`Root.Oppose`;
  `Root.DenyAfterApprove` is such a history).
- A reply of the adapter can be *unknown* after another invocation replied with the terminal outcome, if it had looked
  before that outcome was written (`StaleUnknown`). `RepliesExact` says exactly which replies are unknown, and
  `NoUnknownAfterwards` that an invocation that begins later never gives one.
- Reading a reflowed changelog section again gives the same section exactly when no paragraph begins with a line that,
  stripped, reads as a bullet or a heading (`IndentedDash`), nor has `-`, `#` or `##` alone on the first of several
  lines (`BareDash`, `RereadExactly`). Where no line of the summary is indented only the second can happen
  (`RereadProse`).
- `scripts/publish-native-release.py:26` says to retry a failed publication. That works, except where the listing gets
  full with the publication's own release: with 999 releases listed and none of the tag, an attempt that is stopped
  right after creating the draft leaves it to no later attempt, since the search refuses a full tenth page
  (`GitHub.FillListing`). With one release less `GitHub.Recover` holds, so the bound is exact.

## Model

| member | source | states |
|---|---|---|
| Splice.ReplaceUris | scripts/browser_acquisition.py:53-58 | splicing ordered spans into the text from the last to the first is the simultaneous substitution of all of them |
| Splice.SpansInText | scripts/browser_acquisition.py:28-50 | the spans of any text are inside it, increasing and disjoint |
| Splice.LinesJoin | scripts/browser_acquisition.py:28-48 | lines with their ends add up to the text, so offsets summed over lines are offsets in the text |
| Splice.SubstituteIsLineByLine | scripts/browser_acquisition.py:53-62 | substituting in the text is rewriting each line on its own; every byte outside a span stays |
| Splice.LinesOfRewritten | scripts/browser_acquisition.py:28-48 | a rewritten text splits into exactly the rewritten lines |
| Splice.RewriteKeepsTokens | scripts/browser_acquisition.py:53-62 | the tokens found in a rewritten text are the edited tokens of the text, none lost, split, joined or added |
| Splice.RewriteTwice | scripts/browser_acquisition.py:61-62 | rewriting with an idempotent edit is idempotent for every scanner whose lines stay steady |
| AptScan.TakeTokens | scripts/browser_acquisition.py:41-47 | the inner loop takes the tokens before a comment, as shifted spans or as words |
| AptScan.TakeLine | scripts/browser_acquisition.py:34-47 | one line adds exactly its `URIs` values and `Enabled` words, continuation lines included |
| AptScan.NextLine | scripts/browser_acquisition.py:28-48 | one turn of the loop leaves what the rest of the text makes of the state unchanged |
| AptScan.ScanSources | scripts/browser_acquisition.py:16-50 | the one-pass scan equals the two-pass definition: decide per stanza over all its lines, then take its URI tokens |
| AptScan.UriSpans | scripts/browser_acquisition.py:9-50 | which spans are taken for each of the two formats, and an error for any other suffix |
| AptScan.ValuesAreRunsBeforeComment | scripts/browser_acquisition.py:41-43 | the values of a field are the runs of a line up to the first that starts a comment |
| AptScan.ListUriIsToken | scripts/browser_acquisition.py:13-15 | the one-line pattern, with the optional bracket and its backtracking, takes one token without white space |
| AptScan.Deb822Sound | scripts/browser_acquisition.py:28-48 | whatever the deb822 scanner picks are tokens of the line, and never the start of a header |
| AptGrammar.ListUriIs | scripts/browser_acquisition.py:13-15 | the URI of a one-line source is exactly what the pattern matches: after an option group where a URI follows one, otherwise right after the keyword |
| AptGrammar.MirrorUriIs | scripts/browser_acquisition.py:98-98 | the URI of a line of the mirror list is exactly its first word up to a comment |
| AptGrammar.HeaderFieldIs | scripts/browser_acquisition.py:36-40 | a line opens the `URIs` or the `Enabled` field exactly when its header spells that name, in any case |
| AptGrammar.CommentIs | scripts/browser_acquisition.py:34-34 | a comment is a line whose first character that is not white space is `#` |
| AptGrammar.DisabledIs | scripts/browser_acquisition.py:22-26 | a stanza is off exactly for the five words, in any case, and for the spellings of zero |
| AptGrammar.RunsAre | scripts/browser_acquisition.py:41-41 | the runs are exactly the stretches without white space that nothing can be added to |
| AptGrammar.LinesAre | scripts/browser_acquisition.py:28-28 | every line but the last has its one end, none has another inside, none begins within a carriage return and line feed; joined they are the text |
| AptRewrite.LineKept | scripts/browser_acquisition.py:34-58 | a rewritten line is blank, opens a field and switches its stanza as the line did |
| AptRewrite.Deb822Steady | scripts/browser_acquisition.py:28-58 | any edit from plain tokens to plain tokens leaves the token structure the deb822 scanner sees |
| AptRewrite.ListUriSettles | scripts/browser_acquisition.py:13-15 | after an edit the one-line pattern finds the edited token in the same place |
| AptRewrite.MirrorUriSettles | scripts/browser_acquisition.py:97-98 | the same for the pattern of the runner's mirror list |
| AptPlan.NormalizeIs | scripts/browser_acquisition.py:53-58 | the four spellings of the Azure mirror become the archive's https URL with the slash they had; every other token stays |
| AptPlan.NormalizeTame | scripts/browser_acquisition.py:5-6 | the normalization keeps tokens plain, is idempotent, and neither makes nor unmakes the runner's list |
| AptPlan.RewriteIsIdempotent | scripts/browser_acquisition.py:53-62 | rewriting is idempotent in all three formats, for every text |
| AptPlan.ListTextIs | scripts/browser_acquisition.py:53-62 | a rewritten `.list` file has its lines in place; a line changes at most in its one URI, which is normalized |
| AptPlan.MirrorTextIs | scripts/browser_acquisition.py:97-99 | the same for the runner's mirror list |
| AptPlan.SourcesTextIs | scripts/browser_acquisition.py:28-62 | a rewritten `.sources` file has its lines in place, each with the `URIs` values of a stanza that is on normalized |
| AptPlan.PlanFile | scripts/browser_acquisition.py:87-93 | a file is refused exactly when it is not an ordinary, decodable file with a known suffix; otherwise its new text and whether it names the runner's list |
| AptPlan.Plan | scripts/browser_acquisition.py:76-101 | the plan fails exactly when something it reads is unreadable, and lists exactly the files that change, in order, the mirror list only when it is named |
| AptPlan.PlanSettles | scripts/browser_acquisition.py:76-108 | wherever writing a plan's files one by one stops, the next plan succeeds and is exactly the rest of the changes, mirror list included; after all of them it is empty |
| TagChain.Follow | scripts/publish-native-release.py:34-46 | a tag is accepted exactly when at most eight annotated tags lead to the commit |
| TagChain.RepeatNeverResolves | scripts/publish-native-release.py:40-41 | a chain that meets a tag twice reaches no commit, however far it is followed |
| TagChain.RingNeedsTest | scripts/publish-native-release.py:37-42 | the bound counts different tags, so on a ring of fewer than eight the loop without its test for a repeated tag would never end |
| Releases.EvolvesTransitive | scripts/publish-native-release.py:122-182 | what one stretch of calls keeps and adds carries over to any longer one |
| PublishRelease.ExpectedAssets | scripts/publish-native-release.py:69-79 | accepted exactly for nine regular files of bounded size, each kept under its name |
| PublishRelease.AdmittedAssets | scripts/publish-native-release.py:82-99 | accepted exactly for rows that are this job's uploads, distinct in name and identity, and all of them when completeness is asked; the result maps names to identities one to one |
| PublishRelease.ListingTells | scripts/publish-native-release.py:49-60 | how often the tag is in the listing says whether it has no release, exactly one, or more |
| PublishRelease.GitHub.RequireTag | scripts/publish-native-release.py:34-46 | success means that the tag, as it is by this reading, leads to the qualified commit, whatever calls fail and wherever it was before |
| PublishRelease.CheckRecord | scripts/publish-native-release.py:136-145 | an existing release's record passes exactly when its rows are this job's uploads and its page and state are what a draft or a finished release must have |
| PublishRelease.GitHub.FindRelease | scripts/publish-native-release.py:49-60 | over at most ten pages: the unique release of the tag, or that there is none; a full listing is an error |
| PublishRelease.GitHub.VerifyDownloads | scripts/publish-native-release.py:102-112 | success means the bytes behind every identity are those of the job |
| PublishRelease.GitHub.UploadMissing | scripts/publish-native-release.py:163-167 | wherever it stops, the draft only gains missing files, and at the end has all of them |
| PublishRelease.GitHub.CheckDraft | scripts/publish-native-release.py:168-173 | passed only by a draft with the qualified page and exactly the qualified files |
| PublishRelease.GitHub.PublishDraft | scripts/publish-native-release.py:174-182 | publication changes nothing or leaves a qualified release, also when its reply is lost |
| PublishRelease.GitHub.Resume | scripts/publish-native-release.py:128-149 | with a release there: confirmed untouched if published and exact, finished if a fitting draft, refused unchanged otherwise |
| PublishRelease.GitHub.Begin | scripts/publish-native-release.py:150-159 | without one: a draft is created and finished, and stopping anywhere leaves a state that can be resumed |
| PublishRelease.GitHub.Publish | scripts/publish-native-release.py:122-182 | one attempt under any faults and any moves of the tag: its effects are guarded by its readings of the tag, and nothing changes unless the first one leads to the qualified commit; published releases and other tags stay as they are, what is published is qualified, what is left can be resumed; uninterrupted it succeeds from every such state |
| PublishRelease.ReadingsGuard | scripts/publish-native-release.py:126-173 | a release is made, and one is published, only right after a reading of the tag that led to the qualified commit; every other effect follows such a reading; if the first reading does not lead there nothing is done |
| PublishRelease.SettledIs | scripts/publish-native-release.py:174-182 | a finished release is exactly a published immutable prerelease with the job's title and notes and one uploaded row for each of its files, of that size and digest as recorded and as stored |
| PublishRelease.RunIsSafe | scripts/publish-native-release.py:122-182 | over any run of attempts a published release never changes, and every release published in it has exactly the qualified title, notes and files |
| PublishRelease.RunStaysResumable | scripts/publish-native-release.py:122-182 | after any number of interrupted attempts another one can go on |
| PublishRelease.NothingAfterwards | scripts/publish-native-release.py:128-149 | after a success no later attempt changes anything |
| PublishRelease.RunEndsOnce | scripts/publish-native-release.py:122-182 | after a success the tag has one release, created once, each file uploaded once and no other ever; every success names the same identity, and every later state is the same |
| PublishRelease.GitHub.Recover | scripts/publish-native-release.py:122-182 | any interrupted attempts and then one without interruption: it succeeds, and the one release of the tag is the job, created once, each file uploaded once |
| PublishRelease.GitHub.FillListing | scripts/publish-native-release.py:49-60 | the bound on the listing is exact: where it gets full with the release of the tag, an attempt stopped after the creation leaves a draft that no later attempt finishes |
| KeyOrder.KeyOrderIs | scripts/apple_brief_demo.py:43-45 | indices come before other keys and go by value; two other keys go by the first UTF-16 unit in which they differ, a prefix first, which is by the big-endian bytes |
| KeyOrder.IndexExactly | scripts/apple_brief_demo.py:44-44 | an index is exactly the decimal digits of a number below 4294967295 |
| KeyOrder.UnitsAre | scripts/apple_brief_demo.py:45-45 | a character is one unit or a pair of surrogates that stands for it |
| KeyOrder.CodePointOrderIs | scripts/release-notes.py:193-193 | Python's order of strings goes by the first character in which they differ, a prefix first |
| KeyOrder.KeyOrderTotal | scripts/apple_brief_demo.py:43-45 | of two keys exactly one of less, equal and greater holds |
| KeyOrder.KeyOrderTransitive | scripts/apple_brief_demo.py:43-45 | the order is transitive |
| KeyOrder.DigitsAre | scripts/apple_brief_demo.py:44-44 | the decimal digits of a number: the last is its remainder by ten, and only zero begins with a zero |
| KeyOrder.ValueOfDigits | scripts/apple_brief_demo.py:44-44 | decimal digits of a number read back as that number |
| KeyOrder.Utf16Injective | scripts/apple_brief_demo.py:45-45 | different keys have different UTF-16 units |
| Json.IncreasingUnique | scripts/apple_brief_demo.py:50-51 | two lists of members in increasing order that bind every key alike are equal |
| Json.SameIffSorted | scripts/apple_brief_demo.py:48-55 | two values are equal as Python values of the same types exactly when they are equal after sorting the members of every object |
| JsonText.EscapeRoundTrip | scripts/apple_brief_demo.py:55-55 | every character, escaped or not and in either style, reads back as itself, surrogate pairs included |
| JsonText.ShortEscapesAre | scripts/apple_brief_demo.py:55-55 | the seven characters with an escape of two characters, and which (RFC 8259, section 7) |
| JsonText.OtherEscapesAre | scripts/apple_brief_demo.py:55-55 | every other control character, and beyond ASCII in the default style every character, is written as its UTF-16 units; the rest as itself |
| JsonText.Hex4Is | scripts/apple_brief_demo.py:55-55 | a unit is four lower-case hexadecimal digits with its value |
| JsonText.UnescapesAre | scripts/apple_brief_demo.py:71-71 | what each letter after a backslash reads as, and that no other character may follow one |
| JsonText.HexValueIs | scripts/apple_brief_demo.py:71-71 | hexadecimal digits are read in either case |
| JsonText.CharsRoundTrip | scripts/apple_brief_demo.py:55-55 | the same for whole strings before any following text |
| JsonText.IntRoundTrip | scripts/apple_brief_demo.py:55-55 | every integer reads back as that integer and never as a float |
| JsonText.IntegerIs | scripts/apple_brief_demo.py:71-71 | a sign and an integer that no fraction or exponent follows are read by their value (RFC 8259, section 6) |
| JsonText.FloatIs | scripts/apple_brief_demo.py:71-71 | with a fraction or an exponent the longest such text is a float |
| JsonText.NumberOnly | scripts/apple_brief_demo.py:71-71 | nothing else is read as a number |
| JsonParse.StrictPairs | scripts/apple_brief_demo.py:62-67 | the hook's loop accepts exactly lists without a repeated key, and gives them back in order |
| JsonParse.PrintRoundTrip | scripts/apple_brief_demo.py:48-71 | a printed value is read back, and the parser stops where the value ends |
| JsonParse.LoadsUnique | scripts/apple_brief_demo.py:70-71 | every object the strict decoder gives has distinct keys, and it gives only what the plain decoder gives |
| JsonParse.SkipIs | scripts/apple_brief_demo.py:71-71 | between tokens exactly blanks, tabs and line ends are skipped |
| JsonParse.ConstantsAre | scripts/release-notes.py:112-112 | Python's own decoder reads exactly three constants besides, as floats |
| CanonicalJson.TextOfObject | scripts/apple_brief_demo.py:50-51 | the text of an object is its members in the order of `KeyOrderIs`, each the quoted key, a colon and the value's text, with commas between them |
| CanonicalJson.TextOfArray | scripts/apple_brief_demo.py:52-53 | the text of an array is its elements' texts in order, with commas between them |
| CanonicalJson.TextOfScalars | scripts/apple_brief_demo.py:55-55 | the texts of null, the booleans, integers and strings |
| CanonicalJson.ParseCanonical | scripts/apple_brief_demo.py:48-71 | a canonical text exists exactly for values without a float, and parsing it gives the value, members in the order of `KeyOrderIs` |
| CanonicalJson.CanonicalDecidesSame | scripts/apple_brief_demo.py:48-59 | two values have the same canonical text exactly when they are the same value, whatever the insertion order |
| CanonicalJson.CanonicalOfParsed | scripts/apple_brief_demo.py:48-71 | a canonical text is the canonical text of what it parses to |
| Evidence.PopConserves | scripts/apple_brief_demo.py:296-303 | popping a frame takes off one node and pushes the rest of its subtree; the pushed frames decide whether it fits |
| Evidence.BoundedEvidence | scripts/apple_brief_demo.py:291-306 | the explicit stack accepts exactly the objects with at most 128 nodes, height at most 8, admitted leaves and at most 2048 canonical bytes |
| Evidence.AdmittedIsFloatFree | scripts/apple_brief_demo.py:305-306 | admitted leaves leave no float, so the byte bound is always decided |
| BriefData.OneMatching | scripts/apple_brief_demo.py:370-371 | filtering leaves one effect exactly when one effect answers the request |
| BriefData.DraftVouches | scripts/apple_brief_demo.py:364-381 | the draft is this one exactly when after the started marker one recorded effect answers the request, successful, uncached and from the admitted executor, with this output, bound to workflow and evidence |
| BriefData.InspectionVouches | scripts/apple_brief_demo.py:350-398 | what a report that passed inspection vouches for about marker, qualification, decision and publication |
| BriefData.QualificationIs | scripts/apple_brief_demo.py:391-396 | the qualification holds exactly when it names the draft and the one initial generation of the process |
| BriefData.InspectionExactly | scripts/apple_brief_demo.py:350-398 | inspection gives exactly this report, or none: each condition under which it does, and what it then says |
| PrivateBrief.InspectionOnPlan | scripts/apple_brief_demo.py:350-398 | at every stage of a decision, inspection of the VM's snapshot succeeds and reports exactly that stage |
| PrivateBrief.Root.WriteDecision | scripts/apple_brief_demo.py:112-133 | an artifact is written once: equal content is kept, other content is refused |
| PrivateBrief.Root.Start | scripts/apple_brief_demo.py:439-491 | never touches a root that is there; one dispatch, after the started marker and in its place among the calls; an answer means that the bridge was unchanged before and after it and that the process is held at the approval of one qualified draft; with a VM that leads there it answers |
| PrivateBrief.Root.Deliver | scripts/apple_brief_demo.py:513-515 | killed anywhere, the decision is in the mailbox at most once; run through, it is there once and taken |
| PrivateBrief.Root.Resume | scripts/apple_brief_demo.py:512-518 | from a held approval to the last generation, with what is kept wherever it stops |
| PrivateBrief.Root.Settle | scripts/apple_brief_demo.py:499-520 | an answer means this very decision is retained, and the proposal is published only with its approval |
| PrivateBrief.Root.Act | scripts/apple_brief_demo.py:494-522 | any command killed anywhere keeps safety and every artifact and carries no executor, and changes no artifact in its first two steps; an answer to an inspection is what inspecting the VM's last snapshot gives, with its head, status and generation, and it comes if the command is not stopped; an answer to a decision means it is retained and tells of the root as it then is; the retained decision's opposite changes nothing |
| PrivateBrief.Root.History | scripts/apple_brief_demo.py:439-522 | any commands in any order with any VM: at most one inference-capable dispatch, only after the marker; no artifact changes; a publication only with the approval of that qualified proposal |
| PrivateBrief.Root.Retry | scripts/apple_brief_demo.py:494-522 | after any interrupted tries the same command ends in one and the same root, its decision delivered once |
| PrivateBrief.Root.StartThenRetry | scripts/apple_brief_demo.py:439-522 | from a root that is not there yet: once a start is answered, any interrupted tries of one verdict and then the command end with that start's plan settled |
| PrivateBrief.Root.Oppose | scripts/apple_brief_demo.py:499-515 | the opposite command is refused exactly when the decision is retained |
| PrivateBrief.Root.DenyAfterApprove | scripts/apple_brief_demo.py:499-515 | an approval killed after its second step retains nothing, and a denial then succeeds |
| PrivateBrief.OrderlyVmIsOrderly | scripts/apple_brief_demo.py:513-515 | the assumption on the VM can be met |
| PrivateBrief.StartCanSucceed | scripts/apple_brief_demo.py:439-491 | for every admitted request there is such a VM with which a start succeeds and is held at the approval |
| Preflight.HandshakeAt | scripts/apple_brief_demo.py:222-228 | the moment at which the first line is complete, answered, and stdin is closed |
| Preflight.OnReadable | scripts/apple_brief_demo.py:215-228 | data on a stream: bounds, the order of request and reply, the one close |
| Preflight.OnEvent | scripts/apple_brief_demo.py:207-228 | any readiness event keeps the loop's invariant or ends the attempt |
| Preflight.WireIsOneLine | scripts/apple_brief_demo.py:192-193 | the request's bytes are one line, its newline at the end, that reads as the request with the probe's id |
| Preflight.RequestTextIs | scripts/apple_brief_demo.py:192-193 | the request to the letter: the id and an empty prompt |
| Preflight.ExpectedReplyIs | scripts/apple_brief_demo.py:151-155 | a reply is admitted exactly when it has three members: the id, `ok` false, and an error whose only member is the code `invalidRequest` |
| Preflight.RecordMembers | scripts/apple_brief_demo.py:231-235 | the record has ten members, and what each of them is |
| Preflight.VouchedIs | scripts/apple_brief_demo.py:158-179 | the check passes exactly for a rejection by the record's id that is the one line of stdout, within every bound |
| Preflight.BridgePreflight | scripts/apple_brief_demo.py:160-239 | nothing is sent to a changed binary; a record only if the whole request for its id was written before the first reply line, stdin was open until that line answered with that id, both outputs kept their bound, stdout was one line, and the record's canonical text keeps its own bound |
| Preflight.CooperativeBridgePasses | scripts/apple_brief_demo.py:204-239 | in whatever order and sizes writes, reads and ends come, a bridge that takes the whole request before it answers with one line, its members in any order, and keeps both streams' bounds gets its record, if that record keeps its own |
| Preflight.DecodeReadsObjects | scripts/apple_brief_demo.py:223-223 | the assumption on how bytes are read as JSON is met by strict UTF-8 |
| Text.DecodeExactly | scripts/apple_brief_demo.py:233-233 | decoding succeeds on exactly the encodings of texts, and gives back the text |
| Text.Utf8Samples | scripts/apple_brief_demo.py:233-233 | the bytes of a character of each length (RFC 3629, section 3) |
| Text.SpacesAre | scripts/browser_acquisition.py:28-36 | the white space and the line ends of Python's strings, one by one |
| Text.HexIs | scripts/publish-native-release.py:40-40 | hexadecimal means the ten digits and the lower-case letters from a to f |
| AdapterLedger.RunValid | scripts/coding-recovery-demo.ts:82-106 | the invariant of the ledger and of all invocations holds in every interleaving |
| AdapterLedger.AtMostOnce | scripts/coding-recovery-demo.ts:96-103 | at most one invocation passes the lock and writes the repair; the terminal record is that one's outcome |
| AdapterLedger.TerminalNeverChanges | scripts/coding-recovery-demo.ts:96-103 | lock, terminal record and replies are never changed or taken back |
| AdapterLedger.RepliesExact | scripts/coding-recovery-demo.ts:91-106 | exactly when a reply is unknown, and exactly when it is the one terminal outcome |
| AdapterLedger.ObserveNeverWrites | scripts/coding-recovery-demo.ts:94-94 | an observing invocation writes nothing |
| AdapterLedger.NoUnknownAfterwards | scripts/coding-recovery-demo.ts:92-94 | no invocation that begins after the terminal record replies unknown |
| AdapterLedger.StaleUnknown | scripts/coding-recovery-demo.ts:92-94 | a schedule in which unknown is printed after the terminal outcome |
| ChangelogReflow.ParagraphsOf | scripts/release-notes.py:77-86 | the loop's paragraphs are the runs of lines that are not blank, joined |
| ChangelogReflow.BulletsOf | scripts/release-notes.py:89-96 | the loop's bullets are bullet lines with their continuations; it fails where a line is neither or a continuation comes first |
| ChangelogGrammar.MarksAre | scripts/release-notes.py:76-96 | which lines begin a bullet, begin one with text, continue one, and are headings of the first or second level |
| ChangelogGrammar.StripIs | scripts/release-notes.py:79-94 | stripping takes white space off both ends and nothing more can be taken |
| ChangelogGrammar.ReleaseHeadingIs | scripts/release-notes.py:53-56 | the heading of a release is exactly `## `, possibly a `v`, the version, and possibly a date |
| ChangelogGrammar.StartsAre | scripts/release-notes.py:56-56 | the headings found are all of the release's, each once and in order |
| ChangelogGrammar.BodyIs | scripts/release-notes.py:64-68 | the body is the lines after the heading up to the next one of the first or second level |
| ChangelogGrammar.TrimIs | scripts/release-notes.py:69-69 | the section is the body without the empty lines at both ends |
| ChangelogGrammar.AllBlankIs | scripts/release-notes.py:70-71 | a section is empty exactly when every line of it is blank |
| ChangelogGrammar.StandsAtIs | scripts/release-notes.py:72-73 | the word stands where its ten letters do, each in either case or a long s, with no word character beside them |
| ChangelogReflow.SplitJoin | scripts/release-notes.py:55-55 | the lines joined are the text, and none holds a line feed |
| ChangelogReflow.ChangelogSection | scripts/release-notes.py:47-100 | the section of the one heading of the release, with or without a date, or the refusal: tag, byte limit, no or several headings, empty, unreleased, no bullets, no summary, text after the bullets |
| ChangelogReflow.ReflowConserves | scripts/release-notes.py:77-100 | every line that is not blank lands, stripped and in order, in exactly one paragraph or bullet |
| ChangelogReflow.ReflowWellFormed | scripts/release-notes.py:87-100 | there is a summary and a change, each one line without white space at its ends |
| WordSearch.JoinMentions | scripts/release-notes.py:73-86 | joining lines with a blank or a line feed neither makes a mention of the word nor hides one |
| ChangelogReflow.ReflowNeverMentions | scripts/release-notes.py:73-100 | the reflowed text of a section never mentions the word |
| ChangelogReflow.RereadExactly | scripts/release-notes.py:47-100 | reading the reflowed section again gives the same section exactly when no run of its summary's lines begins with one that, stripped, reads as a bullet or a heading, or with a mark alone on the first of several lines |
| ChangelogReflow.RereadProse | scripts/release-notes.py:77-86 | where no line of the summary is indented, exactly when no run of several lines begins with a mark alone |
| ChangelogReflow.IndentedDash | scripts/release-notes.py:77-83 | a section with an indented dash for which it does not |
| ChangelogReflow.BareDash | scripts/release-notes.py:77-83 | a section without indentation for which it does not |
| ReleasePage.LoadManifests | scripts/release-notes.py:103-125 | accepted exactly for one admitted manifest per target, each a regular file within its size that reads as an object with the identity's fields; the archives are theirs, in target order |
| ReleasePage.AdmittedRecords | scripts/release-notes.py:110-121 | a manifest is admitted exactly when it is a regular file of at most 65536 bytes with an object that names tag, commit, a clean source, a supported target, the archive of that tag and target, and its digest; these are what is taken from it |
| PageFormat.TagIs | scripts/release-notes.py:28-45 | a tag is at most 256 characters: `v`, three numbers with dots between them, then nothing or a dash and tag characters |
| PageFormat.TagCharsAre | scripts/release-notes.py:28-28 | the tag characters are the ASCII letters and digits, the dot and the dash |
| ReleasePage.NotesLines | scripts/release-notes.py:187-189 | the notes read line by line: the section's paragraphs, `## Changes`, its bullets, and the texts on installing and verifying, with an empty line after each |
| ReleasePage.CommentIs | scripts/release-notes.py:192-193 | the comment to the letter: its frame, the members in order, each archive with its three |
| ReleasePage.LastMarker | scripts/release-notes.py:209-209 | whatever the notes hold, the last marker found is the one of the comment itself |
| ReleasePage.ParsedExactly | scripts/release-notes.py:203-234 | parsing gives these notes and this record exactly when the body is the notes, a line feed and the canonical comment of the record, with four members of the right form, three for each archive, and no marker or end inside |
| ReleasePage.ParseRendered | scripts/release-notes.py:196-234 | parsing a rendered page gives the notes of `NotesLines` and the identity, also when the changelog holds forged comments |
| ReleasePage.VerifyExact | scripts/release-notes.py:196-244 | for an identity three things are the same, byte for byte: a body is the notes of `NotesLines`, a line feed and the comment of `CommentIs`, in at most 100000 bytes; it is what rendering gives; it is accepted; and the record given back is the identity |
| Register.FeedWord | scripts/clef-parity.ts:33-36 | with a linear step, feeding up to four bytes is feeding their word at once |
| Register.FeedInjective | scripts/clef-parity.ts:33-36 | with an invertible step, no bytes make different registers equal |
| PngFiller.MachineLaws | scripts/clef-parity.ts:35-35 | the bit step on 32 bits is linear, invertible, and undoes a shift by a byte in eight steps |
| PngFiller.BurstDetected | scripts/clef-parity.ts:32-37 | messages that differ only inside four consecutive bytes never have the same CRC |
| PngSize.CrcOf | scripts/clef-parity.ts:32-36 | the nested byte and bit loops compute the CRC |
| PngSize.EndChunk | scripts/clef-parity.ts:30-37 | the chunk that ends an image is its twelve known bytes, CRC included |
| PngSize.ParseSound | scripts/clef-parity.ts:30-37 | a chunk that reads is the encoding of what was read |
| PngSize.ParseEncoded | scripts/clef-parity.ts:30-37 | the encoding of a chunk reads as that chunk before any following bytes |
| PngSize.Filler | scripts/clef-parity.ts:30-37 | the buffer written in place is the encoding of the padding chunk |
| PngSize.InsertedChunks | scripts/clef-parity.ts:38-38 | the larger image has the seed's chunks with one well-formed chunk after the header, exactly when the padding's length is one a chunk may have |
| PngSize.PngOfSize | scripts/clef-parity.ts:28-39 | exactly the asked size, for exactly the sizes that leave room for a chunk, as far as the length field goes and as long as the base64 text is no longer than a string can be; and then the image always reads with its padding |
| SourceInventory.DecodeRecords | scripts/package-native.py:82-94 | the stream of records decodes to the ordered list of names and contents |
| SourceInventory.HeaderIs | scripts/package-native.py:82-82 | the stream begins with the encoded name of the contract and a zero byte |
| SourceInventory.RecordSample | scripts/package-native.py:91-94 | the bytes of a record: two lengths of eight bytes, the most significant first, each before what it measures |
| SourceInventory.InventoriesDiffer | scripts/package-native.py:80-95 | different inventories feed different bytes to the hash |
| SourceInventory.SourceInputs | scripts/package-native.py:80-95 | succeeds exactly within the byte limit, and then every file was fed whole |
| WorkerPool.Pool.Claim | scripts/github-qualification.ts:121-122 | the worker gets the case at the cursor, or returns |
| WorkerPool.Pool.Store | scripts/github-qualification.ts:148-159 | the slot of the worker's own case, which was empty, gets the seed, the evidence and the requests of this collection, and whether its head differs from the listed one |
| WorkerPool.Pool.Run | scripts/github-qualification.ts:116-161 | in every interleaving each case is claimed at most once; a slot changes only from empty to the result of a collection for its own case; when all workers returned every slot was set once |
| WorkerPool.AllDone | scripts/github-qualification.ts:116-161 | the same as a fact about any valid state |
| WorkerPool.StatusesSum | scripts/github-qualification.ts:177-180 | the four counts account for every case |
| InterfaceCall.SameNames | cli.ts:1806-1806 | equal numbers and inclusion are equality of the name sets |
| InterfaceCall.BindInterface | cli.ts:1803-1811 | succeeds exactly when the names are the declared ones and inputs that share a port agree; the arguments hold every input and nothing else |
| InterfaceCall.BindingIsUnique | cli.ts:1807-1811 | whatever the order of the declaration, the arguments are the same up to canonical texts |

## Left out

- The organism runtime, scheduler, mailboxes and stores behind the native VM, and GitHub itself, beyond the abstract state above.
- SHA-256, subprocesses, sockets, signals and clocks; a deadline is an event that may come at any time.
- Two publishers at the same time: attempts are sequential, as the script relies on.
- The argument patterns of `publish`, and the type checks on fields of GitHub's JSON records, which the model's types make.
- The sorted order of uploads and downloads: the loops take files in any order, which covers it.
- Reading files as UTF-8: apt sources and manifests are texts or undecodable.
- PngSize.PngOfSize: gives the bytes of the base64 text, not the text, and does not model the limit on a buffer; the limit on a string is a parameter.
- A file of a plan, or an artifact, is written in one step.
- Lone surrogates in strings, the limit on digits of an integer, and the text of a float: a float is read as its literal, and how `repr` spells it is a parameter.
- The words of the error messages where a refusal has several causes.
- Which characters besides the letters of "unreleased" are word characters, beyond that white space is none.
- The texts of the install and verify sections.
- `report.json`, `report.html`, error files and temporary files of the private brief: they are replaced freely and decide nothing.
- The digest of the native binary and the fixed parts of a definition: where one changed, the model has a call that fails.
- Python's equality of `True` and `1` in comparisons of parsed documents.
- The walk over the source tree and its sorting: the inventory starts from the ordered list of files.
- `bounded_output`, `run`, `readJsonBounded`, `distinctArtifactPaths` and `parseArgs`: bounded loops that would only add easy members.
- The adapter's `hostWrite` is taken to be atomic; the output mapping of `call --interface` and the fallback of `out` are not modelled.
