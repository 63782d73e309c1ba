# Verified models of LlamaFarm's core protocols and transformations

A Dafny 4.11 model of the parts of the repository whose behaviour is hardest to
see from one function body, with proofs over every input, every run or every
interleaving. `dafny verify dfyconfig.toml` checks the whole project.

| file | what it models |
|---|---|
| `Json`, `IdentityText`, `Identity`, `IdentityProjection`, `IdentityEncoding` | the AIEOS identity normaliser, its JSON encoding, and when normalising is a projection |
| `ExitCode`, `JobProtocol`, `JobRuns`, `JobRunning`, `OutputCapture` | durable host jobs: the spawner, the detached wrapper, racing status requests, process ids that are reused, restarts; and the bounded capture of a command's output |
| `AuditLog`, `AuditFile`, `Dispatch` | the write-ahead audit log under concurrent requests, failing and torn appends, and runner stops; and one request handled from end to end |
| `Base64`, `DataUri`, `ImageMarkers`, `Multimodal`, `PreparedMessages` | base64 as in section 4 of RFC 4648, the data-URI normaliser, the image-marker parser and printer, and message preparation |
| `Ingest` | the checkpointed, resumable, partitioned ingest |
| `AgentTurn` | the agent's turn loop and history trimming |
| `Migration`, `MigrationSources` | the memory import with conflict renaming, and the readers that feed it |
| `ReleaseGuard`, `ReleaseHistory` | the release-tag guard and what it means for publishing histories |
| `AnsiStripper`, `RuntimeLogs` | the escape-sequence stripper, the ring buffer, the chunked writer and its concurrent pushers |
| `WorkspaceScan` | the directory worklist of the node acceptance script |
| `ArxivIds`, `PaperMerge` | arXiv id canonicalisation and paper merging |
| `Wrappers`, `Text` | options, results, trimming, searching, joining and decimal numerals |

Code that works by updating objects or looping over buffers is written as
classes and methods, each proved equal to a function of its inputs and old
state; what the code promises is then proved about that function. The two host
runner protocols are concurrent, so they are state machines whose runs are
sequences of actions; `Dispatch` links the sequential code of one request to one
such run.

Several promises are not met on all inputs. For each, the code is kept as it is
and the exact condition is proved:

- Normalising an identity twice equals normalising it once exactly when the
  input is `Clean`: nothing read as text is an object whose summary starts with
  white space (a key with a leading underscore is enough), and no number read
  is infinite or NaN. The second application always settles it.
- Printing image references after a text and parsing gives both back, and
  preparing messages twice equals preparing them once, exactly when the text
  kept has only closed, blank markers.
- The wrapper renames its exit file into place even if writing it failed. The
  code is read exactly when all its digits were written, the file is unreadable
  exactly when it is empty, and a failure is never read as a success.
- A job reported lost, its process absent, can still be reported finished
  exactly when the exit file was there at that look-up, unless it is empty.
- A process is looked up by its id alone. A request that found no exit file
  reports the job running exactly when its metadata named a process and either
  the wrapper is there or its id has been reused; a later request can do so
  exactly when nothing is published and a process is named or still can be.
- The audit log is a sequence of whole lines, each event on its own, exactly
  when no append stopped inside its line; two requests share a line exactly
  when something was written after that. An accepted line is left without its
  operation exactly when its append failed, or the runner stopped, after the
  line's last byte.
- A failed batch is dropped, and so are the last documents of one for which too
  few vectors come back. A finished session has upserted all it read exactly
  when every document it dropped was there before. A missing document of a
  worker's slice can still be upserted by resuming exactly when the checkpoint
  has not passed it. A worker can upsert documents past its slice exactly when
  its checkpoint has reached the limit and a later document is missing.
- Checkpoints are kept by worker number. After a resume with other slices, a
  position is sure to be stored exactly when an old checkpoint claims it or a
  new worker, from the checkpoint it finds, reads it.
- De-duplication keeps every entry exactly when no two different entries share
  a signature, which a NUL character makes possible.
- A second migration leaves the store unchanged exactly when the first one
  renamed nothing; otherwise, as far as it finds free names for them, it imports
  the renamed entries again.
- A file the markdown backend wrote is migrated back into the entries written
  exactly when each is of the file's category and of one trimmed line without a
  key end inside its key.
- The ids in the log store ascend at every moment exactly when every pusher
  appends above the newest stored id (or to an empty store, or one of capacity one).
- A history is over its limit by more than one message exactly when the last
  event is a turn whose first request fails, or that may make none, on a history
  already at its limit; failing turns alone reach any length. Tool results stand
  alone at the front of a trimmed history exactly when the cut falls on them.
- `docs/operations/prerelease-stage-gates.md` says stage transitions hold per
  version. The guard lists tags by a glob that also matches longer versions, so
  a beta of one version is accepted on the alpha of a longer one. The stages of a
  version hold in every history released from a set of versions exactly when no
  other version of the set extends it as text. The model follows the code.

## Model

| member | source | states |
|---|---|---|
| `IdentityText.Deduped` | src/identity.rs:640-655 | the result holds only trimmed, non-blank texts, no two equal up to ASCII case |
| `IdentityText.DedupeNonEmpty` | src/identity.rs:640-655 | the loop computes `Deduped` |
| `IdentityText.DedupedFixed` | src/identity.rs:640-655 | a list that is already clean is left unchanged |
| `IdentityText.DedupedRepresents` | src/identity.rs:640-655 | every non-blank value keeps a representative, and the first of its class is kept itself |
| `IdentityText.ScalarToString` | src/identity.rs:540-554 | a scalar becomes a trimmed non-blank text, a trimmed string is kept, and null, lists and objects give nothing |
| `IdentityText.ValueList` | src/identity.rs:612-638 | any JSON value, however nested, flattens to a clean list |
| `IdentityText.ListFromValue` | src/identity.rs:612-638 | the recursive loop computes `ValueList` |
| `IdentityText.ListRoundTrip` | src/identity.rs:612-638 | a clean list written as a JSON array is read back unchanged |
| `IdentityText.SummarizeObjectIntoParts` | src/identity.rs:582-610 | the recursive loop appends exactly the summary parts |
| `IdentityText.LeadLabel` | src/identity.rs:582-610 | no summary part is empty or ends in white space, and the first part begins with the first contributing label under all enclosing labels |
| `IdentityText.ValueToText` | src/identity.rs:556-570 | an emitted text is non-empty, and trimmed exactly when the value is not a padded object |
| `IdentityText.PlainKeysNotPadded` | src/identity.rs:582-610 | an object none of whose keys begins with an underscore or white space has no padded summary |
| `Identity.CollectMap` | src/identity.rs:657-703 | the map loops keep the last value of each non-`@` key that has one |
| `Identity.NormalizeMoralCompass` | src/identity.rs:326-350 | the moral compass is a clean list |
| `Identity.NormalizeFears` | src/identity.rs:391-438 | fears are absent, or a non-empty clean list |
| `IdentityProjection.CollectedEntries` | src/identity.rs:657-703 | the collected map holds exactly the entries that have a value and are not metadata |
| `IdentityProjection.MapRoundTrip` | src/identity.rs:657-703 | a map written as an object in any entry order is read back unchanged |
| `IdentityProjection.Emitted` | src/identity.rs:218-530 | every normalised identity has the invariant shape, and is also pure (every text trimmed, every number finite) exactly when the input was clean |
| `IdentityProjection.Back` | src/identity.rs:218-530 | every encoding of an identity is clean, and a pure one is normalised back to the same identity |
| `IdentityProjection.ProjectionIffClean` | src/identity.rs:218-530 | normalising any encoding of the normaliser's own output changes nothing if and only if the input was clean |
| `IdentityProjection.SettledByTwo` | src/identity.rs:218-530 | whatever the input, the second application settles it |
| `IdentityProjection.TameIsClean` | src/identity.rs:532-712 | plain keys and finite numeric strings make an input clean |
| `IdentityProjection.UnderscoreKeyNotClean` | src/identity.rs:582-610 | one key with a leading underscore is enough to lose the projection |
| `IdentityProjection.InfiniteStringNotClean` | src/identity.rs:677-683 | one string that parses as an infinity, where a number is read, is enough too |
| `IdentityEncoding.EncodedEncodes` | src/identity.rs:18-157 | every identity has a serialisation, field by field, absent fields as null |
| `IdentityEncoding.RoundTripIffClean` | src/identity.rs:218-530 | serialising the output and normalising again is the identity if and only if the input was clean |
| `IdentityEncoding.SettledAfterTwo` | src/identity.rs:218-530 | after two rounds a third changes nothing |
| `ExitCode.ParseExitText` | src/host_runner.rs:932-961 | the status text the wrapper prints is read back as the status |
| `ExitCode.CodeReadIs` | src/host_runner.rs:888-891 | a text of which only the first bytes were written is unreadable exactly when empty, tells the status exactly when its digits are complete, and never takes a failure for a success |
| `ExitCode.ShortWriteMisread` | src/host_runner.rs:888-891 | a short write whose code is read as another |
| `JobProtocol.StepKeeps` | src/host_runner.rs:844-995 | every step of spawner, wrapper and its failing writes, other processes, status requests and restarts keeps the invariant |
| `JobRuns.ReachableInv` | src/host_runner.rs:844-995 | the invariant holds after every run |
| `JobRuns.FinalStable` | src/host_runner.rs:932-995 | once a request has read the exit file, as a success, a failure or unreadable, every request begun later reports the same state and code |
| `JobRuns.FinalIsPublished` | src/host_runner.rs:932-961 | a final report is a success exactly when the command's status was 0, even after a short write; its code is the status exactly when all digits were written |
| `JobRuns.PublishedIsReported` | src/host_runner.rs:945-966 | a request that reads the exit file after publication reports exactly what can be read of the bytes published |
| `JobRuns.NothingPartial` | src/host_runner.rs:916-950 | no request meets partial metadata or another job's; the exit file is there exactly when published, is read as the status exactly when its digits are complete, and is unreadable exactly when empty |
| `JobRuns.UnreadableIsEmpty` | src/host_runner.rs:945-966 | a request fails on a job's files only if the wrapper published an empty exit file |
| `JobRuns.LostMeansGone` | src/host_runner.rs:967-981 | a job whose id was handed out is reported lost only if its process was absent at the look-up, and then it either never publishes or has published |
| `JobRuns.ResultSurvives` | src/host_runner.rs:880-892 | a published result outlives every later step, restarts of the runner included |
| `JobRuns.FinishIff` | src/host_runner.rs:844-995 | some later request can report a final state if and only if the job has a readable result or its wrapper can still be started, end or publish one |
| `JobRuns.LostFinalIff` | src/host_runner.rs:945-981 | of every job reported lost: a result can still be reported exactly when the job can still finish; if its process was looked up, exactly when the exit file was there at that look-up, unless it is empty |
| `JobRuns.LostIsNotFinal` | src/host_runner.rs:945-981 | some run reports a returned job lost and then succeeded |
| `JobRunning.RunningIff` | src/host_runner.rs:967-981 | a request that found no exit file reports the job running if and only if its metadata named a process and the wrapper is there or its process id has been reused |
| `JobRunning.CanReportRunningIff` | src/host_runner.rs:844-995 | a request begun later can report a job running if and only if nothing is published and the metadata names a process, or the spawner can still go on to name one |
| `JobRunning.RunningThoughGone` | src/host_runner.rs:967-981 | a run that reports a returned job running although its wrapper was killed before it published |
| `OutputCapture.CaptureOutput` | src/host_runner.rs:802-828 | the captured bytes are the first `limit` delivered ones, and truncation is flagged exactly when more were delivered |
| `OutputCapture.DeliveredCut` | src/host_runner.rs:802-828 | how the stream is cut into reads makes no difference |
| `AuditLog.StepKeeps` | src/host_runner.rs:369-391 | every step of any request, append, failure or stop keeps the invariant |
| `AuditLog.TrailAllowed` | src/host_runner.rs:578-678 | a request's lines are a prefix of accepted-completed or accepted-failed or a single rejection; a rejected request is never executed, an executed one has its accepted line |
| `AuditFile.ExecutesAfterAccepted` | src/host_runner.rs:602-625 | the step that starts an operation finds exactly its accepted line complete, in the file if nothing was torn |
| `AuditLog.AcceptedYetNotExecuted` | src/host_runner.rs:369-391 | a run that leaves an accepted line for an operation that is never executed |
| `AuditLog.StrandedIff` | src/host_runner.rs:602-623 | a request that is over has its accepted line without having been executed if and only if its append failed, or the runner stopped, after the last byte of that line |
| `AuditFile.SpilledIff` | src/host_runner.rs:369-391 | bytes are left behind exactly when some append stopped inside its line |
| `AuditFile.LogIsWholeLines` | src/host_runner.rs:369-391 | between appends the file is exactly the complete lines in order if and only if no append stopped inside its line; during one it ends in a part of that line alone |
| `AuditFile.LinesNeverMix` | src/host_runner.rs:369-391 | between appends, the log read back line by line is exactly the events written, each on its own line, if and only if no append stopped inside its line |
| `AuditFile.SharedIff` | src/host_runner.rs:369-391 | bytes of two requests share a line of the file if and only if something was written after an append had stopped inside its line |
| `AuditFile.TornLinesMix` | src/host_runner.rs:369-391 | a run in which two requests share a line, and the second is executed all the same |
| `Dispatch.AuditWriter.Append` | src/host_runner.rs:369-391 | an append adds its line, or the bytes before its failure, and reports success exactly without a failure |
| `Dispatch.DispatchRequest` | src/host_runner.rs:578-678 | one request adds its first line and, if accepted and written, its outcome's line, and is answered accordingly |
| `Dispatch.DispatchIsRun` | src/host_runner.rs:578-678 | handling one request alone, after anything, is a run of the interleaved machine with the same log, executed exactly as answered |
| `Base64.DecodeEncode` | src/multimodal.rs:220-260 | decoding an encoding gives back every byte string |
| `Base64.EncodeDecode` | src/multimodal.rs:220-260 | a text that decodes is the encoding of what it decodes to, padding bits included |
| `Base64.DecodesIffEncodes` | src/multimodal.rs:220-260 | decoding is exactly the inverse of encoding |
| `DataUri.FixedIffCanonical` | src/multimodal.rs:220-260 | the URIs the normaliser keeps unchanged are exactly the canonical ones |
| `DataUri.NormalizedCanonical` | src/multimodal.rs:220-260 | an accepted URI becomes canonical, a fixed point, with the same payload |
| `DataUri.CanonicalShape` | src/multimodal.rs:220-260 | a canonical URI is trimmed, non-empty and free of brackets, so it can stand in a marker |
| `DataUri.PayloadRecovered` | src/multimodal.rs:102-115 | extracting a non-empty payload from the normalised URI and decoding it gives the original bytes |
| `ImageMarkers.ParseImageMarkers` | src/multimodal.rs:55-88 | the cursor loop terminates and computes the recursive marker grammar |
| `ImageMarkers.ComposeMultimodalMessage` | src/multimodal.rs:175-194 | the printing loop computes heading and marker lines |
| `ImageMarkers.ScanAppend` | src/multimodal.rs:55-88 | across a line break, parsing a concatenation is parsing the parts, if the first part leaves no marker open |
| `ImageMarkers.ScanMarkers` | src/multimodal.rs:55-88 | a printed list of references is read back, only line breaks left as text |
| `ImageMarkers.ComposeOpen` | src/multimodal.rs:175-194 | an unclosed marker in the text swallows the first printed reference into a longer one and shortens the kept text |
| `ImageMarkers.InertIff` | src/multimodal.rs:55-88 | a text is inert exactly when it leaves no marker open and yields no reference, and it is then kept whole |
| `ImageMarkers.RoundTripIffInert` | src/multimodal.rs:175-194 | printing references after a text and parsing gives both back if and only if every marker in the text is closed and blank |
| `ImageMarkers.MarkerNotInert` | src/multimodal.rs:55-88 | a text that is not inert |
| `ImageMarkers.RoundTripPlain` | src/multimodal.rs:175-194 | in particular for every text without a marker prefix, with any list of references |
| `Multimodal.NormalizeReferences` | src/multimodal.rs:147-159 | the loop gives all URIs in order or the first error |
| `Multimodal.PrepareMessagesForProvider` | src/multimodal.rs:117-173 | the loop computes the preparation, stopping at the first error |
| `PreparedMessages.ReferenceCanonical` | src/multimodal.rs:196-382 | a reference from any source that is accepted becomes a canonical data URI |
| `PreparedMessages.PreparedKeeps` | src/multimodal.rs:117-173 | preparation keeps the number of messages, their roles, and every message without a user's image |
| `PreparedMessages.SettledConversation` | src/multimodal.rs:90-173 | with settled messages the image count is kept, and preparing again changes nothing even in another environment |
| `PreparedMessages.UnsettledMessage` | src/multimodal.rs:117-194 | a message whose kept text has another marker changes again when prepared again |
| `PreparedMessages.PreparedIffSettled` | src/multimodal.rs:117-194 | preparing prepared messages changes nothing if and only if every illustrated message was settled |
| `PreparedMessages.UnsettledExists` | src/multimodal.rs:117-194 | a message that is prepared, but differently the second time in any environment: deleting its marker splices another |
| `Ingest.Worker.RunSession` | scripts/arxiv_to_qdrant.py:67-125 | the batching loop, killed anywhere, computes the session and leaves exactly its checkpoint and upserts |
| `Ingest.Worker.TryBatch` | scripts/arxiv_to_qdrant.py:94-122 | one batch upserts as many of its documents as vectors came back and then checkpoints their number, a kill or failure possible between |
| `Ingest.SessionKeeps` | scripts/arxiv_to_qdrant.py:67-125 | without dropped batches the checkpoint never claims more than was upserted, and a finished session has covered its slice |
| `Ingest.SessionMonotone` | scripts/arxiv_to_qdrant.py:67-125 | whatever fails, the checkpoint never decreases nor passes the cursor, and nothing is un-upserted |
| `Ingest.Recovered` | scripts/arxiv_to_qdrant.py:67-125 | after any number of kills and resumes without dropped batches, a finished session means the slice is upserted |
| `Ingest.ResumeAtLimitReadsOn` | scripts/arxiv_to_qdrant.py:80-82 | a worker resumed at its limit finishes only with everything to the end of the collection upserted |
| `Ingest.StaysInSlice` | scripts/arxiv_to_qdrant.py:80-82 | below its limit a session adds nothing outside its own slice, above its checkpoint |
| `Ingest.LeavesSliceIff` | scripts/arxiv_to_qdrant.py:80-82 | the next session can upsert documents past its slice if and only if the checkpoint has reached the limit and a later document is missing, because a cursor limit of 0 is no limit |
| `Ingest.CoveredIffNoDrops` | scripts/arxiv_to_qdrant.py:95-122 | a finished first session upserted all it read if and only if no batch failed or came back short of vectors |
| `Ingest.SessionUpserts` | scripts/arxiv_to_qdrant.py:67-125 | a session that finishes, first or resumed, adds exactly the documents with text it read, less those of failed batches and those without a vector |
| `Ingest.CoveredIffDroppedKnown` | scripts/arxiv_to_qdrant.py:94-122 | a finished session, first or resumed, has covered what it read if and only if every document it dropped was there before |
| `Ingest.RecoverableIff` | scripts/arxiv_to_qdrant.py:67-125 | whatever was dropped or killed before, a missing document of the slice can still be upserted by further attempts if and only if the checkpoint has not passed it |
| `Ingest.DropNotRecovered` | scripts/arxiv_to_qdrant.py:95-111 | a run that finishes with a dropped document no further attempt can upsert |
| `Ingest.DropRecovered` | scripts/arxiv_to_qdrant.py:95-122 | a run that finishes with a dropped document a further attempt can upsert |
| `Ingest.PlanSlices` | scripts/arxiv_to_qdrant.py:147-173 | the start-up loop computes the slices |
| `Ingest.SlicesPartition` | scripts/arxiv_to_qdrant.py:147-170 | the slices are pairwise disjoint and cover exactly the documents below the cap |
| `Ingest.AllIngested` | scripts/arxiv_to_qdrant.py:67-173 | once every worker has finished a session, every document with text below the cap is upserted by its worker |
| `Ingest.ResliceIff` | scripts/arxiv_to_qdrant.py:67-82 | after a resume with other slices, a document is stored in every collection and every run without dropped batches if and only if an old checkpoint claims its position or a new worker reads it from the checkpoint filed under its number |
| `Ingest.SameSlicesSurvive` | scripts/arxiv_to_qdrant.py:135-173 | with unchanged slices nothing is lost, whatever the checkpoints |
| `Ingest.ResliceLoses` | scripts/arxiv_to_qdrant.py:67-82 | two workers resumed as four over the same four documents: the second document is lost |
| `AgentTurn.Agent.ClearHistory` | src/agent/agent.rs:249-251 | the history is empty |
| `AgentTurn.Agent.TrimHistory` | src/agent/agent.rs:359-384 | above the limit, the system messages and the last `max` others are left, in order |
| `AgentTurn.Agent.RunTurn` | src/agent/agent.rs:478-625 | the loop leaves exactly the history and outcome of the turn, on every failure path too |
| `AgentTurn.TrimmedShaped` | src/agent/agent.rs:359-384 | trimming keeps the shape and leaves at most one message over the limit |
| `AgentTurn.AfterCallsShaped` | src/agent/agent.rs:601-618 | a round of tool calls adds the calls immediately followed by their results |
| `AgentTurn.IterateShaped` | src/agent/agent.rs:561-625 | from any iteration on, the loop keeps the shape, and an answer leaves at most one message over the limit |
| `AgentTurn.TurnShaped` | src/agent/agent.rs:478-625 | one turn keeps the shape: one system message at the head, calls answered next, results alone only at the front |
| `AgentTurn.RunShaped` | src/agent/agent.rs:249-625 | over every run of turns and clears the shape holds, and the limit is exceeded by at most one and the failures since the last answer |
| `AgentTurn.FailuresUnbounded` | src/agent/agent.rs:561-581 | with every request failing, the history grows by one message a turn past any limit |
| `AgentTurn.StandsAloneIff` | src/agent/agent.rs:359-384 | trimming leaves tool results at the front of the conversation if and only if the limit is positive and the first message kept is one |
| `AgentTurn.TurnOverIff` | src/agent/agent.rs:478-625 | a turn leaves more than one message over the limit if and only if its first request fails, or none is allowed, on a history already at its limit; it is then one longer |
| `AgentTurn.RunOverIff` | src/agent/agent.rs:249-625 | over every run the history is more than one message over the limit if and only if the last event is such a turn |
| `Migration.FreshIndex` | src/migration.rs:329-338 | the suffix found is free and the least free one |
| `Migration.FreshExists` | src/migration.rs:329-338 | a free name exists whenever the store holds fewer than 10,000 entries |
| `Migration.NextAvailableKey` | src/migration.rs:329-338 | the loop returns the name with the least free suffix, or fails when none is free |
| `Migration.MigrateEntries` | src/migration.rs:88-109 | the import loop leaves exactly the imported prefix of the source, all of it on success, with its statistics |
| `Migration.ImportConserves` | src/migration.rs:88-109 | on success imported and skipped add up to the source, the store grows by the imported, no entry changes, and every content is found under its key or a numbered one |
| `Migration.ImportCompletes` | src/migration.rs:88-109 | with room for every suffix the import cannot run out of names |
| `Migration.NeverOverwrites` | src/migration.rs:88-109 | on any outcome no entry that was there has changed |
| `Migration.RerunImportsRenamed` | src/migration.rs:88-109 | a second run imports exactly as many entries as the first renamed, all under new names, and skips the rest |
| `Migration.RerunStableIff` | src/migration.rs:88-109 | a second run leaves the store unchanged if and only if the first renamed nothing |
| `Migration.RenamingExists` | src/migration.rs:88-109 | an import that renames, and whose second run stores the entry once more |
| `MigrationSources.ParsedProper` | src/migration.rs:312-319 | a parsed custom category never bears a built-in name |
| `MigrationSources.ReadRows` | src/migration.rs:189-211 | the row loop computes the row entries |
| `MigrationSources.RowsConserved` | src/migration.rs:189-211 | each row with content yields one entry, in order, numbered by the kept rows before it |
| `MigrationSources.ParseMarkdownFile` | src/migration.rs:258-293 | the line loop computes the line entries |
| `MigrationSources.StructuredIff` | src/migration.rs:295-310 | a structured line gives its key and content back if and only if the key holds no key end |
| `MigrationSources.FileRoundTripIff` | src/memory/markdown.rs:41-63 | a file the markdown backend wrote is migrated back into exactly the entries written if and only if each is of the file's category and of one trimmed line without a key end inside its key |
| `MigrationSources.TwoLinesNotBack` | src/migration.rs:258-293 | an entry with two lines of content is not read back |
| `MigrationSources.RetainFirst` | src/migration.rs:142-147 | the retain loop keeps the first entry of each signature |
| `MigrationSources.SignatureInjective` | src/migration.rs:142-147 | without NUL characters equal signatures mean equal entries |
| `MigrationSources.RetainedOnce` | src/migration.rs:142-147 | what is kept comes from the source, one entry for each of its signatures and no two with the same |
| `MigrationSources.RetainedIff` | src/migration.rs:142-147 | every entry is kept if and only if no two different entries share a signature |
| `MigrationSources.RetainedComplete` | src/migration.rs:142-147 | in particular without NUL characters exactly the distinct entries are kept, each once |
| `MigrationSources.NulLosesEntry` | src/migration.rs:142-147 | two different entries with a NUL share a signature, and the second is lost |
| `ReleaseGuard.StableTagUnique` | scripts/ci/prerelease_guard.py:35-50 | two tags of the same stable release are equal |
| `ReleaseGuard.ParseTagOf` | scripts/ci/prerelease_guard.py:35-50 | the tag spelled for a version, stage and number parses as them |
| `ReleaseGuard.HighestKey` | scripts/ci/prerelease_guard.py:134-147 | the highest key is some entry's and below none |
| `ReleaseGuard.HighestStageEntry` | scripts/ci/prerelease_guard.py:138-147 | the entry found has the highest key |
| `ReleaseGuard.HigherStageIff` | scripts/ci/prerelease_guard.py:353-376 | comparing with the highest sibling alone is comparing with every sibling |
| `ReleaseGuard.PublishableMeans` | scripts/ci/prerelease_guard.py:290-392 | no violation is reported exactly when every check holds |
| `ReleaseGuard.SiblingOf` | scripts/ci/prerelease_guard.py:315-318 | the siblings are the other parsing tags that extend the version as text, whatever their version |
| `ReleaseHistory.PublishedAbove` | scripts/ci/prerelease_guard.py:315-376 | a tag without violation is above every other existing tag of its version |
| `ReleaseHistory.PublishedOrdered` | scripts/ci/prerelease_guard.py:315-376 | in every run where tags are only added, different published tags of one version have strictly increasing stage and number |
| `ReleaseHistory.PrerequisiteBefore` | scripts/ci/prerelease_guard.py:342-351 | an accepted tag's required stage was released before it, if no other version present by then extends its own |
| `ReleaseHistory.StableNeedsChain` | scripts/ci/prerelease_guard.py:315-376 | a stable release is preceded by an rc, a beta and an alpha, in that order, if no other version released before it extends its own |
| `ReleaseHistory.ExtensionBreaksChain` | scripts/ci/prerelease_guard.py:315 | for every version that properly extends another, a beta of the shorter one is released without any alpha of it |
| `ReleaseHistory.StagedIffNotExtended` | scripts/ci/prerelease_guard.py:315-376 | every history released from a set of versions gives each staged tag of a version its prerequisite, of that version, before it if and only if no other version of the set extends that version |
| `AnsiStripper.StripAnsiSequences` | src/runtime_logs.rs:154-190 | the iterator loop computes the stripping function |
| `AnsiStripper.ControlSequenceValid` | src/runtime_logs.rs:164-172 | every control sequence of section 5.4 of ECMA-48 is recognised |
| `AnsiStripper.StripTokens` | src/runtime_logs.rs:154-190 | stripping a rendering of text, control sequences and operating-system commands leaves exactly the text |
| `AnsiStripper.StripClean` | src/runtime_logs.rs:154-190 | for any input no escape character is left and stripping again changes nothing |
| `RuntimeLogs.PushAllKeepsLast` | src/runtime_logs.rs:42-63 | any number of pushes leaves the last `capacity` of the old entries and the non-blank stripped lines, numbered consecutively |
| `RuntimeLogs.CutConserves` | src/runtime_logs.rs:125-133 | cutting into lines loses no byte and leaves no line feed in the rest |
| `RuntimeLogs.ConsumeTwice` | src/runtime_logs.rs:125-133 | two writes are one write of both, the pending rest included |
| `RuntimeLogs.ChunkingIndependent` | src/runtime_logs.rs:125-141 | any way of cutting a stream into writes leaves what one write would |
| `RuntimeLogs.StreamStored` | src/runtime_logs.rs:125-151 | any chunks and one flush store exactly the stream's non-blank lines, the last unterminated one included |
| `RuntimeLogs.RuntimeLogStore.constructor` | src/runtime_logs.rs:31-40 | the store is empty with a capacity of at least one |
| `RuntimeLogs.RuntimeLogStore.PushLine` | src/runtime_logs.rs:42-63 | a blank line changes nothing; any other gets the next id and drops the oldest entry at capacity |
| `RuntimeLogs.RuntimeLogStore.Clear` | src/runtime_logs.rs:66-71 | the entries are removed and counted, the id counter kept |
| `RuntimeLogs.RuntimeLogStore.Tail` | src/runtime_logs.rs:73-78 | the most recent entries, at least one asked for |
| `RuntimeLogs.RuntimeLogWriter.ConsumeBytes` | src/runtime_logs.rs:125-133 | the draining loop pushes every complete line and keeps the rest |
| `RuntimeLogs.RuntimeLogWriter.FlushPending` | src/runtime_logs.rs:143-151 | the rest is pushed as a line and forgotten |
| `RuntimeLogs.RunSafe` | src/runtime_logs.rs:42-63 | with concurrent pushers the store stays within capacity and ids stay distinct |
| `RuntimeLogs.StepAscendingIff` | src/runtime_logs.rs:42-63 | from a store with ascending ids, a step keeps them ascending if and only if it is no append out of order |
| `RuntimeLogs.AscendingIffInOrder` | src/runtime_logs.rs:42-63 | over every interleaving the stored ids ascend at every moment if and only if every append finds an empty store, a store of one, or a lower newest id |
| `RuntimeLogs.FirstComeAscends` | src/runtime_logs.rs:42-63 | if pushers append in the order in which they took their ids, the stored ids always ascend |
| `RuntimeLogs.OrderNotKept` | src/runtime_logs.rs:42-63 | a run of two pushers in which the later id is stored first |
| `WorkspaceScan.CheckEntries` | scripts/docker/node-acceptance.py:1049-1062 | a listing passes exactly when every entry is acceptable, queues its directories in order, and otherwise fails on the first offending entry |
| `WorkspaceScan.Scan` | scripts/docker/node-acceptance.py:1034-1062 | the scan always ends; it succeeds exactly on clean workspaces, having requested each reachable directory once and no other |
| `WorkspaceScan.AllVisited` | scripts/docker/node-acceptance.py:1034-1062 | a visited set with the root and closed under listing is the reachable set |
| `WorkspaceScan.TooManyReachable` | scripts/docker/node-acceptance.py:1042-1043 | exceeding the limit means more directories are reachable than allowed |
| `WorkspaceScan.CleanHasNoSoul` | scripts/docker/node-acceptance.py:552-553 | in a clean workspace no reachable entry has the rejected name or path in any letter case |
| `ArxivIds.CanonicalId` | scripts/recent_research_pilot.py:80-114 | what is returned has the canonical shape of a modern or legacy id |
| `ArxivIds.SpellingCanonical` | scripts/recent_research_pilot.py:80-114 | every supported spelling of an id, in any letter case, with or without a version, canonicalises to it |
| `ArxivIds.CanonicalFixedIff` | scripts/recent_research_pilot.py:80-114 | an id is its own canonical form if and only if it has the canonical shape |
| `ArxivIds.CanonicalIdempotent` | scripts/recent_research_pilot.py:80-114 | canonicalising twice changes nothing |
| `ArxivIds.VariantsDenote` | scripts/recent_research_pilot.py:351-362 | every variant of an id canonicalises to that id |
| `PaperMerge.SortedSetIs` | scripts/recent_research_pilot.py:318-323 | the topic list is the strictly ascending listing of the topic set |
| `PaperMerge.MergePapers` | scripts/recent_research_pilot.py:305-327 | the nested loops compute the merge |
| `PaperMerge.SortedDescending` | scripts/recent_research_pilot.py:324-327 | records of distinct ids are ordered strictly by descending date and id |
| `PaperMerge.MergeRecords` | scripts/recent_research_pilot.py:305-327 | there is exactly one record per canonical id found: its first paper, under the id, with the ascending union of all its topics, in strictly descending order |
| `PaperMerge.MergeIdempotent` | scripts/recent_research_pilot.py:305-327 | merging a merge's own output changes nothing |

## Left out

- Identity: a payload that is not an object is rejected before normalising; `aieos_to_system_prompt` and file loading only format or read.
- Identity: doubles are opaque payloads; their conversions to and from text and integers are parameters, of which only non-blank, trimmed printing is assumed.
- Unicode: white space, letter case and `\d` are ASCII or fixed character classes; lossy UTF-8 decoding is a parameter of the log writer, and the captured output is left as bytes.
- Host runner: sockets, timeouts, permissions, digests, UUIDs, clocks, request validation and the operations themselves; job ids are fresh numbers and the response size is not bounded.
- JobProtocol.StepKeeps: a rename is atomic, and a process that has ended but is not yet reaped counts as present; a wrapper that cannot create or rename its exit file is one that is killed before it publishes.
- AuditLog.TrailAllowed: requests are told apart by their dispatch, not by the client's request id, which a client may reuse; a request that is not valid JSON is never dispatched and leaves no line.
- Dispatch.DispatchRequest: what the operation does is a parameter.
- Multimodal: fetching and reading images are parameters; sizes are unbounded numbers.
- Ingest.Recovered: the collection is stable and a checkpoint write is atomic; vectors and point ids are left out, so two documents whose derived ids collide are not modelled.
- Ingest.ResliceIff: no checkpoint is reset, and the first run started without any.
- Ingest.SlicesPartition: the chunk is the exact ceiling; the source divides in floating point, which agrees below 2 to the 53rd.
- AgentTurn: research, classification, prompt text, memory loading and observer events are parameters or absent; a turn is not cancelled half-way, and tools always return a text.
- Migration.MigrateEntries: the target is an upserting map whose operations may fail without effect; a backend that does not look entries up by key is not covered.
- MigrationSources: backups, dry runs, column detection and directory listing order.
- MigrationSources.FileRoundTripIff: the backend's heading and the file's name have no line break.
- ReleaseGuard: policy parsing, the report and the git commands; what they find is a parameter, with the standard stage order and prerequisites.
- RuntimeLogs: timestamps and the broadcast channel; ids do not wrap at 64 bits.
- WorkspaceScan: credential and tool-registry checks; the server answers the same request in the same way.
- ArxivIds.SpellingCanonical: an `arxiv.org` host without port or user information; other inputs follow the same function, but URL errors for unbalanced brackets and non-ASCII percent decoding are not modelled.
- PaperMerge: fields other than the id, date and topics travel as one opaque value.
- Everything else in the repository: command line, web interface, firmware, formatting and the remaining continuous-integration guards.
