# Stem separation server: progress and result bookkeeping

This project models the stateful core of the audio stem separation web
server (`src/index.ts`). The server accepts an uploaded song and runs the
Demucs separator on it. While Demucs runs, the server streams progress to
browsers over server-sent events. When Demucs finishes, the server
publishes the four separated stems (drums, bass, other, vocals) under
`/stems/`.

The model covers five pieces:

- **Progress parser** (`ProgressParser`). A chunk of Demucs's stderr is an
  update only when it contains `Processing` and the regular expression
  `([0-9]+)%` matches. The value is `parseInt` of the leftmost match.
- **Progress store** (`UploadServer.StemServer.progress`). This is the
  process-wide `progressState`. Every upload resets it to 0 once on
  arrival. When a file came and the workspace setup succeeded, it is reset
  to 0 a second time after Demucs is spawned. It is then set uniformly from
  each parsed chunk, set to 100 per collected stem, and finally set to 100
  for all stems. After any emit, the store equals the snapshot emitted last.
- **Result collector** (`Collector`, `UploadServer.StemServer.CollectStems`).
  The stems are visited in a fixed order. A stem is published only if its
  file `<outputDir>/htdemucs/<baseName>/<stem>.wav` exists. Its URL is then
  recorded as `/stems/<baseName>_<stem>_<timestamp>.wav` in the
  process-wide `audioUrls`, which is never cleared.
- **Job outcome** (`UploadServer.StemServer.HandleUpload`, `RunJob`,
  `OnClose`):
  - no file: 400;
  - setup failure: 500 `Internal server error.`;
  - non-zero exit code: 500 `Error processing audio file.`;
  - success: a JSON listing built from the keys of `audioUrls`, in insertion
    order.
- **Listener registry** (`ProgressBus.ProgressEmitter`). Each SSE
  subscriber first gets the current snapshot. After that it gets every
  emitted snapshot, in order, until its listener is removed.

Abstractions:

- Progress values are integer percentages: 100 stands for the source's 1.
- The file system is a set of path strings, and the public stems directory
  is a set of file names.
- A Demucs run is a `Job` value. It holds the stderr chunks, the files
  Demucs writes, its exit code, whether the workspace setup throws, the
  directory `mkdtemp` returns, and the values `Date.now()` returns when
  each stem is visited.
- What an SSE response has been sent is kept per subscriber in
  `ProgressEmitter.received`. The history of emits and subscriptions is
  ghost state. `Valid()` ties the two together: a subscriber's log is its
  greeting snapshot followed by exactly the snapshots emitted between its
  subscription and its removal. A method that only emits leaves the
  subscriptions alone, and `ProgressEmitter.Relayed` then says what each
  log gained: a registered subscriber's log gains exactly the newly emitted
  snapshots, in order, and a removed subscriber's log stays unchanged.

Where one might expect clamping or a full cleanup, the model follows the code:

- The code does not clamp the parsed percentage (`150%` is stored as
  1.5), so the model does not clamp either (`ProgressParser.NotClamped`).
- When workspace setup fails, the code only unlinks the uploaded file. It
  does not remove a temporary workspace, and the model does the same.

## Model

| member | source | states |
|---|---|---|
| Stems.Rank | src/index.ts:81 | each stem's position in the visiting order drums, bass, other, vocals |
| Stems.NameInjective | src/index.ts:81 | the four stem names are pairwise different |
| Stems.Uniform | src/index.ts:137-139 | the snapshot in which every stem has the same value |
| Stems.OverwriteAll | src/index.ts:82 | setting every stem overwrites any earlier value of any stem |
| Decimal.Render | src/index.ts:178 | the decimal text of a timestamp is non-empty digits, with a leading zero only for 0 |
| Decimal.ValueOfRender | src/index.ts:136 | `parseInt` of the decimal text of `n` is `n` |
| Decimal.RenderInjective | src/index.ts:177-178 | different timestamps give different texts |
| ProgressParser.Contains | src/index.ts:132 | `includes` holds exactly when the pattern occurs at some position |
| ProgressParser.FindPercent | src/index.ts:134 | the regex search returns the leftmost digits-then-`%` match from a position, or none when there is no match |
| ProgressParser.PercentEnd | src/index.ts:134 | a match's digit run ends at the end of the maximal digit run from its start |
| ProgressParser.ParseChunkOfMatch | src/index.ts:132-136 | given the leftmost match, a chunk with `Processing` yields `parseInt` of its digits, and any other chunk yields nothing |
| ProgressParser.ParseChunk | src/index.ts:132-136 | a chunk yields no update exactly when it lacks `Processing` or has no digits-then-`%`; an update is the value of the leftmost match's digits |
| ProgressParser.LeftmostIsMaximalRun | src/index.ts:134 | the leftmost match starts at the start of a maximal digit run |
| ProgressParser.MatchAfterPrefix | src/index.ts:132-134 | after a digit-free prefix mentioning `Processing`, the digits that follow are the leftmost match |
| ProgressParser.ParseAfterPrefix | src/index.ts:132-136 | such a chunk yields the value of those digits |
| ProgressParser.NotClamped | src/index.ts:134-139 | after a digit-free prefix that mentions `Processing`, any `n` followed by `%` is reported as `n`, with no clamping |
| ProgressBus.Without | src/index.ts:64 | `removeListener` drops one occurrence, does nothing for an absent listener, and keeps the others |
| ProgressBus.ProgressEmitter.constructor | src/index.ts:12 | a new emitter has no listeners and has sent nothing |
| ProgressBus.ProgressEmitter.Subscribe | src/index.ts:53-60 | a fresh listener is sent the current snapshot, is appended to the listeners, and from then on receives every emit |
| ProgressBus.ProgressEmitter.RemoveListener | src/index.ts:63-65 | the listener is removed, nothing is written, and it receives no later emit |
| ProgressBus.ProgressEmitter.RelayFollowsHistory | src/index.ts:53-64 | when only emits happened, every registered subscriber's log gained exactly the new snapshots and every removed subscriber's log is unchanged |
| ProgressBus.ProgressEmitter.Emit | src/index.ts:56-58 | every registered listener, and no removed one, gets the snapshot appended to its log; subscriptions are unchanged |
| ProgressBus.ProgressEmitter.WriteToListeners | src/index.ts:56-58 | the dispatch loop writes the snapshot once to each registered listener and to no one else |
| Base.LastIndex | src/index.ts:156 | the last position of an element, with no occurrence after it, or -1 exactly when it is absent; used for the last `/` and `.` of a path and for the last registration of a listener |
| Collector.FileName | src/index.ts:156 | `basename` is the slash-free suffix of the path that follows its last `/` |
| Collector.StripExtension | src/index.ts:156 | the extension removed is the text from the last dot, unless that dot leads the name or the name is `..` |
| Collector.SuffixLayout | src/index.ts:178 | in `_<stem>_<timestamp>.wav` the stem name sits between the first two underscores and the timestamp digits before `.wav` |
| Collector.SuffixInjective | src/index.ts:178 | `_<stem>_<timestamp>.wav` determines the stem and the timestamp |
| Collector.UrlInjective | src/index.ts:177-185 | for one base name, different stems or timestamps give different URLs |
| Collector.Found | src/index.ts:170-174 | the visited stems whose `.wav` file exists, and only those, each once |
| Collector.FoundInOrder | src/index.ts:170 | found stems keep the visiting order |
| Collector.Record | src/index.ts:185 | writing keys to `audioUrls` keeps the earlier keys first and in place, and appends only new keys |
| Collector.RecordNewInOrder | src/index.ts:185 | keys written in visiting order are appended in that order, after the earlier keys |
| UploadServer.Listing | src/index.ts:202-205 | the response has one entry per `audioUrls` key, in key order, giving the stem's name and its URL |
| UploadServer.ListingNames | src/index.ts:202-205 | the response names exactly the recorded stems, each once |
| UploadServer.FailedJobLeavesNoWorkspace | src/index.ts:148-152 | after a failed run, the temporary directory, the moved input, the output directory and every stem file are gone, and every file outside the workspace except the upload is kept |
| UploadServer.StoreIsLastUpdate | src/index.ts:137-140 | after the stderr chunks, the store holds the last emitted snapshot, or its starting value when nothing was parsed |
| UploadServer.LatestNotLargest | src/index.ts:134-140 | two progress lines are both emitted, and the later percentage replaces the earlier one even when it is smaller |
| Collector.PublicNameInjective | src/index.ts:177-178 | for one base name, the public file name determines the stem and the timestamp |
| UploadServer.CollectedIffPresent | src/index.ts:170-188 | a stem gets a URL, a public copy and progress 100 exactly when its file exists; the public copy belongs to a found stem and no other |
| UploadServer.RecordKeepsTable | src/index.ts:185 | recording one URL keeps `audioUrls` without repeated keys, its keys in insertion order, and every URL served |
| UploadServer.PublishKeepsServed | src/index.ts:180-185 | every recorded URL is `/stems/` followed by a file in the public directory, and publishing keeps this |
| UploadServer.StemServer.constructor | src/index.ts:76-77 | the process starts with empty `progressState`, empty `audioUrls` and no subscribers |
| UploadServer.StemServer.OpenProgressStream | src/index.ts:47-60 | the subscriber is sent the current `progressState`, which is the snapshot emitted last, then registered |
| UploadServer.StemServer.CloseProgressStream | src/index.ts:63-65 | closing unregisters the subscriber and sends nothing |
| UploadServer.StemServer.SetAll | src/index.ts:82 | the loop sets every stem to the value |
| UploadServer.StemServer.Broadcast | src/index.ts:82-83 | a reset sets every stem, emits that snapshot once, and touches nothing else; subscribers and registrations are unchanged, and each registered log gains exactly the emitted snapshots |
| UploadServer.StemServer.OnStderr | src/index.ts:127-143 | a parsed chunk sets every stem to its value and emits once; any other chunk changes and emits nothing; subscribers and registrations are unchanged, and each registered log gains exactly the emitted snapshots |
| UploadServer.StemServer.ConsumeStderr | src/index.ts:127-143 | over a run's chunks, the store and the emitted snapshots follow the parser, chunk by chunk; subscribers and registrations are unchanged, and each registered log gains exactly the emitted snapshots |
| UploadServer.StemServer.Publish | src/index.ts:180-185 | the copy is added to the public directory and the URL recorded under the stem, appending the stem to the key order only when it is new |
| UploadServer.StemServer.FeedChunks | src/index.ts:127-143 | the loop over the chunks leaves the store and the emitted snapshots as the parser dictates, chunk by chunk, and touches nothing else |
| UploadServer.StemServer.CollectStem | src/index.ts:171-188 | a present stem is copied, its URL recorded, and its progress set to 100 and emitted; an absent stem changes nothing; subscribers and registrations are unchanged, and each registered log gains exactly the emitted snapshots |
| UploadServer.StemServer.CollectStems | src/index.ts:170-192 | the loop records URLs, copies, 100s and emits for exactly the found stems, in visiting order; subscribers and registrations are unchanged, and each registered log gains exactly the emitted snapshots |
| UploadServer.StemServer.OnClose | src/index.ts:146-206 | non-zero exit: workspace removed, 500, nothing else changes; exit 0: collect, all 100 emitted, and all of `audioUrls` listed in insertion order, the new keys in visiting order (`RecordNewInOrder`); subscribers and registrations are unchanged, and each registered log gains exactly the emitted snapshots |
| UploadServer.StemServer.HandleUpload | src/index.ts:79-87 | every upload first resets and emits; without a file it answers 400 and changes nothing else; subscribers and registrations are unchanged, and each registered log gains exactly the emitted snapshots |
| UploadServer.StemServer.Separate | src/index.ts:94-206 | once setup succeeds: the workspace is created, the store is reset, stderr updates follow, then the close handler's outcome on the workspace; subscribers and registrations are unchanged, and each registered log gains exactly the emitted snapshots |
| UploadServer.StemServer.Prepare | src/index.ts:94-143 | the upload is moved into the new workspace, the store is reset and emitted, the stderr updates follow, and Demucs's files are added; subscribers and registrations are unchanged, and each registered log gains exactly the emitted snapshots |
| UploadServer.StemServer.RunJob | src/index.ts:92-229 | setup failure unlinks the upload and answers 500; otherwise reset, stderr updates, then the close handler's outcome on the workspace; subscribers and registrations are unchanged, and each registered log gains exactly the emitted snapshots |

## Left out

- Express routing, view rendering, static serving and the registration of `/stems`: HTTP plumbing with no state the model needs.
- multer storage and the creation of the uploads folder: library I/O. The uploaded file is an input value.
- Spawning `demucs` and logging its stdout: the process is reduced to its stderr chunks, the files it writes and its exit code.
- The asynchronous interleaving of concurrent uploads on the shared globals: the model runs one job after another.
- The one-hour `setTimeout` cleanup: timer-driven, with nothing observable but a later deletion.
- SSE headers and JSON serialisation: an SSE write is modelled as appending the snapshot value to the subscriber's log.
- Division by 100: progress is kept as an integer percentage.
- ProgressParser.ParseChunk: `parseInt` returns a double, so a digit run above 2^53 is rounded, and the division by 100 is floating point. `Decimal.Value` is exact, so the model does not capture that rounding.
- UploadServer.StemServer.HandleUpload: a job runs atomically. A browser opening or closing its SSE stream while the handler waits at an `await` is expressed only by calling the step methods (`Broadcast`, `ConsumeStderr`, `OnClose`) and `OpenProgressStream`/`CloseProgressStream` in sequence, not by `HandleUpload` or `RunJob` themselves.
- `path.join` normalisation: a join is modelled as concatenation with `/`. A file name containing `/` and a `tmpdir` with a trailing slash are not normalised.
- UploadServer.StemServer.RunJob: a setup failure is all-or-nothing. A temporary directory created before a later setup step throws is not modelled, and neither is an `unlink` that fails.
- UploadServer.StemServer.CollectStem: `copyFile` is assumed to succeed when the stem file exists. The catch for a failed copy is not modelled.
- UploadServer.StemServer.OnClose: the `mkdir` of the public stems directory, which runs once before the loop over the stems, is assumed to succeed and is not modelled as a step. The exit code is an integer. A `null` code (killed by a signal) falls under the non-zero branch, as `code !== 0` does. The process `error` event is not modelled.
- ProgressBus.ProgressEmitter.Emit: listener exceptions and Node's per-emit copy of the listener array are not modelled, because the listeners never change during an emit here.
