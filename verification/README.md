# A verified model of the apptail tracker, the sieve pipeline and the stream wrapper

The project models three parts of logyard-apps and proves properties of them.

**The offset tracker and the tailing protocol.** apptail tails the log files of
containers, publishes their lines, and keeps a file with the offset reached in each
file, so that a restart resumes where it stopped. The service is modelled as steps of
many goroutines: tailers, the commit timer, goroutines that wait for a container to
stop, the clean-up at start, and a process that may die between any two steps.
`Store` is the tracker and its state file (memory is explicit: cache, nodes, boxes, the
mutex and what its holder is doing, images on their way to the file). `Apptail` puts the
tailers, the log files and the docker listener around it. `TailTracker`,
`DockerListener` and `StartGuard` hold the same code as objects with mutable fields; the
objects and the step system are both related to the functions of `TrackerSpec`.

**The sieve pipeline.** A log line is searched for the substrings of a group of events;
the owner of the leftmost one has its regular expression tried; its groups are rendered
through a format. `Literals` is the search and the regular expression that asks for it,
`Matcher` the matcher object, `Templates` the formats, `Sieve` handlers and parser.

**The seekable wrapper.** `Seeker` has the buffer operations and the loops of Drain and
Seek; `SeekerProtocol` lets Drain, Seek and any number of Reads run at once.

On top of `Apptail`, `AppLoss` bounds what is lost per resumption and `AppCrashes` per
crash, `AppReading` says which lines a tailer publishes, `AppEntries` how long the tracker
keeps an entry, `AppLifecycle` why containers leave it, and `AppWitness` has runs that
show where these results end.

`LogFiles` is the parsing of `$STACKATO_LOG_FILES` and the read limit, `FileLogs` the
bookkeeping of published and missing lines.

## What is assumed

- One step of a model is one access to shared memory, one critical section that no
  lock-free code can look into, or one operation on a `bytes.Buffer`. A `bytes.Buffer`
  operation is taken to be atomic although Drain and Seek call it without the lock, and
  so are single map accesses (the Go runtime may instead end the process on a racy map
  access, which is the step `Die`).
- `Tell` answers with the beginning of a line at most `ahead` lines after the line just
  received, or fails. The tail library skips and splits nothing. Log files are only
  appended to, in whole lines.
- No docker stream of a container has the path of another of its log files (a stream's
  offsets would be stored in that file's box).
- Decoding an encoded image gives that image back. A state file in the middle of being
  written cannot be decoded, and leaves the cache as it was.
- Regular expressions of events, whether they compile, JSON decoding and templates of JSON
  handlers are parameters. Of text/template, literal text and `{{index . n}}` are modelled,
  with the octal reading of numbers with a leading zero; whether templates with other
  actions parse, and what they render, are parameters. Go versions differ on digits that are
  no 64-bit integer, because they have a leading zero and are not octal or because they are
  too large: those whose text/template refuses an integer it can read only as a
  floating-point number are `Strict`, earlier ones `Lenient`. The results on formats are
  about both.
- A regular expression that is an alternation of literals finds the leftmost match, and
  there the first alternative, as the documentation of Go's package regexp says.
- Integers are unbounded, except where the width decides something: `Seek` has the
  64-bit `MaxInt` and `int64` offsets, and text/template reads numbers below 2^64.

## What the code does that one might not expect

- `GetFileCachedOffset` dereferences nil when the container is known but the file is not
  (`TailTracker.Tracker.GetFileCachedOffset`), and a removal and new registration between
  the two calls of `tailFile` reach that (`AppWitness.NilPanicReachable`), and nothing else
  does (`AppEntries.NilPanicExactly`).
- The bound on lost lines per resumption holds for any number of tailers of a file. The
  bound per crash needs one tailer per file and process: with two, one that quits after
  storing an offset ahead of its line lets the other resume past lines never published,
  with no crash at all (`AppWitness.LossWithoutCrash`).
- A file within `read_limit` still loses its beginning if it grows between the stat and
  the opening of the file (`AppWitness.GrowthIsSkipped`).
- A removed container can come back after a restart if a commit that was under way
  during the removal is written last (`StoreRemoval.LateCommitRevives`).
- A second waiter for a container that has one waits for ever
  (`AppLifecycle.RefusedWaitsForever`, `AppWitness.RefusedReachable`).
- Drain ends without a broadcast when the source fails, so a last chunk that comes with
  the error can leave a Read waiting beside it (`SeekerProtocol.LastChunkStrands`).
- `$10` written as `$010` names group 8, and `$08` ends the process where text/template is
  `Strict`; `$07` means the same as `$7` (`Templates.IndexRead`).
- A Seek between the end of a Read's wait and its look into the buffer makes that Read
  answer io.EOF although the stream goes on (`SeekerProtocol.EofReachable`); this happens
  exactly when the Seek empties the buffer and Drain writes nothing before the look
  (`SeekerProtocol.EofExactly`).
- The JSON handler reads `results[1]` after checking only that `results[0]` is there, so
  a regular expression without a group makes it panic; an unknown handler type leaves a
  nil handler, which panics when used. Nothing else panics in handling
  (`Sieve.VerdictPanicsIff`).
- `$STACKATO_LOG_FILES` set to the empty string, or with an entry without `=` among the
  last seven, ends the process (`LogFiles.EmptyVariablePanics`).
- An id shorter than 12 characters panics in the slice expression; the length test after
  it never fails.

## Steps and source

| step | source |
|---|---|
| Store: LoadBegin, LoadKey, LoadChild, LoadEnd | apptail/storage/tail_tracker.go:170-175, apptail/storage/gob_handler.go:61-85 |
| Store: Register | apptail/storage/tail_tracker.go:75-84 |
| Store: InitChild | apptail/storage/tail_tracker.go:107-118 |
| Store: StoreBox | apptail/storage/tail_tracker.go:133 |
| Store: Delete | apptail/storage/tail_tracker.go:161-163 |
| Store: CleanBegin, CleanDelete, CleanEnd | apptail/storage/tail_tracker.go:138-155 |
| Store: EncodeBegin, EncodeBox, EncodeEnd | apptail/storage/tail_tracker.go:177-182 |
| Store: WriteBegin, WriteEnd | apptail/storage/tail_tracker.go:195, apptail/storage/gob_handler.go:45-59 |
| Apptail: TailCall, Spawn | apptail/instance.go:51-74 |
| Apptail: CheckEntry, ReadEntry, NilPanic, OpenAt | apptail/instance.go:98-123 |
| Apptail: Stat, OpenEnd, OpenFails, InitEntry | apptail/instance.go:101-134, apptail/instance.go:294-320 |
| Apptail: Receive, Tell, TellFails, Publish, Quit | apptail/instance.go:193-214 |
| Apptail: FindNode, FindChild, StoreOffset | apptail/storage/tail_tracker.go:130-136 |
| Apptail: Block, AddWaiter, Wake, RemoveKey | apptail/docker/listener.go:27-55, apptail/instance.go:76-81 |
| Apptail: DockerEvent | apptail/docker/listener.go:57-75 |
| StartGuard: ReadCounter, WriteCounter, Check, TailReturns, DeleteEntry | apptail/cmd/apptail/main.go:61-71, apptail/cmd/apptail/main.go:87-110 |
| SeekerProtocol: SourceDelivers, BufferWrite, AfterWrite, DrainLock, Broadcast, DrainUnlock | apptail/util/seeker.go:33-58 |
| SeekerProtocol: CallRead, ReaderLock, Check, Wait, Take, NotifyRest, ReaderUnlock | apptail/util/seeker.go:60-71 |
| SeekerProtocol: SeekReset, SeekMeasure, SeekDiscard | apptail/util/seeker.go:73-94 |

## Model

| member | source | states |
|---|---|---|
| AppLoss.BoundedLoss | apptail/instance.go:193-214 | In every run, with any number of crashes, tailers per file and overlapping commits, and with failing Tells, every line before the point reached was published, or passed over by one of the resumptions (at most ahead + 1 consecutive lines each, at most one such gap per resumption), or skipped by a start near the end of the file; leaving out the skipped lines, the number of missing lines is at most resumptions times (ahead + 1) |
| AppCrashes.LossPerCrash | apptail/instance.go:193-214 | With at most one tailer of the file per process, and at every restart an entry for the file in the loaded state file: each crash opens at most one gap of at most ahead + 1 consecutive lines, only the very first start can skip lines, and the missing lines are otherwise at most crashes times (ahead + 1); all of them, if the first start opens the file as it was at stat and within read_limit |
| AppCrashes.LossPerResumption | apptail/instance.go:98-106 | With any number of tailers, if every start without an entry opens the file as it was at stat and within read_limit, at most resumptions times (ahead + 1) lines are missing |
| AppCrashes.RepeatsPerCrash | apptail/instance.go:193-214 | With at most one tailer of the file per process, no line is published more often than once per process: at most crashes + 1 times |
| AppEntries.LoadedIsFound | apptail/instance.go:98-100 | If the state file has an entry for the file when it is loaded, a tailer of the file finds it, unless the container was deleted in between |
| AppEntries.EntryStays | apptail/storage/tail_tracker.go:107-118 | An entry stays in the tracker until its container is deleted or the process ends |
| AppEntries.NilPanicExactly | apptail/storage/tail_tracker.go:120-128 | A tailer that found an entry dereferences nil when it reads it if and only if the container was deleted and registered again in between, and nobody has entered the file since |
| AppReading.ResumesAtOffset | apptail/instance.go:98-119 | A tailer that reads its saved offset and opens the file publishes from then on exactly the lines from the one that begins at that offset, each once and in order, and receives the next one after those; the offset is the one the tracker has when it is read |
| AppReading.StartsNearEnd | apptail/instance.go:101-134 | A tailer without an entry publishes exactly the lines from the first whole one within the last bytes of the file as it is when opened, as many as the size found at stat or read_limit, whichever is less |
| AppReading.FailedOpenIsSilent | apptail/instance.go:121-132 | A tailer whose file cannot be opened ends once it has entered it, and publishes nothing |
| AppReading.StoresAnswer | apptail/instance.go:203-208 | What an Update puts into the tracker is what Tell answered for the line just received, 0 if it failed, for that container and file only |
| AppReading.QuitEnds | apptail/instance.go:210-213 | A tailer that has quit publishes nothing more |
| AppLoss.NoTailerAhead | apptail/instance.go:193-214 | No tailer in its loop is past the point up to which all lines are accounted for |
| AppLoss.StateFileSafe | apptail/storage/tail_tracker.go:184-200 | At every moment of every run the offset the state file has for a file is the beginning of a line at most ahead + 1 after the point reached |
| AppLoss.ResumeEnabled | apptail/instance.go:98-100 | A saved offset is always the beginning of a line of the file, so a resumption can proceed |
| AppLoss.UpdateFindsItsBox | apptail/storage/tail_tracker.go:130-136 | In no interleaving does Update miss, on its second lookup, the box it saw on its first |
| AppLoss.FirstStartLossless | apptail/instance.go:101-106 | The very first start on a file passes over nothing if and only if the limit computed at stat is still the file's size when it is opened |
| AppLoss.OffsetsGood | apptail/storage/tail_tracker.go:130-136 | Every step keeps every offset in a box (orphaned ones too), a half-made image, an unwritten image and the state file safe to resume from |
| AppLoss.LossStep | apptail/instance.go:89-137 | Every step of the system keeps the invariant behind the loss bound |
| AppWitness.LossIsTight | apptail/instance.go:203-209 | The bound per crash is reached: for every non-empty file there is a run with exactly one crash, one tailer per process and an entry found at the restart that loses all its lines, ahead being one less than their number |
| AppWitness.GrowthIsSkipped | apptail/instance.go:103-104 | A run in which a file within read_limit grows between stat and open, and its first line is skipped at this start |
| AppWitness.LossWithoutCrash | apptail/instance.go:193-214 | For every file of two or more lines a run without a crash in which two tailers of the file publish only its first line, and every other line is passed over |
| AppWitness.NilPanicReachable | apptail/storage/tail_tracker.go:120-128 | A run that reaches the nil dereference in GetFileCachedOffset |
| FileLogs.LossBound | apptail/instance.go:193-214 | When everything is accounted for, n resumptions account for at most n times (ahead + 1) of the missing lines that no start skipped |
| FileLogs.ResumedKeeps | apptail/instance.go:98-100 | Resuming at a safe offset opens at most one gap of at most ahead + 1 lines and keeps everything accounted for |
| FileLogs.PublishedKeeps | apptail/instance.go:208-209 | Publishing a line settles it and keeps everything accounted for |
| FileLogs.BeganKeeps | apptail/instance.go:103-106 | Starting near the end of the file keeps everything accounted for, the skip included |
| FileLogs.PassedOver | apptail/instance.go:98-106 | The lines a resumption or start passes over are those between the point reached and where it reads on, and no others |
| FileLogs.OffsetIsOneLine | apptail/instance.go:99-100 | A byte offset is the beginning of at most one line |
| Apptail.StoreRunOf | apptail/cmd/apptail/main.go:40-45 | What the tracker goes through in a run of the whole system is a run of the tracker, with the same first and last state |
| StoreSnapshots.WindowGivesSnapshot | apptail/storage/tail_tracker.go:177-182 | The image one getBuffer takes, with updates running meanwhile, has the shape the cache has at every moment of the encoding, and each of its offsets was in that very box at one of these moments |
| StoreSnapshots.TakenAreSnapshots | apptail/storage/tail_tracker.go:177-182 | Every image ever taken in a run is such a snapshot of an earlier stretch of the run |
| StoreSnapshots.DiskIsSnapshot | apptail/storage/tail_tracker.go:184-200 | Over any run with crashes, the state file holds what it held at first or a snapshot taken earlier, whenever it is readable |
| StoreSnapshots.OffsetsStep | apptail/storage/tail_tracker.go:184-200 | No step but Update and InitializeChildNode brings a new offset for a container and file into a box, an image or the state file |
| StoreSnapshots.CleanUpKeepsLive | apptail/storage/tail_tracker.go:138-155 | A clean-up, with updates running meanwhile, ends with exactly the live containers in the cache, each with its node and boxes as they were |
| StoreCommits.CommitLands | apptail/storage/tail_tracker.go:184-200 | When a commit has finished writing, whatever else ran in between, the state file has the very image that this commit took, and the commit writes nothing any more |
| StoreCommits.TornWriteLosesAll | apptail/storage/gob_handler.go:45-85 | If the process dies in the middle of a write, the next one starts with an empty cache |
| StoreRemoval.RemovedStaysRemoved | apptail/storage/tail_tracker.go:157-168 | Once a container is in neither cache, images on their way nor state file, no step but a new registration brings it back, not even a crash and restart |
| StoreRemoval.RemovalTakesEffect | apptail/storage/tail_tracker.go:157-168 | After a removal the container is gone from everywhere if and only if no image taken before the deletion that has it is still on its way or was written last |
| StoreRemoval.RemoveWithoutOverlap | apptail/storage/tail_tracker.go:157-168 | If no commit is under way at the deletion, the container is gone for good as soon as a later commit, such as Remove's own, is written |
| StoreRemoval.LateCommitRevives | apptail/storage/tail_tracker.go:184-200 | A run in which a commit overlapping Remove puts the removed container back, and a restart loads it |
| StoreHeap.BoxIsolation | apptail/storage/tail_tracker.go:107-118 | In every run distinct pairs of container and file in the cache have distinct boxes |
| StoreHeap.NodeKeptRun | apptail/storage/tail_tracker.go:107-136 | A file once in a node stays there with the same box for the rest of the run |
| StoreHeap.StaleUpdate | apptail/storage/tail_tracker.go:130-136 | An Update whose container lookup preceded a removal (and any new registration) changes nothing in the cache, whatever it stores |
| StoreHeap.ViewOfUpdate | apptail/storage/tail_tracker.go:130-136 | Storing through the cached node sets exactly the offset of that container and file in the plain contents |
| StoreHeap.ViewOfInit | apptail/storage/tail_tracker.go:107-118 | Creating a box adds exactly that file with its offset, if the container is known and the file is not |
| StoreHeap.ViewOfRegister | apptail/storage/tail_tracker.go:75-84 | Registering adds an empty entry for an unknown container and changes nothing for a known one |
| StoreHeap.ViewOfDelete | apptail/storage/tail_tracker.go:161-163 | Deleting removes exactly that container from the plain contents |
| StoreHeap.LoadRestores | apptail/storage/tail_tracker.go:170-175 | Whatever the order of decoding, loading ends with the cache equal to what the state file holds, and empty if it cannot be decoded |
| AppLifecycle.WhyRemoved | apptail/docker/listener.go:57-84 | A container leaves the cache only with the process, by a deletion of the clean-up then in progress, which found it missing from the non-empty live set, or by the removal of a call that waited for this container, after a die or kill event for its id was handled later than the call's waiter was entered |
| AppLifecycle.ClosedExactly | apptail/docker/listener.go:27-75 | In every run the channel of a call is closed if and only if in this process a step handled a die or kill event for its container after the step that entered its waiter |
| AppLifecycle.ChannelsClosedOnce | apptail/docker/listener.go:68-73 | No channel is closed twice in a process, and the channels in the waiter map are distinct and open |
| AppLifecycle.RemovesOnce | apptail/instance.go:76-81 | The goroutine that waits for a container removes it at most once |
| AppLifecycle.RefusedWaitsForever | apptail/docker/listener.go:37-54 | A waiter that found another one for its container is never woken while the process lives |
| AppWitness.RefusedReachable | apptail/docker/listener.go:37-50 | A run in which a call finds a waiter for its container and is refused |
| StartGuard.AtMostOneTail | apptail/cmd/apptail/main.go:61-71 | In every interleaving of callbacks, whatever the race on the counter does, at most one call of Tail per container is in progress |
| StartGuard.AdmittedExactly | apptail/cmd/apptail/main.go:87-102 | A callback may call Tail if and only if no call for its container is in Tail or back from it with its entry still to delete |
| StartGuard.DeletedByItsMaker | apptail/cmd/apptail/main.go:104-110 | A started-instance entry disappears only by the deletion of the call that made it, and is there when that call deletes it |
| StartGuard.StartedInstance.CheckInstanceAndUpdate | apptail/cmd/apptail/main.go:87-102 | Enters the id and answers true exactly when it was not there |
| StartGuard.StartedInstance.Delete | apptail/cmd/apptail/main.go:104-110 | Removes exactly the entry of the id |
| TailTracker.Tracker.RegisterInstance | apptail/storage/tail_tracker.go:75-84 | Adds an unknown container without files, leaves a known one and all other entries as they are |
| TailTracker.Tracker.InitializeChildNode | apptail/storage/tail_tracker.go:107-118 | Adds the file with its offset only to a known container that does not have it |
| TailTracker.Tracker.IsInstanceRegistered | apptail/storage/tail_tracker.go:87-93 | Answers whether the container is known, with files or without |
| TailTracker.Tracker.IsChildNodeInitialized | apptail/storage/tail_tracker.go:95-105 | Answers whether container and file are both known |
| TailTracker.Tracker.GetFileCachedOffset | apptail/storage/tail_tracker.go:120-128 | The offset, 0 for an unknown container, a nil dereference for an unknown file of a known one |
| TailTracker.Tracker.Update | apptail/storage/tail_tracker.go:130-136 | Sets the one offset, and nothing for an unknown container or file |
| TailTracker.Tracker.CleanUp | apptail/storage/tail_tracker.go:138-155 | Leaves exactly the containers that are valid, with the same boxes |
| TailTracker.Tracker.Remove | apptail/storage/tail_tracker.go:157-168 | Removes the container; the state file is the contents without it, or what the failed write left |
| TailTracker.Tracker.Commit | apptail/storage/tail_tracker.go:184-200 | Writes the cache's contents; the state file is the image or what the failed write left |
| TailTracker.Tracker.LoadTailers | apptail/storage/tail_tracker.go:170-175 | Adds what the state file holds to the cache, or nothing if it is missing or unreadable, with no box shared |
| TailTracker.FileStorage.Write | apptail/storage/gob_handler.go:45-59 | Succeeds exactly when both writing and chmod do; the file has the new image unless writing failed |
| TailTracker.FileStorage.Load | apptail/storage/gob_handler.go:61-85 | Gives the content; a missing file becomes an empty one |
| TailTracker.GetInvalidInstances | apptail/storage/tail_tracker.go:218-227 | Exactly the ids of the first set that are not in the second |
| TailTracker.CommitAndRestart | apptail/cmd/apptail/main.go:40-42 | After a successful commit a fresh tracker loads exactly the contents of the old one |
| TailTracker.ReadFromTail | apptail/instance.go:193-214 | Publishes exactly the lines before the loop ends, in order, and leaves the box with the offset of the last of them, 0 if its Tell failed |
| DockerListener.Listener.AddWaiter | apptail/docker/listener.go:27-50 | Enters a fresh open channel exactly for a container without a waiter; a short id panics |
| DockerListener.Listener.Listen | apptail/docker/listener.go:57-75 | Closes and removes exactly the waiters whose container had a die or kill event, each once, up to the first short id |
| DockerListener.Listener.TrackerCleanUp | apptail/docker/listener.go:77-84 | Cleans the tracker up to the live containers, unless none is reported |
| LogFiles.ParsePrinted | apptail/instance.go:237-247 | Parsing a printed list of name and path pairs maps exactly the names of its last seven pairs, each to the path of the last pair of that name, with the warning exactly when there are more than seven |
| LogFiles.ParseLogFiles | apptail/instance.go:237-247 | Succeeds exactly when each of the last seven entries has an equals sign, and then gives the last-wins map of what they name |
| LogFiles.LastWinsAt | apptail/instance.go:243-246 | A name is mapped exactly when some pair has it, to the path of its last occurrence |
| LogFiles.EmptyVariablePanics | apptail/instance.go:238-245 | The empty value has one entry without an equals sign |
| LogFiles.GetReadLimit | apptail/instance.go:294-320 | The file's size or the configured limit, whichever is less; the limit without a file name; an error if stat fails |
| Strings.SplitJoin | apptail/instance.go:238 | Splitting at a character undoes joining with it |
| Literals.FoundIsLeftmostFirst | sieve/match.go:49-51 | What the search finds is the leftmost occurrence of any literal and there the first literal in order |
| Literals.NotFoundNowhere | sieve/match.go:49-51 | When nothing is found, no literal occurs anywhere |
| Literals.QuotedExactly | sieve/match.go:42 | The characters that get a backslash are exactly the fourteen that mean something in a regular expression |
| Literals.QuoteConcat | sieve/match.go:42 | Quoting goes character by character |
| Literals.OrderIrrelevantIff | sieve/match.go:39-45 | All orders of the literals find the same in all texts if and only if no literal is a proper prefix of another |
| Literals.PatternRoundTrip | sieve/match.go:39-45 | Reading the pattern made by quoting and joining as an alternation gives the literals back, and the single empty literal for none |
| Literals.PatternUnique | sieve/match.go:39-45 | A pattern that reads as an alternation of literals is the one made from them |
| Matcher.MatchIsLeftmostOwner | sieve/match.go:49-66 | Match answers with groups exactly when the regular expression that owns the leftmost non-empty literal has them |
| Matcher.NameIsLeftmostOwner | sieve/match.go:49-66 | The name Match answers with, groups or not, is that of the owner of the leftmost literal, and empty if there is none |
| Matcher.MatchDeterministic | sieve/match.go:39-66 | If no substring is a prefix of another, Match gives the same name and groups for every order of building |
| Matcher.AgreesWithExhaustive | sieve/match.go:49-66 | If each regular expression needs its own non-empty substring and at most one substring occurs, Match gives exactly what trying all of them gives |
| Matcher.AgreementExact | sieve/match.go:49-66 | For a text, Match gives what trying all of them gives, for every way the regular expressions can match within their guards, if and only if every substring whose regular expression can match (all substrings that stand for it are in the text, none is empty) is the literal found; any substrings and regular expressions |
| Matcher.AgreementIffOneOccurs | sieve/match.go:49-66 | With no empty substring and pairwise distinct regular expressions, that is if and only if at most one substring is in the text |
| Matcher.SecondOccurrenceMissed | sieve/match.go:60-62 | With two substrings in the text, Match can answer nothing although a regular expression matches, in either order |
| Matcher.MultiRegexpMatcher.MustAdd | sieve/match.go:26-37 | Adds both entries and keeps substrings and names paired one to one; a duplicate ends the process with nothing added, a regular expression that does not compile after its substring was added |
| Matcher.MultiRegexpMatcher.Build | sieve/match.go:39-45 | Whatever the iteration order, the pattern is that of all substrings, each once |
| Matcher.MultiRegexpMatcher.Match | sieve/match.go:49-66 | Computes the match from the pattern; both lookups always succeed |
| Templates.TranslationExact | sieve/handler.go:67-75 | The translated format reads as the template of direct substitution if and only if the format has no double brace, no brace before an index, and each index is a 64-bit integer that has no leading zero or only zeros before its last digit, or is no such integer and text/template is lenient |
| Templates.PlainNumber | sieve/handler.go:67-75 | Digits mean the same to the format and to text/template if and only if they satisfy that condition |
| Templates.RenderingExact | sieve/handler.go:67-75 | Rendering equals direct substitution for every list of groups if and only if the format is clean in that sense |
| Templates.ExecuteOne | sieve/handler.go:25-34 | A literal is rendered as itself, an index as the whole of its group |
| Templates.ExecuteConcat | sieve/handler.go:25-34 | What two pieces of a template give one after the other is what each gives |
| Templates.ReadDecimal | sieve/handler.go:67-75 | Every number below 2^64 is read from its decimal digits, and no larger one where text/template is strict |
| Templates.ReadOctal | sieve/handler.go:67-75 | The same with a leading zero and octal digits |
| Templates.ReadNotOctal | sieve/handler.go:67-75 | Digits with a leading zero and an 8 or a 9 are refused where text/template is strict, and decimal where it is lenient |
| Templates.ExecuteSucceedsIff | sieve/handler.go:25-34 | Execution succeeds exactly when every index is in range |
| Templates.IndexRead | sieve/handler.go:67-75 | An index names the group of its value, octal with a leading zero; if it is no 64-bit integer it is refused (decimal where text/template is lenient); it keeps its meaning if and only if it is plain |
| Templates.ReadUnlessRefused | sieve/handler.go:67-75 | A template whose actions are all `{{index . n}}` is read if and only if none of its numbers is refused |
| Sieve.HandleEvent | sieve/handler.go:25-34 | A simple handler succeeds exactly when every index is in range, sets description and severity then, and leaves both alone otherwise; kind and process never change; it panics if and only if there is no handler, or a JSON handler gets exactly one group; the description is what the program, or the JSON template with the first group of the regular expression, gives |
| Sieve.ToEventParser | sieve/parser.go:24-36 | The default severity and the handler for the handler type, or a panic where the template does not parse; a simple handler has the program of the translated format, which for a clean format means what the format says, and formats with actions of their own keep them |
| Sieve.Parser.Build | sieve/parser.go:51-60 | Completes exactly when the substrings of each group are pairwise distinct and all regular expressions compile, and then has a matcher for each group and no other |
| Sieve.BuildGroup | sieve/parser.go:53-58 | Fails exactly when a substring is repeated or a regular expression does not compile, in whatever order the events are met; otherwise the matcher pairs the group's substrings and names |
| Sieve.Parser.DeleteSamples | sieve/parser.go:64-70 | Empties every sample and changes nothing that Parse depends on, whether or not the parser is built |
| Sieve.Parser.Parse | sieve/parser.go:74-94 | The result of the own group if it matches, a handler's error included, else that of the group for all, else nothing |
| Sieve.Parser.ParseStarGroup | sieve/parser.go:96-112 | The result of the group for all, if there is one and it matches |
| Sieve.ParsedExactly | sieve/parser.go:74-112 | An event of a kind with a description and severity comes of a line if and only if the kind owns the leftmost literal, its regular expression matches and its handler gives them, in the own group, or in `__all__` when the own one does not match; it names the process asked for |
| Sieve.VerdictNothingIff | sieve/parser.go:74-112 | Neither an event nor an error comes of a line if and only if neither the own group nor `__all__` has an owner of the leftmost literal whose regular expression matches |
| Sieve.VerdictFailedIff | sieve/parser.go:83-108 | An error comes of a line if and only if the kind that decides, in the same sense, has a handler that fails |
| Sieve.VerdictPanicsIff | sieve/parser.go:74-112 | Parsing a line panics if and only if the kind that decides, in the same sense, has a handler that panics on the groups |
| Sieve.VerdictDeterministic | sieve/parser.go:51-112 | If no substring of a group is a prefix of another, the result does not depend on any iteration order |
| Seeker.ReadSeekCloseWrapper.Drain | apptail/util/seeker.go:33-58 | Appends every chunk up to and including one that comes with an error, and broadcasts after each successful read that leaves bytes, never after the failed one |
| Seeker.ReadSeekCloseWrapper.Seek | apptail/util/seeker.go:73-94 | From the end and not past it only; keeps exactly the last -offset bytes; the discarding loop runs at most once |
| Seeker.ReadSeekCloseWrapper.Read | apptail/util/seeker.go:65-70 | Takes as many bytes as asked for and there are from the front; io.EOF exactly when the buffer is empty and bytes are asked for; a broadcast exactly when bytes are left |
| SeekerProtocol.NoLostWakeup | apptail/util/seeker.go:33-71 | In every interleaving, whenever a Read waits or is about to although there are bytes, Drain still owes its broadcast, unless the source failed on a read that delivered bytes |
| SeekerProtocol.OwedCanMove | apptail/util/seeker.go:51-70 | While a broadcast is owed, Drain or the Read that has the lock can take a step |
| SeekerProtocol.OwedIsPaid | apptail/util/seeker.go:51-70 | From every moment at which a broadcast is owed (right after the buffer write: if the read did not fail and the buffer is not empty), at most seven steps of Drain and of the Read that has the lock make the broadcast, and then no Read waits or is about to |
| SeekerProtocol.DeliveredExplained | apptail/util/seeker.go:60-71 | In every run each delivery was made by one Read from the front of the buffer: as many bytes as that Read was called with, or all there were |
| SeekerProtocol.RestIsNotified | apptail/util/seeker.go:66-68 | After a Read that leaves bytes nobody waits, and all who waited go for the lock again |
| SeekerProtocol.SeekDiscards | apptail/util/seeker.go:83-92 | A Seek discards, when it comes to it, as many bytes from the front as there were too many when it looked, or all there are; with nothing in between it keeps exactly the last ones asked for |
| SeekerProtocol.EofExactly | apptail/util/seeker.go:60-94 | A Read that ended its wait with bytes in the buffer finds it empty if and only if a Seek emptied it in between and Drain wrote nothing since |
| SeekerProtocol.EofReachable | apptail/util/seeker.go:60-94 | For any chunk a run in which a Read that asks for bytes is about to get io.EOF although the source has not failed |
| SeekerProtocol.LastChunkStrands | apptail/util/seeker.go:38-50 | Any last chunk that comes with the error can leave a Read waiting with Drain gone and the chunk in the buffer |
| SeekerProtocol.StuckForEver | apptail/util/seeker.go:60-71 | From then on nobody is woken unless another Read is called |
| SeekerProtocol.BytesConserved | apptail/util/seeker.go:36-41 | In every run the bytes obtained are, in order, those each taken by one Read or discarded by one Seek, those in the buffer, and the chunk about to be written |

## Left out

- NewStackatoParser only applies ToEventParser to each entry and calls Build.
- tailStream follows tailFile without a saved offset and never creates a box; its updates change something only where another log of the container has the same path.
- The test of log paths against the instance root, symbolic links and the expansion of paths in getLogFiles.
- NATS, zmq publishing (a line published is a number added to a log), the HTTP calls to docker, timeline events, configuration.
- The commit timer is the freedom to commit at any time; errors that end the process are the step Die.
- The JSON handler beyond its index into the groups: decoding and rendering are a parameter, and the event's Info field is not part of the model.
- Actions of text/template other than `{{index . n}}` (parameters), and rounding where text/template is lenient and reads digits as a floating-point number.
- Rate limiting, splitting of long lines and the file watching of the tail library.
- The tracker object keeps the entries of a container as a value of its outer map, so the sharing of one inner map by two goroutines shows only in the step system.
- Termination and fairness: that a process makes progress is shown only as far as some step is possible.
