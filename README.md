# OurSky examples: frame reader, status poller, search planner and OSR pager in Dafny

This project models the logic in five example programs of the OurSky client
repository and proves properties about it.

- **stream-frames.cpp** (sensor package). Queries the connected cameras and
  picks one: the first whose id contains "QHY", otherwise the first. It
  starts continuous capture and asks for frames to be streamed. It then
  reads length-prefixed ImageResult FlatBuffers from a TCP connection until
  a read comes up short. Each frame is checked for the "OSSP" file
  identifier, then verified, then read for its metadata.
- **capture-single-image.cpp**. Runs the same camera choice and the same
  identifier, verifier and metadata chain once, on the body of a
  capture-image reply. Each outcome maps to an exit status.
- **client.cpp** (low-level SDK). `StreamObservatoryStatus` opens a
  server-streaming gRPC call on a completion queue. It reads status messages
  with a 2-second wait per read, cancels the call on a timeout, then
  finishes the call and shuts the queue down.
- **schedule_search_instructions.py**. Turns a search type (flyingv, raster,
  spiral, concentric, movealongtrack, stayontarget, onestep) into 10-second
  steps 20 s apart inside a window of at most 4 min 59 s. Also covered: the
  offset-fraction table by orbit type and TLE age, the staleness clamp, and
  the potential-window filter.
- **get_osrs.py**. Pages through a target's observation sequence results
  (OSRs) with an `after` cursor, keeps those created at or after
  `from_time`, and writes each to `osrs/{norad_id}_{created_at}.json`.

Modules:

- `Wrappers`: Option and Result.
- `SensorPackage`: bytes, HTTP replies, the camera list and the camera
  choice.
- `ImageResultFormat`: the identifier, verification and metadata
  classification shared by both sensor-package programs.
- `StreamFrames`: the socket as a class over a byte stream, the frame loop,
  and `main`.
- `CaptureSingleImage`: `main` of capture-single-image.cpp.
- `ObservatoryStatusStream`: the gRPC poller.
- `SearchInstructions`: the step generator and its helpers.
- `GetOsrs`: pagination and output.

Modelling choices:

- **FlatBuffers verification and root access.** The generated verifier and
  root accessor are not visible code. Together they are a function
  parameter `parse: seq<byte> -> Option<ImageResult>`, where None means the
  buffer does not verify.
- **Byte order.** The host is taken to be little-endian. The 4 length bytes
  that `readData` stores into a `uint32_t` are decoded least significant
  byte first.
- **Completion queue.** The queue is the finite list of results it hands
  back. The poller returns the calls it makes, in order, as a log.
- **Times in the Python scripts.** Times are whole microseconds. A step's
  rendered start and end keep whole milliseconds, as
  `strftime(...)[:-4] + 'Z'` does.
- **Offsets.** The along/cross offset is an exact `real`.

Two behaviours of the code are easy to misread, and the model states them:

- **Where the identifier sits.** stream-frames.cpp:239 calls
  `BufferHasIdentifier` with `size_prefixed = true`. That skips the 4-byte
  size prefix *and* the 4-byte root offset, so the identifier is read at
  bytes 8..11 of the buffer. An 8-byte body that starts with "OSSP" but does
  not also carry "OSSP" in its bytes 4..7 is therefore a wrong identifier,
  not a corrupt buffer (`StreamFrames.IdentifierFollowsRootOffset`).
- **A failed stream open.** When the first `Next` does not report the open
  call (client.cpp:45-49), `StreamObservatoryStatus` returns at once, with
  no Finish and no queue Shutdown (`ObservatoryStatusStream.SessionShape`).

## Model

| member | source | states |
|---|---|---|
| SensorPackage.Contains | cpp-sensorpackage/stream-frames.cpp:133 | true exactly when the pattern occurs at some index of the id (`find != npos`) |
| SensorPackage.PreferredOrIsFirstPreferred | cpp-sensorpackage/stream-frames.cpp:129-138 | the choice is the id of the first object entry containing "QHY"; the fallback is chosen only when no entry qualifies |
| SensorPackage.ChooseCamera | cpp-sensorpackage/stream-frames.cpp:129-138 | reading the first element's id (`front().value`, before the loop) throws (FrontNotAnObject) exactly when that element is not an object; otherwise it returns the first preferred id, or the first entry's id when there is none |
| ImageResultFormat.IdentifierAsWritten | cpp-sensorpackage/stream-frames.cpp:239 | on a buffer of at least 12 bytes: true exactly when bytes 8..11 spell "OSSP" |
| ImageResultFormat.Classify | cpp-sensorpackage/stream-frames.cpp:238-262 | WrongId iff the identifier is missing; Corrupt iff it is present and verification fails; NoMetadata iff the buffer verifies but has no metadata table; Ok carries the metadata's width, height and optional image_id |
| ImageResultFormat.IdentifierPrecedesVerification | cpp-sensorpackage/stream-frames.cpp:239-249 | a buffer without the identifier is classified WrongId whatever the verifier would say |
| StreamFrames.DecodeEncode | cpp-sensorpackage/stream-frames.cpp:225-229 | writing a length as 4 little-endian bytes and reading them back gives the length |
| StreamFrames.EncodeDecode | cpp-sensorpackage/stream-frames.cpp:214-229 | the 4 prefix bytes rebuilt from the length read are the wire bytes, so the decoder sees exactly the bytes sent |
| StreamFrames.StepAt | cpp-sensorpackage/stream-frames.cpp:213-258 | a short prefix ends the loop; a rejected length (0 or above 128 MiB) advances exactly 4 bytes; an accepted length ends the loop iff the body is short, and otherwise advances exactly 4 + n bytes and classifies the 4 + n wire bytes |
| StreamFrames.TraceEndsAtShortRead | cpp-sensorpackage/stream-frames.cpp:213-234 | the events account for every byte consumed, never past the stream's end, and the loop stops only where the next read is short |
| StreamFrames.ShortFrameIsWrongId | cpp-sensorpackage/stream-frames.cpp:219-241 | with the length-checked identifier test, an accepted frame of 1..7 bytes is skipped as WrongId and consumes 4 + n bytes |
| StreamFrames.ShortFrameReachesIdentifierRead | cpp-sensorpackage/stream-frames.cpp:219-239 | the stream 01 00 00 00 2A is accepted with length 1 and yields a 5-byte buffer, shorter than the 12 bytes the identifier read needs |
| StreamFrames.IdentifierFollowsRootOffset | cpp-sensorpackage/stream-frames.cpp:239-242 | an 8-byte body that starts with "OSSP" but lacks it at bytes 8..11 of the buffer is skipped as WrongId, and the next length is read from byte 12 |
| StreamFrames.FrameSocket.ReadData | cpp-sensorpackage/stream-frames.cpp:82-90 | succeeds iff n bytes remain; on success it copies exactly the next n stream bytes into the buffer and advances n; on failure the stream is used up; the buffer past offset + n is never touched |
| StreamFrames.FrameSocket.Close | cpp-sensorpackage/stream-frames.cpp:269-271 | the socket is closed |
| StreamFrames.ReadLength | cpp-sensorpackage/stream-frames.cpp:214-218 | succeeds iff 4 bytes remain, then yields their little-endian value and advances 4 |
| StreamFrames.ReadPayload | cpp-sensorpackage/stream-frames.cpp:225-234 | succeeds iff n body bytes remain; the payload is then the 4 prefix bytes plus the body, exactly as on the wire |
| StreamFrames.ReadFrame | cpp-sensorpackage/stream-frames.cpp:214-258 | one loop iteration takes exactly the step StepAt takes, and the socket ends where that step says |
| StreamFrames.FrameLoop | cpp-sensorpackage/stream-frames.cpp:211-267 | the events logged are the stream's trace from the start position; the stream is read to its end; frameIndex counts the frames that passed identifier, verification and metadata |
| StreamFrames.StreamFramesMain | cpp-sensorpackage/stream-frames.cpp:99-273 | the program terminates abnormally exactly when the first camera is not an object; a failed camera query, an empty camera list, an empty chosen id, a failed or unsuccessful capture start, or a failed stream start exits with failure, before any socket read and leaving the socket's position and open state as they were; otherwise the frame loop runs over the whole stream, the socket is closed and the exit is success |
| CaptureSingleImage.ExitOf | cpp-sensorpackage/capture-single-image.cpp:88-185 | success exactly for "metadata not present" and a full capture; abnormal termination exactly for a non-object first camera and a null image_id; failure otherwise |
| CaptureSingleImage.CaptureImage | cpp-sensorpackage/capture-single-image.cpp:88-185 | each check ends the program in order: camera query, camera list, first element, empty id, capture reply, then identifier before verification before metadata; a missing image_id is dereferenced |
| ObservatoryStatusStream.StreamObservatoryStatus | cpp-lowlevelsdk/client.cpp:27-83 | the calls made are SessionActions of the inputs: start with the 30 s deadline, wait; if open, loop, then Finish, Next, queue Shutdown. `timeoutMilliseconds` is unused |
| ObservatoryStatusStream.ReadLoop | cpp-lowlevelsdk/client.cpp:52-71 | the loop's calls are LoopActions of the AsyncNext results: each result costs a Read(2) and a 2 s AsyncNext; TIMEOUT adds TryCancel and stops, SHUTDOWN or a not-ok event stops, an ok tag-2 event adds a callback with the message read |
| ObservatoryStatusStream.FirstEnd | cpp-lowlevelsdk/client.cpp:57-65 | the index of the first TIMEOUT, SHUTDOWN or not-ok result, every earlier result being an ok event |
| ObservatoryStatusStream.CallbacksAreDeliveredReads | cpp-lowlevelsdk/client.cpp:63-70 | the callback receives exactly the messages of the ok tag-2 events before the loop ends, in arrival order; other tags call nothing |
| ObservatoryStatusStream.OneWaitPerResultConsumed | cpp-lowlevelsdk/client.cpp:52-65 | the loop makes one AsyncNext per result up to and including the one that ends it |
| ObservatoryStatusStream.EveryWaitFollowsARead | cpp-lowlevelsdk/client.cpp:53-55 | every AsyncNext has the 2 s deadline and directly follows a Read with tag 2 |
| ObservatoryStatusStream.CancelOnlyLast | cpp-lowlevelsdk/client.cpp:57-61 | TryCancel is at most the loop's last call: no Read follows a cancel |
| ObservatoryStatusStream.CancelOnlyOnTimeout | cpp-lowlevelsdk/client.cpp:57-65 | TryCancel is called iff the result that ends the loop is TIMEOUT; SHUTDOWN and not-ok end it without a cancel |
| ObservatoryStatusStream.LoopMakesOnlyLoopCalls | cpp-lowlevelsdk/client.cpp:52-71 | the loop itself only reads, waits, cancels and calls back |
| ObservatoryStatusStream.SessionShape | cpp-lowlevelsdk/client.cpp:31-82 | the call is started once with the interval unchanged and a 30 s deadline; a failed or mistagged open ends after the first Next, with no Read, Finish or Shutdown; an opened one ends with exactly one Finish(3), Next, queue Shutdown |
| SearchInstructions.Millis | python-schedule-search-instructions/schedule_search_instructions.py:115-116 | the rendered time is the time truncated to whole milliseconds |
| SearchInstructions.ObservationEnd | python-schedule-search-instructions/schedule_search_instructions.py:98-103 | the observation ends at the window start plus 4 min 59 s, or at the window end if earlier |
| SearchInstructions.SlotsThatFit | python-schedule-search-instructions/schedule_search_instructions.py:105-109 | slot k (start + 20 s·k, lasting 10 s) ends in time exactly for k below the result |
| SearchInstructions.ScheduleFollowsPattern | python-schedule-search-instructions/schedule_search_instructions.py:105-156 | the steps are a prefix of the pattern: multipliers times the offset, radial 0, none ending after the observation end; the pattern is cut short only where the next slot does not fit |
| SearchInstructions.StepsTwentySecondsApart | python-schedule-search-instructions/schedule_search_instructions.py:94-118 | every step lasts 10 s and consecutive steps start 20 s apart |
| SearchInstructions.ParseSearchType | python-schedule-search-instructions/schedule_search_instructions.py:121-159 | a name is accepted exactly when it is one of the seven search types' names |
| SearchInstructions.NameParses | python-schedule-search-instructions/schedule_search_instructions.py:121-159 | each search type's name parses back to it |
| SearchInstructions.AlongJMagnitude | python-schedule-search-instructions/schedule_search_instructions.py:143-148 | under the intended update (see Findings), the k-th along-track multiplier has magnitude k + 1, so the multipliers grow by one per step |
| SearchInstructions.AlongJClosedForm | python-schedule-search-instructions/schedule_search_instructions.py:143-148 | under the intended update (see Findings), the k-th multiplier is k + 1 for even k and -(k + 1) for odd k (1, -2, 3, -4, ...) |
| SearchInstructions.AlongJGuard | python-schedule-search-instructions/schedule_search_instructions.py:144 | under the intended update (see Findings), the guard `abs(j) < 30` admits exactly the first 29 multipliers |
| SearchInstructions.StepCounts | python-schedule-search-instructions/schedule_search_instructions.py:121-156 | at most 15 steps, and at most 5, 20, 5, 4, 29, 14 and 1 for the seven types |
| SearchInstructions.ConcentricPattern | python-schedule-search-instructions/schedule_search_instructions.py:136-140 | concentric steps are (1,0), (0,2), (-3,0), (0,-4) |
| SearchInstructions.ZeroStepsIgnoreOffset | python-schedule-search-instructions/schedule_search_instructions.py:149-156 | zero-multiplier steps do not depend on the offset |
| SearchInstructions.StepPlanner.AddStep | python-schedule-search-instructions/schedule_search_instructions.py:105-119 | a step is added iff it ends by the observation end; then it is appended and the next start is 10 s after its end; otherwise nothing changes |
| SearchInstructions.StepPlanner.AddedNext | python-schedule-search-instructions/schedule_search_instructions.py:105-119 | adding the next pattern entry extends the planned prefix, or shows that every slot is used |
| SearchInstructions.PlanFlyingV | python-schedule-search-instructions/schedule_search_instructions.py:121-124 | the flyingv branch yields the schedule of its five offsets |
| SearchInstructions.PlanRaster | python-schedule-search-instructions/schedule_search_instructions.py:126-129 | the raster branch yields the schedule of (i, 1), (i, -1) for i = 0..9 |
| SearchInstructions.PlanSpiral | python-schedule-search-instructions/schedule_search_instructions.py:131-134 | the spiral branch yields the schedule of (i, i) for i = 1..5 |
| SearchInstructions.PlanConcentric | python-schedule-search-instructions/schedule_search_instructions.py:136-140 | the concentric branch yields the schedule of the scaled directions |
| SearchInstructions.PlanMoveAlongTrack | python-schedule-search-instructions/schedule_search_instructions.py:142-148 | with the intended update (see Findings), the movealongtrack branch yields the schedule of multipliers 1, -2, 3, ... while abs(j) < 30; the code as written is AsWrittenMoveAlongTrackSchedule |
| SearchInstructions.PlanStayOnTarget | python-schedule-search-instructions/schedule_search_instructions.py:149-154 | the stayontarget branch yields the schedule of 4 min 59 s // 20 s = 14 zero steps |
| SearchInstructions.SearchInstructionType | python-schedule-search-instructions/schedule_search_instructions.py:92-161 | an unknown search type fails with "Invalid search type"; a known one yields exactly the schedule of its pattern over the window, movealongtrack with the intended update (see Findings) |
| SearchInstructions.AsWrittenJAlternates | python-schedule-search-instructions/schedule_search_instructions.py:143-148 | as written, j alternates between 1 and -2 and always passes the guard `abs(j) < 30` |
| SearchInstructions.AsWrittenThirdStepDiffers | python-schedule-search-instructions/schedule_search_instructions.py:143-148 | as written, the third multiplier is 1 where 3 is intended |
| SearchInstructions.AsWrittenMoveAlongTrackFillsWindow | python-schedule-search-instructions/schedule_search_instructions.py:142-148 | as written, movealongtrack adds a step in every slot of the window, step k carrying the k-th as-written multiplier (1, -2, 1, ...) and cross-track 0 |
| SearchInstructions.AsWrittenScheduleDiffers | python-schedule-search-instructions/schedule_search_instructions.py:142-148 | on a window with room for 3 steps and a 1 m offset, the third step is 1 m along track as written and 3 m as intended |
| SearchInstructions.FirstFitIsFirstWithin | python-schedule-search-instructions/schedule_search_instructions.py:68 | `next(...)` finds a fraction iff some row's bound admits the age, and then it is the first such row's fraction |
| SearchInstructions.OffsetFraction | python-schedule-search-instructions/schedule_search_instructions.py:53-68 | the fraction is that of the first row of the orbit type's table whose age bound is at least the TLE age |
| SearchInstructions.UnknownOrbitUsesLeo | python-schedule-search-instructions/schedule_search_instructions.py:68 | a missing or unknown orbit type uses the LEO table |
| SearchInstructions.TablesAscending | python-schedule-search-instructions/schedule_search_instructions.py:54-58 | in every table the age bounds and the fractions strictly increase down the rows, and only the last row is unbounded |
| SearchInstructions.OffsetFractionMonotone | python-schedule-search-instructions/schedule_search_instructions.py:54-68 | an older TLE never gets a smaller fraction |
| SearchInstructions.StalenessDays | python-schedule-search-instructions/schedule_search_instructions.py:33 | staleness lies in [0, 5] days, equals the age in days inside that range, 0 for a non-positive difference, 5 from 5 days on |
| SearchInstructions.StalenessMonotone | python-schedule-search-instructions/schedule_search_instructions.py:33 | a larger time difference never gives a smaller staleness |
| SearchInstructions.Tail | python-schedule-search-instructions/schedule_search_instructions.py:45 | `s[-n:]` is the last min(n, len(s)) characters of s |
| SearchInstructions.AsWrittenFilterKeepsAll | python-schedule-search-instructions/schedule_search_instructions.py:45 | as written, the filter returns every window unchanged |
| SearchInstructions.MidnightWindowKeptAsWritten | python-schedule-search-instructions/schedule_search_instructions.py:45 | a window ending at 2024-03-02T00:00:00Z is kept as written and dropped as intended |
| SearchInstructions.FilterPotentials | python-schedule-search-instructions/schedule_search_instructions.py:45 | with the intended 10-character comparison (see Findings), a window is kept iff it is in the input and its lastObservableTime does not end in T00:00:00Z |
| SearchInstructions.FilterPotentialsAppend | python-schedule-search-instructions/schedule_search_instructions.py:45 | with the intended 10-character comparison (see Findings), filtering distributes over concatenation, so kept windows keep their order |
| GetOsrs.Recent | python-poetry-sda-basic/oursky_sda/get_osrs.py:51 | an OSR is kept iff it is in the batch and was created at or after `from_time` |
| GetOsrs.RecentSingle | python-poetry-sda-basic/oursky_sda/get_osrs.py:51 | a single OSR is kept exactly when it was created at or after `from_time` |
| GetOsrs.RecentAppend | python-poetry-sda-basic/oursky_sda/get_osrs.py:51 | filtering distributes over concatenation, so with RecentSingle the kept OSRs are exactly the recent ones, each once, in batch order |
| GetOsrs.FetchOsrs | python-poetry-sda-basic/oursky_sda/get_osrs.py:46-57 | the cursors requested, the OSRs collected and the stop flag are those of Paging from no cursor |
| GetOsrs.PagingEnds | python-poetry-sda-basic/oursky_sda/get_osrs.py:47-57 | the first request has no cursor; a complete run ends on a page whose filtered size is not 5; an incomplete one used every allowed request |
| GetOsrs.PagingChainsCursors | python-poetry-sda-basic/oursky_sda/get_osrs.py:48-57 | every request but the last got a full filtered page, and the next cursor is the creation time of that page's last raw OSR |
| GetOsrs.PagingCollects | python-poetry-sda-basic/oursky_sda/get_osrs.py:50-53 | the OSRs collected are the filtered pages, concatenated in request order |
| GetOsrs.PagingKeepsOnlyRecent | python-poetry-sda-basic/oursky_sda/get_osrs.py:51-53 | every OSR collected was created at or after `from_time` |
| GetOsrs.FullPageWithOldOsrStops | python-poetry-sda-basic/oursky_sda/get_osrs.py:51-55 | a raw page of 5 that holds an older OSR ends paging after the first request |
| GetOsrs.RecentDropsOne | python-poetry-sda-basic/oursky_sda/get_osrs.py:51 | a batch with an OSR older than `from_time` filters to fewer OSRs |
| GetOsrs.JsonSerial | python-poetry-sda-basic/oursky_sda/get_osrs.py:18-23 | dates and datetimes give their ISO form; anything else is a TypeError naming its type |
| GetOsrs.OutputPathInjective | python-poetry-sda-basic/oursky_sda/get_osrs.py:62 | for one NORAD id, different rendered creation times give different file names |
| GetOsrs.FilesCoverAll | python-poetry-sda-basic/oursky_sda/get_osrs.py:60-63 | every OSR written has its file |
| GetOsrs.FilesHoldLastWrite | python-poetry-sda-basic/oursky_sda/get_osrs.py:60-63 | each file holds the last OSR written to it |
| GetOsrs.WriteOsrs | python-poetry-sda-basic/oursky_sda/get_osrs.py:60-65 | with write_to_disk every OSR is written to its file in order and nothing is printed; otherwise every OSR is printed in order and no file is written |

## Left out

- HTTP requests (`performHttpRequest`, `requests.get` and `requests.post`), TCP accept and socket options, the gRPC channel and TLS set-up, and the OurSky SDK calls. Their results are parameters; `get_satellite_info`, `schedule_observation` and the HTTP part of `get_potentials` are not modelled.
- JSON parsing. A malformed camera-list or capture body makes `nlohmann::json::parse` throw. The model starts from the parsed list, and a non-string "id" is not modelled. The capture reply's "success" member is the parameter `captureSucceeded`.
- StreamFrames.StreamFramesMain: `responseDocument.value("success", false)` (stream-frames.cpp:175) throws `type_error` when the capture reply parses to something other than an object; `captureSucceeded` returns a bool for every body, so that abnormal termination is not modelled.
- The FlatBuffers verifier and the generated accessors. They are foreign generated code, modelled as the `parse` parameter.
- All console output and logging. This includes the camera listing (stream-frames.cpp:117-126), the message printed for each frame, and the final status message in client.cpp:78-80. The final `grpc::Status` is not modelled, because it is only logged.
- StreamFrames.FrameSocket: the program blocks when fewer bytes than requested are available. A finite stream stands in for a connection that closes; a socket that stays open and silent is not modelled.
- ObservatoryStatusStream.StreamObservatoryStatus: the wall-clock deadlines are abstract. That the 30 s call deadline eventually ends the loop is a precondition. The event the final Next returns is not inspected, as in the code.
- SearchInstructions: `strptime`/`strftime` parsing and formatting become integer microseconds and milliseconds. A badly formatted time string (a ValueError) is not modelled. Floating-point rounding of the offsets and `pow(staleness, 1.5276)` in `determine_meters_off` are not modelled. The interactive `input()` prompts of `schedule_observations` (schedule_search_instructions.py:74-76) and its loop over targets and windows are not modelled.
- SearchInstructions.SearchInstructionType: steps are records, not JSON dictionaries. The integer 0 that Python emits is modelled as 0.0: the default `radial=0` of every step (schedule_search_instructions.py:105), the cross-track `0` of movealongtrack (line 145), and the offsets of stayontarget and onestep.
- GetOsrs.FetchOsrs: the loop is bounded by `maxPages` requests. The script loops until the server returns a page whose filtered size is not 5; the `complete` flag tells the two endings apart.
- GetOsrs.WriteOsrs: the file contents (`dumps` of `to_dict()`) and `to_str()` are not modelled; a file holds the OSR itself. `str(created_at)` is the parameter `render`. Creating the `osrs` directory is not modelled.
- The other programs of the repository (C#, Kotlin, the SDK sample scripts, and the low-level SDK's main.cpp) only call SDK methods and print.

## Findings

| source | as written | input that shows it | evidently intended | confidence | as-written member | corrected member |
|---|---|---|---|---|---|---|
| cpp-sensorpackage/stream-frames.cpp:219-239 | any length from 1 to 128 MiB is accepted, then `BufferHasIdentifier` reads bytes 8..11 of a buffer that can be 5 to 11 bytes long (capture-single-image.cpp:159 does the same for a short HTTP body) | the stream 01 00 00 00 2A: length 1, a 5-byte buffer | a buffer shorter than 12 bytes fails the identifier check | high (read past the end of the vector); not executed | ImageResultFormat.IdentifierAsWritten, StreamFrames.ShortFrameReachesIdentifierRead | ImageResultFormat.HasIdentifier, StreamFrames.ShortFrameIsWrongId |
| python-schedule-search-instructions/schedule_search_instructions.py:143-148 | `j += 1; j *= -1` maps 1 to -2 and -2 back to 1, so the multipliers are 1, -2, 1, -2, ... and `abs(j) < 30` never fails | movealongtrack with a 1 m offset over a window with room for 3 steps: the third step is 1 m along track (multiplier 1), not 3 m | multipliers 1, -2, 3, -4, ... while abs(j) < 30 | medium; not executed | SearchInstructions.AsWrittenMoveAlongTrackSchedule, SearchInstructions.AsWrittenScheduleDiffers | SearchInstructions.AlongJClosedForm, SearchInstructions.PlanMoveAlongTrack |
| python-schedule-search-instructions/schedule_search_instructions.py:45 | `item['lastObservableTime'][-9:]` has at most 9 characters and is compared with the 10-character 'T00:00:00Z', so no window is ever dropped | a window whose lastObservableTime is 2024-03-02T00:00:00Z | compare the last 10 characters, dropping windows that end at midnight | high; not executed | SearchInstructions.AsWrittenFilterKeepsAll, SearchInstructions.MidnightWindowKeptAsWritten | SearchInstructions.FilterPotentials |
