# Face-Recognition-Attendance, modelled in Dafny

This project models the parts of the Face-Recognition-Attendance system whose
behaviour can be stated precisely and proves what they promise:

- **Edge device** (`raspberry_pi_system/src`). The schedule monitor polls the
  room's timetable. It takes the first entry whose time window holds the
  current time. When that entry is a different schedule entry (another id), it records it and brings
  the course's face model in: download to the cache, copy into service with a
  verification load, load into memory, evict old cache files. The model
  manager keeps the two model directories. The face model keeps the network
  loaded in memory and the path it came from. The time helpers parse and format `%H:%M:%S`.
- **Training service** (`training_service/utils`). The REST client builds
  endpoint URLs from a base URL and carries a bearer token. The data loader
  filters and cleans training images and densely encodes member ids as class
  indices. It also applies the version rule of the face-model registry.
- **Dashboard**. The WebSocket JWT middleware resolves a user from a query
  token or an `Authorization: Bearer` header (section 2.1 of RFC 6750). The
  role gate decorator guards views.

One module per source file: `EdgeTime`, `EdgeFaceModel`, `EdgeModelManager`,
`EdgeScheduler`, `TrainingApi`, `TrainingData`, `JwtAuth`, `RoleGate`. Two
support modules sit beside them: `Wrappers` (Option and Result) and `Text`
(the string operations the source uses: `rstrip`, `os.path.basename`,
`split`, `replace`, string order, decimal rendering).

Objects whose fields the source updates in place are classes:
- `FaceModel`, `ModelManager`, `Scheduler`, `APIClient` and `DataLoader`;
- the ASGI `Scope`, whose `user` entry the middleware writes.

Directories are maps from file name to file. Everything outside the program is
a parameter: the network, the disk, Keras, the face preprocessor, token
validation, the user table and the clock. Each is either an outcome datatype
(`Transfer`, `LoadOutcome`, `Transport`, `Poll`, `ModelLookup`) or a function
value.

## Model

| member | source | states |
|---|---|---|
| EdgeTime.TimeInRange | raspberry_pi_system/src/utils.py:15-20 | a window with start after end runs past midnight and holds every instant outside the open gap (end, start); a zero-length window holds only its instant |
| EdgeTime.TimeInRangeIsClockwiseArc | raspberry_pi_system/src/utils.py:15-20 | reference reading: `time_in_range` holds exactly when the clockwise distance from start to current is at most that from start to end |
| EdgeTime.ClockwiseDistance | raspberry_pi_system/src/utils.py:15-20 | the forward distance on the 24-hour dial is below one day |
| EdgeTime.TwoDigits | raspberry_pi_system/src/utils.py:22-24 | `%02d` of a value below 100 is two ASCII digits |
| EdgeTime.FormatTime | raspberry_pi_system/src/utils.py:22-24 | `%H:%M:%S` output is eight characters: digits with colons at positions 2 and 5 |
| EdgeTime.ParseTime | raspberry_pi_system/src/utils.py:26-28 | a parsed time is a whole second (strptime gives no microseconds); other texts are refused |
| EdgeTime.TwoDigitsValue | raspberry_pi_system/src/utils.py:22-28 | reading back a two-digit field gives its value |
| EdgeTime.ClockParts | raspberry_pi_system/src/utils.py:22-24 | hour, minute and second of a time are in range and rebuild the time without its microseconds |
| EdgeTime.ClockReadBack | raspberry_pi_system/src/utils.py:26-28 | an in-range hour, minute and second give a time of day whose parts are those values |
| EdgeTime.ParseFormatRoundTrip | raspberry_pi_system/src/utils.py:22-28 | `parse_time(format_time(t))` is `t` truncated to the second, and `t` itself when it is a whole second |
| EdgeTime.TwoDigitsOfValue | raspberry_pi_system/src/utils.py:26-28 | a two-digit field is the `%02d` rendering of its value |
| EdgeTime.ParsedTextIsCanonical | raspberry_pi_system/src/utils.py:22-28 | an 8-character text that parses is exactly the formatting of the parsed time |
| EdgeFaceModel.FaceModel.constructor | raspberry_pi_system/src/model.py:8-11 | nothing is loaded and no path is recorded |
| EdgeFaceModel.FaceModel.LoadModel | raspberry_pi_system/src/model.py:24-39 | corrected load: `False` and no change only when the very file at the path is already the network in memory; otherwise read, compile, record the path and `True`, after which the network in memory is the one read from that file; a read failure raises and changes nothing; a compile failure raises with the new, uncompiled network in `model` and the old path kept |
| EdgeFaceModel.FaceModel.LoadModelAsWritten | raspberry_pi_system/src/model.py:24-39 | the load as written: a recorded path equal to the requested one gives `False` and no change, whatever file is at that path now; otherwise the same read, compile and record as the corrected load |
| EdgeFaceModel.FaceModel.Read | raspberry_pi_system/src/model.py:28-35 | reading and compiling a file: a read failure raises and changes nothing; a compile failure raises with the uncompiled network already in `model` and the path not recorded; success makes that file the network in memory, records the path and gives `True` |
| EdgeFaceModel.FaceModel.Predict | raspberry_pi_system/src/model.py:58-83 | `None` without a loaded network, without a preprocessed image, or when inference raises; otherwise the chosen class index as text |
| EdgeFaceModel.LoadTwice | raspberry_pi_system/src/model.py:24-37 | after a successful load of a file, loading the same file at the same path again returns `False` and keeps that network in memory |
| EdgeFaceModel.NewFileUnderLoadedPath | raspberry_pi_system/src/model.py:27 | with the load as written, a different file written under the loaded path is not read: the second load returns `False` and the network in memory stays the earlier file |
| EdgeFaceModel.NewFileUnderLoadedPathReloads | raspberry_pi_system/src/model.py:24-35 | with the corrected load, the second load reads the new file, returns `True`, and the new file is the network in memory |
| EdgeModelManager.ModelFileName | raspberry_pi_system/src/model_manager.py:22-34 | `model_v{version}.h5` is a plain file name ending in `.h5` |
| EdgeModelManager.ModelFileNameInjective | raspberry_pi_system/src/model_manager.py:22-34 | different versions are cached under different names |
| EdgeModelManager.H5Files | raspberry_pi_system/src/model_manager.py:63 | the listing keeps exactly the names ending in `.h5` |
| EdgeModelManager.CachePathNames | raspberry_pi_system/src/model_manager.py:43-44 | the basename of a cache path is the file it names |
| EdgeModelManager.ModelManager.HasSource | raspberry_pi_system/src/model_manager.py:43-45 | the source of `shutil.copy2` exists exactly when it is the cache path of a cached file |
| EdgeModelManager.SliceEnd | raspberry_pi_system/src/model_manager.py:66 | the length of `models[:-keep]` under Python slicing, for every sign of `keep` |
| EdgeModelManager.EvictionCount | raspberry_pi_system/src/model_manager.py:64-66 | nothing is removed unless there are more files than `keep`; with positive `keep` exactly the excess is removed |
| EdgeModelManager.EvictionIsUnique | raspberry_pi_system/src/model_manager.py:60-70 | the description of an eviction (subset, count, every removed name below every kept one) admits one set only |
| EdgeModelManager.NinthAndTenthNames | raspberry_pi_system/src/model_manager.py:22 | versions 9 and 10 are cached as `model_v9.h5` and `model_v10.h5` |
| EdgeModelManager.TenBelowNine | raspberry_pi_system/src/model_manager.py:65 | `model_v10.h5` sorts before `model_v9.h5` in string order |
| EdgeModelManager.StringOrderEvictsNewerVersion | raspberry_pi_system/src/model_manager.py:63-67 | with versions 9 and 10 cached and one to keep, the newer version 10 is the file removed: `sort()` orders names, not versions |
| EdgeModelManager.ModelManager.constructor | raspberry_pi_system/src/model_manager.py:9-17 | both directories start with whatever files they already hold |
| EdgeModelManager.ModelManager.DownloadModel | raspberry_pi_system/src/model_manager.py:19-37 | success exactly when the transfer completes, returning `models/cache/model_v{version}.h5`; a failed request writes nothing; an interrupted stream leaves a partial file under the final name |
| EdgeModelManager.ModelManager.ActivateModel | raspberry_pi_system/src/model_manager.py:39-58 | a missing source fails with nothing copied; a verified copy is put in service and its path returned; a failed verification deletes the copy and whatever had that name, then raises |
| EdgeModelManager.ModelManager.CleanupOldModels | raspberry_pi_system/src/model_manager.py:60-70 | only cache files are deleted, the files that remain keep their contents, and what is deleted is the eviction of the `.h5` listing for `keep` |
| EdgeModelManager.ModelManager.RemoveFiles | raspberry_pi_system/src/model_manager.py:66-68 | the cache loses exactly the listed names |
| EdgeModelManager.ListH5 | raspberry_pi_system/src/model_manager.py:63 | each `.h5` name once and nothing else |
| EdgeModelManager.EvictionFromSorted | raspberry_pi_system/src/model_manager.py:64-67 | deleting `models[:-keep]` of the sorted listing is an eviction |
| EdgeScheduler.InWindowIgnoresMidnightWrap | raspberry_pi_system/src/scheduler.py:88 | the scheduler's `start <= now <= end` agrees with `time_in_range` on ordinary windows and never holds for a window past midnight |
| EdgeScheduler.ScanFrom | raspberry_pi_system/src/scheduler.py:78-94 | the loop stops at the first entry that is unparsable or holds the time; every entry before it was read and passed over |
| EdgeScheduler.LaterEntriesIgnored | raspberry_pi_system/src/scheduler.py:88-92 | entries after the first match, even unparsable ones, never change the outcome |
| EdgeScheduler.NextSchedule | raspberry_pi_system/src/scheduler.py:49-94 | a failed poll keeps the recorded schedule, an empty list clears it, a switch records the first match, and any other new schedule is a switch to an entry of the list |
| EdgeScheduler.SwitchIsNotRepeated | raspberry_pi_system/src/scheduler.py:89-91 | a tick that repeats the previous answers does not switch again, even when the previous model work failed |
| EdgeScheduler.PlannedSteps | raspberry_pi_system/src/scheduler.py:103-118 | the model steps in the fixed order, stopping at the first that raises; none without a model description; cleanup exactly when the model was found, the transfer completed, the copy verified, and the load succeeded or the same file was already the network in memory |
| EdgeScheduler.Scheduler.constructor | raspberry_pi_system/src/scheduler.py:9-19 | no schedule is recorded |
| EdgeScheduler.Scheduler.CheckSchedule | raspberry_pi_system/src/scheduler.py:49-74 | the recorded schedule becomes the next one; without a switch nothing else changes; a switch runs the planned steps, changes nothing more when no model is described, and otherwise has the install effect on the cache, the directory in service and the network in memory |
| EdgeScheduler.Scheduler.ProcessSchedules | raspberry_pi_system/src/scheduler.py:76-94 | raises exactly when the scan meets an unparsable entry; otherwise records the next schedule; a switch runs the planned steps with the install effect, and nothing else changes without one |
| EdgeScheduler.Scheduler.UpdateSchedule | raspberry_pi_system/src/scheduler.py:96-121 | the entry is recorded whatever happens next; without a model description nothing else changes; otherwise the install effect: the cache and directory in service after each step, the cache after cleanup as an eviction to three files, and which network is in memory |
| EdgeScheduler.Scheduler.InstallModel | raspberry_pi_system/src/scheduler.py:103-118 | download, activate, load and clean up, stopping at the first failure, with the install effect: a failed request changes nothing, an interrupted one leaves a partial cache file, an unverified copy is taken out of service, and the load effect follows a verified one |
| EdgeScheduler.Scheduler.ActivateAndLoad | raspberry_pi_system/src/scheduler.py:111-118 | after a completed download: an unverified copy is taken out of service and the network in memory stays; a verified one is put in service and the load effect follows |
| EdgeScheduler.Scheduler.LoadAndCleanUp | raspberry_pi_system/src/scheduler.py:114-118 | cleanup runs exactly when the load succeeded or the same file was already in memory; then the cache is cleaned down to three `.h5` files and the network in memory is the one read from the copy in service; after a failed load the cache and recorded path are unchanged, and so is the network unless compiling failed |
| EdgeScheduler.Scheduler.HandleNoSchedule | raspberry_pi_system/src/scheduler.py:123-127 | the recorded schedule is cleared; nothing else changes |
| TrainingApi.Under | training_service/utils/api_communicator.py:19-28 | a resource URL starts with the API root and ends with `/` |
| TrainingApi.FromBaseUrl | training_service/utils/api_communicator.py:16-28 | every endpoint is the base without trailing slashes, then `/api/`, then a path ending in `/` |
| TrainingApi.EndpointsIgnoreTrailingSlashes | training_service/utils/api_communicator.py:18 | trailing slashes on the base URL change no endpoint |
| TrainingApi.APIClient.constructor | training_service/utils/api_communicator.py:31-34 | the base is stripped of trailing slashes, there is no token, and the endpoints equal those of the unstripped base |
| TrainingApi.APIClient.Authenticate | training_service/utils/api_communicator.py:36-48 | a failed request gives `False` and keeps the token; a reply without `access` raises and keeps it; otherwise the token becomes `access` and the result is `True` |
| TrainingApi.APIClient.Headers | training_service/utils/api_communicator.py:50-57 | refused exactly when the token is missing or empty; otherwise exactly the two headers, with the token as bearer credential |
| TrainingApi.APIClient.MakeRequestAsWritten | training_service/utils/api_communicator.py:59-79 | without a token the header error escapes; a request that got no response raises `UnboundLocalError`; every other outcome matches `MakeRequest` |
| TrainingApi.APIClient.MakeRequest | training_service/utils/api_communicator.py:59-79 | fails only without a token; otherwise a value exactly when the request succeeded with a JSON body, and then that body |
| TrainingApi.ConnectionFailureEscapes | training_service/utils/api_communicator.py:75-79 | with a token and no connection, the code as written raises where the handler intends `None` |
| TrainingData.JoinDot | training_service/utils/data_loader.py:46 | `os.path.join('.', p)` ends with `p`, and is `p` itself exactly when `p` is absolute |
| TrainingData.ImagesOf | training_service/utils/data_loader.py:65-71 | a list answer gives its items and a page its `results`; a falsy or failed answer, or a page without `results`, gives no records |
| TrainingData.ProcessImage | training_service/utils/data_loader.py:34-53 | a sample exactly when the path is non-empty, the member id is present and non-zero, and preprocessing gives a face; the sample is that face with that id |
| TrainingData.CleanPath | training_service/utils/data_loader.py:74-77 | cleaning never lengthens a path, and a path without the API origin is left as it is |
| TrainingData.CleanPathOfServedUrl | training_service/utils/data_loader.py:74-77 | a URL of the API origin followed by a path cleans to that path |
| TrainingData.Cleaned | training_service/utils/data_loader.py:73-77 | the cleaning loop raises exactly when a record has no path; otherwise it cleans each record's path in place and changes nothing else |
| TrainingData.CleanedAppend | training_service/utils/data_loader.py:74-77 | the cleaning loop seen one record at a time: a record with a path adds its cleaned copy at the end |
| TrainingData.Kept | training_service/utils/data_loader.py:79-88 | the collected samples come only from records that gave a sample, every such sample is collected, and their ids are non-zero |
| TrainingData.KeptAppend | training_service/utils/data_loader.py:84-88 | one more record appends its sample at the end when it yields one and nothing otherwise, so the samples follow record order with one per yielding record |
| TrainingData.KeptSamples | training_service/utils/data_loader.py:64-88 | the cleaning loop raises exactly when a listed record has no path; otherwise at most one sample per record, all with non-zero ids |
| TrainingData.Ids | training_service/utils/data_loader.py:85-88 | `y` holds each kept sample's member id, in order |
| TrainingData.Encode | training_service/utils/data_loader.py:98 | one class index per label |
| TrainingData.EncodeAppend | training_service/utils/data_loader.py:98 | encoding one more label appends its index: labels are encoded position by position |
| TrainingData.DecodeEncode | training_service/utils/data_loader.py:96-98 | reading encoded labels back through `inverse_label_map` gives the member ids |
| TrainingData.InjectiveValues | training_service/utils/data_loader.py:96 | an injective label map has as many indices as ids |
| TrainingData.IndexSet | training_service/utils/data_loader.py:96 | the indices `0 .. n-1`, `n` of them |
| TrainingData.DenseEncodingIsOnto | training_service/utils/data_loader.py:95-96 | the label map is a bijection onto `0 .. n-1` |
| TrainingData.PositionalEncoding | training_service/utils/data_loader.py:95-97 | numbering the distinct labels by position gives a dense encoding and its exact inverse |
| TrainingData.PlanModelWrite | training_service/utils/data_loader.py:118-140 | PATCH the first existing entry at its version plus one (absent counts as 0), or POST version 1 when there is none; a null stored version makes the save fail |
| TrainingData.Existing | training_service/utils/data_loader.py:123-125 | the entry to update is the first result, and there is one exactly when the lookup answered with a non-empty `results` |
| TrainingData.StoredOrZero | training_service/utils/data_loader.py:125-126 | the stored version, 0 for no entry or no `model_version` key, and a failure exactly for a null version |
| TrainingData.SavesCountUp | training_service/utils/data_loader.py:124-132 | successive saves on a registered course raise its version by one each |
| TrainingData.SavesFromEmpty | training_service/utils/data_loader.py:124-140 | from an empty registry, `n` saves leave one entry at version `n` |
| TrainingData.DataLoader.constructor | training_service/utils/data_loader.py:11-21 | a fresh client for the base URL, without a token, and empty label maps |
| TrainingData.DataLoader.LoadCourseData | training_service/utils/data_loader.py:55-100 | raises without a token or when a record has no path; otherwise the faces are the kept samples' faces, and when any remain the maps become a dense encoding with its inverse and the labels come back encoded |
| TrainingData.DataLoader.SaveModelInfo | training_service/utils/data_loader.py:102-146 | raises without a token; otherwise sends the write the version rule picks and reports `True` exactly when one was sent and answered truthily |
| TrainingData.CleanImagePaths | training_service/utils/data_loader.py:74-77 | the loop computes `Cleaned` |
| TrainingData.CollectSamples | training_service/utils/data_loader.py:80-88 | the loop's faces and ids are the two columns of the kept samples, in order |
| TrainingData.BuildEncoding | training_service/utils/data_loader.py:95-98 | a dense encoding of the ids, its inverse, and the labels encoded with it |
| TrainingData.UniqueLabels | training_service/utils/data_loader.py:95 | each distinct id once |
| TrainingData.LabelIndices | training_service/utils/data_loader.py:96 | each label maps to its position |
| TrainingData.EncodeLabels | training_service/utils/data_loader.py:98 | the loop computes `Encode` |
| JwtAuth.LastIndex | dashboard/JWTAuthMiddleware.py:26 | the position of the last pair with the name, and no later pair has it |
| JwtAuth.LastValue | dashboard/JWTAuthMiddleware.py:26-28 | `dict(headers)[name]` is absent exactly when no pair has the name, and otherwise is the value of the last such pair |
| JwtAuth.BearerToken | dashboard/JWTAuthMiddleware.py:29-30 | a token only for values starting `Bearer `, and it holds no space |
| JwtAuth.BearerTokenRoundTrip | dashboard/JWTAuthMiddleware.py:29-30 | a space-free credential sent as `Bearer <credential>` is read back unchanged |
| JwtAuth.BearerTokenFirstWord | dashboard/JWTAuthMiddleware.py:30 | only the first word after `Bearer ` is taken |
| JwtAuth.ExtractToken | dashboard/JWTAuthMiddleware.py:21-30 | the first query `token` value wins; otherwise the bearer credential of the last `authorization` header, and nothing without such a header |
| JwtAuth.HeaderCredentialExtracted | dashboard/JWTAuthMiddleware.py:26-30 | without a query token, a last `authorization` header `Bearer <credential>` yields that credential |
| JwtAuth.QueryTakesPrecedence | dashboard/JWTAuthMiddleware.py:23-25 | with a query token the headers are never consulted |
| JwtAuth.GetUser | dashboard/JWTAuthMiddleware.py:39-47 | a member exactly when the token validates with a `user_id` present in the user table, and then that user |
| JwtAuth.ResolveUser | dashboard/JWTAuthMiddleware.py:32-35 | a missing or empty token gives the anonymous user, any other token gives `get_user` of it, and a member is always a known user |
| JwtAuth.MemberNeedsValidToken | dashboard/JWTAuthMiddleware.py:21-47 | a resolved member comes from a non-empty validated token, and without a query token from a `Bearer` header |
| JwtAuth.Scope.constructor | dashboard/JWTAuthMiddleware.py:17-19 | the scope carries the parsed query and the headers, with no user yet |
| JwtAuth.Call | dashboard/JWTAuthMiddleware.py:17-37 | `scope['user']` is set to the resolved user |
| RoleGate.Guarded | common/decorators.py:7-16 | anonymous goes to `login`, a role outside the list goes to `no_permission`, and the view runs, on the unchanged request, exactly when authenticated with a listed role |
| RoleGate.RoleRequired | common/decorators.py:4-17 | the wrapped view sends anonymous users to `login`, and runs the view on the unchanged request exactly when the user is authenticated with a listed role |
| RoleGate.DefaultDeniesEveryone | common/decorators.py:4 | with the default empty list every request is redirected |
| RoleGate.AuthenticationComesFirst | common/decorators.py:8-9 | an anonymous visitor goes to `login` whatever its role |
| RoleGate.OnlyTheSetMatters | common/decorators.py:13 | order and repetition in the allowed list make no difference |
| RoleGate.MoreRolesAdmitMore | common/decorators.py:13-16 | allowing more roles never turns an admitted request away |
| Text.RStrip | training_service/utils/api_communicator.py:18 | `rstrip(c)` is the longest prefix not ending in `c`, and only `c` was cut |
| Text.RStripIgnoresTrailing | training_service/utils/api_communicator.py:18 | appending more `c` changes nothing |
| Text.RStripIdempotent | training_service/utils/api_communicator.py:32-34 | stripping twice is stripping once |
| Text.Basename | raspberry_pi_system/src/model_manager.py:43 | the suffix after the last `/`, without a `/` |
| Text.BasenameOfJoin | raspberry_pi_system/src/model_manager.py:43-44 | the basename of `dir/name` is `name` |
| Text.SplitOn | dashboard/JWTAuthMiddleware.py:30 | at least one field, none containing the separator |
| Text.SplitOnJoin | dashboard/JWTAuthMiddleware.py:30 | joining the fields with the separator gives the text back |
| Text.SplitOnWhole | dashboard/JWTAuthMiddleware.py:30 | a text without the separator is one field |
| Text.SplitOnFirst | dashboard/JWTAuthMiddleware.py:30 | the first field ends at the first separator |
| Text.BelowIrreflexive | raspberry_pi_system/src/model_manager.py:65 | no name sorts before itself |
| Text.BelowAsymmetric | raspberry_pi_system/src/model_manager.py:65 | two names never sort before each other |
| Text.BelowTransitive | raspberry_pi_system/src/model_manager.py:65 | string order is transitive |
| Text.BelowTotal | raspberry_pi_system/src/model_manager.py:65 | any two different names are ordered |
| Text.Insert | raspberry_pi_system/src/model_manager.py:65 | inserting into a sorted list keeps it sorted and adds exactly the name |
| Text.SortDistinct | raspberry_pi_system/src/model_manager.py:65 | `sort()` gives a strictly sorted permutation of distinct names |
| Text.NatToDecimal | raspberry_pi_system/src/model.py:78 | `str(n)` is a non-empty string of digits |
| Text.NatToDecimalRoundTrip | raspberry_pi_system/src/model.py:78 | reading `str(n)` back gives `n` |
| Text.IntToDecimal | raspberry_pi_system/src/model_manager.py:22 | `str(i)` is non-empty and holds no `/` or `.` |
| Text.IntToDecimalSign | raspberry_pi_system/src/model_manager.py:22 | a leading `-` exactly for negative numbers |
| Text.IntToDecimalInjective | raspberry_pi_system/src/model_manager.py:22 | different numbers render differently |
| Text.RemoveAll | training_service/utils/data_loader.py:75-77 | `replace(pat, '')` never lengthens the text |
| Text.RemoveAllAbsent | training_service/utils/data_loader.py:75-77 | a text without the pattern is unchanged |
| Text.RemoveAllLeading | training_service/utils/data_loader.py:75-77 | a leading occurrence is removed |

## Left out

- Threads and timing: `Scheduler.start`, `stop` and `_run`, the `schedule` library and the stop event. One tick is one `CheckSchedule` call.
- The day name and the device lookup of `check_schedule`: both requests are folded into the `Poll` answer, and either failing is `PollFailed`.
- `ScheduleEntry`: the `course` field is a number, and an entry missing a key is not modelled.
- `FaceModel.preprocess_image` and the tensor work of `predict` (resize, normalise, argmax, the float confidence). Preprocessing and the chosen class are parameters, and the confidence is not modelled.
- EdgeFaceModel.FaceModel.Predict: reports the class index as the student id, as the code does. The mapping to real student ids is not part of the code.
- GPU memory-growth setup in `FaceModel.__init__` and all logging.
- File contents: a model file is only its source URL and whether the transfer completed, so two complete files from the same URL count as the same contents. The copy in `activate_model` copies that record. Disk errors other than a missing source are not modelled.
- EdgeScheduler.Scheduler.InstallModel: the scheduler calls the corrected `LoadModel` of the finding below. With the load as written, switching to another course whose model has the same version leaves the previous course's network in memory and still cleans up.
- EdgeModelManager.ModelManager.CleanupOldModels: `os.remove` failures are not modelled. In the code such a failure stops the loop and is logged.
- `time_in_range` and `format_time` are not called by the scheduler; they are modelled as the helpers they are.
- `strptime` also accepts non-ASCII Unicode digits for `%H`, `%M` and `%S`; only ASCII digits are modelled.
- `parse_qs` and the byte decoding of the query string and headers. The query arrives parsed, and headers are strings.
- `AccessToken` and the user table are parameters (`validate`, `users`). Token signature checking is not modelled.
- `APIClient.authenticate`: the username and password only travel in the request, so only the server's reply is modelled.
- JSON bodies of an unexpected shape (a list where a dict is expected, a non-string `access`) are not modelled.
- `DataLoader.authenticate` only forwards to the client.
- `DataLoader._get_student_info` and its `lru_cache` are not modelled: it reads an endpoint `student` that `APIEndpoints` does not define, and nothing in the core calls it.
- The `ThreadPoolExecutor` in `load_course_data` is modelled as a sequential map. `executor.map` keeps input order, so the result is the same.
- TrainingData.UniqueLabels: `list(set(y))` follows the iteration order of a Python set. The model accepts any order, so the exact index each id gets is left open. The dense-encoding properties hold for every order.
- `np.array` conversion is not modelled: faces and labels are sequences.
- TrainingData.DataLoader.LoadCourseData and TrainingData.DataLoader.SaveModelInfo: both call the corrected `make_request` of the finding below. With the code as written, a request that gets no connection raises `UnboundLocalError`. In `load_course_data` that exception escapes. In `save_model_info` it becomes `False` before any write is sent.
- TrainingApi.APIClient.MakeRequest: a body that is not JSON gives `None`. That holds with `requests` 2.27 or later, where the decoding error is a `RequestException`. With older versions a `ValueError` escapes `make_request`.
- `model['id']` missing from a registry entry is not modelled: entries always carry an id.

## Findings

| source | as written | input that shows it | evidently intended | confidence | as-written member | corrected member |
|---|---|---|---|---|---|---|
| training_service/utils/api_communicator.py:75-79 | the handler reads `response`, which is unbound when `requests.request` itself raised, so the handler raises `UnboundLocalError` | an authenticated client whose request fails to connect (refused connection, DNS failure, timeout) | every request error is logged and `make_request` returns `None` | not executed | TrainingApi.APIClient.MakeRequestAsWritten | TrainingApi.APIClient.MakeRequest |
| raspberry_pi_system/src/model.py:27 | `load_model` skips the load whenever the requested path equals the recorded one; model files are named by version only (raspberry_pi_system/src/model_manager.py:22), so a different model copied under the same name is never read | a switch from course A to course B when both courses' models are at version 1: `current/model_v1.h5` is overwritten with B's model, `load_model` returns `False`, and A's network keeps answering | a file that changed under the same path is loaded again | not executed | EdgeFaceModel.FaceModel.LoadModelAsWritten | EdgeFaceModel.FaceModel.LoadModel |
