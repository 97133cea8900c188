# primitive orchestrator — a verified model

The primitive orchestrator puts a web service in front of the `primitive`
command-line tool, which redraws an image as a set of geometric shapes. A
browser page uploads an image with drawing parameters. The backend stores
the upload and records a job. It runs `primitive` with flags built from the
parameters and streams each output line to subscribed WebSockets. The job
ends as succeeded or failed. The page follows the job through the WebSocket
and by polling the output listing.

This project models that core in Dafny and proves properties of the model:

- `wrappers.dfy` — `Option` and `Result`.
- `text.dfy` — Python's `str()`/`int()` on integers, `strip`/`lower`, and
  the round trip between them.
- `models.dfy` — the `Job` record, job status, parameter values with
  Python's `==` and truthiness.
- `jobs.dfy` — the command line, the progress estimate, the output loop,
  `create_job` and `run_job` over a `JobStore` class that holds the jobs
  table.
- `notification.dfy` — the `Notifier` subscriber registry and its broadcast.
- `api.dfy` — the upload endpoint (suffix and size checks, renaming so an
  earlier upload is not overwritten, the parameters stored), the sorted
  output listing, the download and job-status 404s.
- `launcher.dfy` — `strtobool` and the launcher's reload/worker settings.
- `upload_page.dfy` — the upload page: the `Upload` class (the component's
  state), its submit, push-message, close and polling events, the generated
  image URL, and the `NumberInput` field.

Some modelling choices:

- Integers are unbounded. A job's progress is an integer. The frame-based
  estimate is `min(99, frames * 100 / max(total, 1))`, computed in exact
  integer arithmetic.
- The database is the map `JobStore.jobs`. The upload directory is a set of
  names. An output directory is a map from directory path to entries.
- The subprocess is a `Launch` value: a spawn failure, or the output lines
  with the exit code. Each line carries the directory listing seen when it
  was read.
- In the browser, `fetch`, `WebSocket` and timers become events. They are
  the outcome of the POST, a decoded push message, a socket closing, a poll
  request settling and a poll timer firing.
- Every run of the polling effect is kept in `Upload.polls`. This shows that
  a run whose request is in flight when the effect restarts keeps polling.

Where the code and its description disagree, the model follows the code:

- A failed submit appends one line to the logs without the 400-line cap.
  It keeps the previous job, socket and polling.
- `generatedUrl` always points at `output.png`, whichever listed name
  matched the test.
- A listing from an older job's poll replaces `files` just like one for the
  current job.
- The launcher parses `WORKERS` even when reload then overrides it, so a bad
  `WORKERS` stops the launch either way.

## Model

| member | source | states |
|---|---|---|
| Jobs.SkippedIsFalsy | primitive/backend/app/jobs.py:49 | `v in (None, "", False)` skips exactly the falsy values, integer `0` among them (`0 == False`) |
| Jobs.FramePattern | primitive/backend/app/jobs.py:29-30 | a frame pattern exists exactly when `params.get("nth")` is present and truthy |
| Jobs.ParamFlagsShape | primitive/backend/app/jobs.py:48-55 | an entry adds nothing exactly when its value is falsy or its key is unknown. Otherwise it adds its own flag and `str(v)`, with or without frames. The one exception: with frames on, `nth` adds `-o <frames> -nth str(v)` |
| Jobs.BuildCommand | primitive/backend/app/jobs.py:32-55 | the loop yields the fixed head `exe -i input -o output.png` followed by the flags of every entry in order |
| Jobs.DroppedParamAddsNothing | primitive/backend/app/jobs.py:48-56 | removing a falsy or unknown entry from anywhere in the params leaves the command unchanged |
| Jobs.KeptParamAddsFlag | primitive/backend/app/jobs.py:48-55 | a truthy known entry other than a framed `nth` contributes exactly its flag and `str(v)`, at its position, whether or not frames are written |
| Jobs.NthAddsFrameOutput | primitive/backend/app/jobs.py:29-30 | a truthy `nth` puts `-o <output_dir>/frame-%05d.png -nth <nth>` after the head. `output.png` stays the first output |
| Jobs.FlagPositions | primitive/backend/app/jobs.py:48-55 | without frames the flags alternate: each even position is a flag from the map, followed by its value |
| Jobs.NoFrameOutputWithoutNth | primitive/backend/app/jobs.py:29-30 | without a truthy `nth` no `-o` follows the head: `output.png` is the only output |
| Jobs.Total | primitive/backend/app/jobs.py:68 | a missing or falsy `n` gives 100. An integer `n` gives itself. `int()` raises exactly for a non-numeric, non-empty string |
| Jobs.FrameProgress | primitive/backend/app/jobs.py:78 | the frame estimate always lies in 0..99 |
| Jobs.FrameProgressMonotone | primitive/backend/app/jobs.py:78 | more frames never lower the estimate |
| Jobs.FrameProgressCapped | primitive/backend/app/jobs.py:78 | once the frames reach the total, the estimate is 99, never 100 |
| Jobs.CountFrames | primitive/backend/app/jobs.py:74 | the frame count never exceeds the number of directory entries |
| Jobs.StreamEffect | primitive/backend/app/jobs.py:70-85 | the output loop changes only progress and message. It broadcasts each right-stripped line once, in order. Without frames the progress stays put, with frames it is at most 99. The message is the last line |
| Jobs.ExecuteEndsTerminal | primitive/backend/app/jobs.py:121-138 | every run ends succeeded or failed, changes only status, progress and message, and its last broadcast is a `done` with the final state or an `error` |
| Jobs.ExecuteSucceedsIffExitZero | primitive/backend/app/jobs.py:122-127 | a job succeeds exactly when the process started, `n` parsed and the exit code is 0. It then has progress 100 and message `done: <output.png>` |
| Jobs.ExecuteNonZeroExit | primitive/backend/app/jobs.py:128-132 | a non-zero exit fails the job with `primitive exited with code N`. The last progress stays, and one broadcast per line plus the final one is sent |
| Jobs.ExecuteRaised | primitive/backend/app/jobs.py:133-138 | a spawn failure or a bad `n` fails the job with `error: <e>` and progress untouched. It sends exactly one `error` message |
| Jobs.JobStore.CreateJob | primitive/backend/app/jobs.py:91-105 | adds one pending job with progress 0, no message, the given params and output directory `<jobs_dir>/<id>`. Other jobs are untouched |
| Jobs.JobStore.RunJob | primitive/backend/app/jobs.py:108-138 | an unknown id does nothing. Otherwise the job is marked running, the command is built from its params, and the table and the broadcasts end as the run prescribes |
| Jobs.JobStore.Finish | primitive/backend/app/jobs.py:121-138 | stores the run's final job record and returns its broadcasts, for every launch outcome |
| Jobs.JobStore.StreamOutput | primitive/backend/app/jobs.py:67-85 | the in-place loop over the output lines saves and broadcasts the same job states as the line-by-line specification |
| Launcher.StrToBool | primitive/backend/app.py:6-9 | `None` reads as false |
| Launcher.StrToBoolIgnoresCase | primitive/backend/app.py:9 | values that differ only in letter case read the same |
| Launcher.StrToBoolIgnoresPadding | primitive/backend/app.py:9 | surrounding whitespace does not change the reading |
| Launcher.StrToBoolAccepts | primitive/backend/app.py:9 | any padded, any-case spelling of 1/true/yes/y/on reads as true |
| Launcher.StrToBoolOnlyAccepts | primitive/backend/app.py:9 | only such spellings read as true |
| Launcher.GetEnv | primitive/backend/app.py:13-22 | a set variable gives its value, an unset one gives the default |
| Launcher.GetEnvReadsOnlyName | primitive/backend/app.py:13-22 | only the named variable decides the value, and one set to the empty string reads as empty rather than as the default |
| Launcher.LaunchConfig | primitive/backend/app.py:12-32 | a bad `APP_PORT` or `WORKERS` raises the `int()` error. Otherwise host, port and log level come from the environment with their defaults, and reload is on exactly when the development or `RELOAD` rule holds. Reload forces one worker, else `WORKERS` (default 2) is used |
| Launcher.DevelopmentReloads | primitive/backend/app.py:16 | `APP_ENV=development` in any case turns reload on, whatever `RELOAD` says |
| Launcher.ReloadOffByDefault | primitive/backend/app.py:16 | with neither variable set, reload is off |
| Notification.SubscribeAdds | primitive/backend/app/notifier.py:13-15 | after subscribing, the job's set is the old one plus the socket. Other jobs are unchanged |
| Notification.SubscribeIdempotent | primitive/backend/app/notifier.py:15 | subscribing twice equals subscribing once |
| Notification.UnsubscribeRemoves | primitive/backend/app/notifier.py:17-22 | after unsubscribing, the job's targets are the old ones minus the socket. Other jobs are unchanged |
| Notification.OperationsKeepNoEmptySets | primitive/backend/app/notifier.py:13-22 | no job id is ever left mapped to an empty set |
| Notification.UnsubscribeNonMemberNoOp | primitive/backend/app/notifier.py:17-22 | unsubscribing an unknown job or a non-member changes nothing |
| Notification.UnsubscribeUndoesSubscribe | primitive/backend/app/notifier.py:13-22 | subscribing a new socket and then unsubscribing it restores the registry, including deleting an entry it created |
| Notification.Notifier.Subscribe | primitive/backend/app/notifier.py:13-15 | the registry becomes the subscribed registry and keeps the no-empty-set invariant |
| Notification.Notifier.Unsubscribe | primitive/backend/app/notifier.py:17-22 | the registry becomes the unsubscribed registry and keeps the no-empty-set invariant |
| Notification.Notifier.Broadcast | primitive/backend/app/notifier.py:24-32 | each snapshot target is tried exactly once. Failures are swallowed and stop nothing. The delivered set is the targets minus the failing ones, and the registry is unchanged |
| Api.StemAndSuffix | primitive/backend/app/main.py:57 | a name is its stem followed by its suffix. A suffix is empty, or a dot followed by at least one non-dot character |
| Api.UploadFallbackRejected | primitive/backend/app/main.py:57-59 | an upload without a file name falls back to `upload`, has no suffix and is always a 400 |
| Api.CheckUploadRules | primitive/backend/app/main.py:57-71 | an upload is accepted exactly when its suffix, in any case, is .png/.jpg/.jpeg and its size is within the limit. A bad suffix is the 400, checked first; an oversize file is the 413 with the limit in MB |
| Api.SizeLimitIsInclusive | primitive/backend/app/main.py:69-71 | exactly `max_upload_mb` MiB is accepted and one byte more is refused |
| Api.AvoidOverwrite | primitive/backend/app/main.py:61-66 | the loop ends with the first free name of the renaming chain |
| Api.FirstFreeUnique | primitive/backend/app/main.py:61-66 | there is only one first free name |
| Api.RenamedKeepsSuffix | primitive/backend/app/main.py:65 | one renaming keeps the suffix and appends `-i` to the stem |
| Api.ChainKeepsSuffix | primitive/backend/app/main.py:63-66 | any number of renamings keeps the suffix |
| Api.FirstFreeKeepsSuffix | primitive/backend/app/main.py:61-66 | the stored name has the uploaded file's suffix |
| Api.ChainOfTwo | primitive/backend/app/main.py:63-66 | the second renaming builds on the first: `a.png` becomes `a-1.png`, then `a-1-2.png` |
| Api.DropNoneMembers | primitive/backend/app/main.py:87 | the stored params are exactly the entries whose value is not `None` |
| Api.DropNoneWithoutNone | primitive/backend/app/main.py:87 | with no `None` present, the params are stored unchanged and in order |
| Api.BackgroundDefault | primitive/backend/app/main.py:50 | `bg` is stored as sent, except that an absent or empty field stores the declared `avg` |
| Api.DefaultParams | primitive/backend/app/main.py:45-87 | an empty form stores n=100, m=1, s=1024, r=256, a=128, bg=avg, rep=0, j=0, v=0 in that order, with no `nth` |
| Api.ZeroDefaultsAddNoFlags | primitive/backend/app/main.py:45-87 | for an empty form the zero defaults rep, j and v add no flag to the command |
| Api.CreateJobEndpoint | primitive/backend/app/main.py:42-92 | a rejected upload writes nothing and creates no job. An accepted one is stored under the first free name and creates one pending job over the stored params, returned as id, status and progress 0 |
| Api.FileNames | primitive/backend/app/main.py:122 | the names kept are exactly those of regular files |
| Api.SortNames | primitive/backend/app/main.py:122 | the listing is sorted by code point and a permutation of its input |
| Api.SortedUnique | primitive/backend/app/main.py:122 | a sorted permutation is unique, so the listing is determined by the directory |
| Api.ListOutputsRules | primitive/backend/app/main.py:112-123 | an unknown job is the 404. A missing directory lists nothing. Otherwise the listing is the directory's regular files, sorted |
| Api.ListedIffRegularFile | primitive/backend/app/main.py:119-122 | a name is listed exactly when it is a regular file in the job's output directory |
| Api.DownloadMatchesListing | primitive/backend/app/main.py:126-136 | a download succeeds exactly for a listed name and serves `<output_dir>/<name>`. An unknown job is the job 404, anything else the file 404 |
| Api.GetJob | primitive/backend/app/main.py:95-109 | an unknown id is the 404. Otherwise the view carries the job's id, status, message, progress and params |
| Api.GetJobAgreesWithListing | primitive/backend/app/main.py:95-123 | `get_job` finds a job exactly when `list_outputs` can list it, and both answer an unknown id with the same 404 |
| Api.GetJobAfterCreate | primitive/backend/app/main.py:95-109 | right after a new job is stored, `get_job` shows it pending with progress 0, no message and its params; other ids answer as before |
| UploadPage.AppendLogKeepsNewest | primitive/web/src/pages/Upload.tsx:86 | a message line is appended last. At most 400 lines remain, and they are the newest in order |
| UploadPage.AppendLogsIsLast | primitive/web/src/pages/Upload.tsx:80-88 | after any number of messages, the log is the last 400 of all lines appended, in order, even when a failed submit left it above 400 lines |
| UploadPage.ApplyMessageRules | primitive/web/src/pages/Upload.tsx:80-88 | a numeric progress replaces the job's progress as is, keeping id and status. There is no effect without a job. A truthy message is logged within the cap. A missing progress, an empty message or a parse failure changes nothing of its part |
| UploadPage.BuildFormSendsNth | primitive/web/src/pages/Upload.tsx:58-69 | `nth` is sent, as the eighth field, exactly when its field is not blank |
| UploadPage.BuildFormNumbersRoundTrip | primitive/web/src/pages/Upload.tsx:60-69 | every number is sent as text the server's `int()` reads back unchanged |
| UploadPage.FailureLine | primitive/web/src/pages/Upload.tsx:72 | a failure line starts with `提交失败: `. A non-ok response shows its body, or `Error` when the body is empty |
| UploadPage.RestartLeaksInFlightPoll | primitive/web/src/pages/Upload.tsx:98-114 | a restart while the request is in flight leaves that loop running, so one more loop polls. A restart while the timer is armed stops it. Other loops are untouched |
| UploadPage.FindGenerated | primitive/web/src/pages/Upload.tsx:120 | finds a name exactly when some listed name ends in `.png`, ignoring case, and starts with `output`. The name found passes that test |
| UploadPage.GeneratedUrlRules | primitive/web/src/pages/Upload.tsx:120 | the URL is set exactly when there is a job and a passing name. It always names `output.png` |
| UploadPage.Upload.SelectFile | primitive/web/src/pages/Upload.tsx:188 | choosing a file changes only the file |
| UploadPage.Upload.RestartPolling | primitive/web/src/pages/Upload.tsx:98-114 | cleanup stops the current loop only if its timer is armed, and a new loop starts fetching for the job |
| UploadPage.Upload.BeginSubmit | primitive/web/src/pages/Upload.tsx:50-70 | without a file nothing happens. Otherwise `submitting` is set, logs and files are cleared, and the form is built |
| UploadPage.Upload.FinishSubmit | primitive/web/src/pages/Upload.tsx:71-94 | success replaces the job, opens a socket for it that `wsRef` points to, and restarts polling. Failure keeps job, socket and polling and appends the failure line. `submitting` ends false |
| UploadPage.Upload.OnMessage | primitive/web/src/pages/Upload.tsx:80-88 | applies the message rules to job and logs. A numeric progress with a job restarts polling for it |
| UploadPage.Upload.OnClose | primitive/web/src/pages/Upload.tsx:89 | any socket closing clears `wsRef` and changes nothing else |
| UploadPage.Upload.PollSettles | primitive/web/src/pages/Upload.tsx:102-110 | a good listing, from any job's loop, replaces `files`. A failed or non-ok request keeps them, and the loop arms its next timer |
| UploadPage.Upload.TimerFires | primitive/web/src/pages/Upload.tsx:110-112 | a fired timer sends that loop's next request |
| UploadPage.ClampedRules | primitive/web/src/pages/Upload.tsx:526-530 | below the range gives `min`, above gives `max`, inside gives the input. The result never exceeds `max` |
| UploadPage.ClampedIdempotent | primitive/web/src/pages/Upload.tsx:526-530 | for a non-empty range, clamping twice equals clamping once |
| UploadPage.CommitRoundTrip | primitive/web/src/pages/Upload.tsx:538-550 | a formatted integer is a draft the field accepts, and committing it yields that integer, clamped |
| UploadPage.CommitBlankRestores | primitive/web/src/pages/Upload.tsx:539-543 | a blank field or a lone minus commits the current value, clamped |
| UploadPage.NumberInput.Clamp | primitive/web/src/pages/Upload.tsx:526-530 | raises to `min`, then lowers to `max` |
| UploadPage.NumberInput.HandleChange | primitive/web/src/pages/Upload.tsx:532-536 | only text of the form `-?digits` replaces the field's text, and the value is untouched |
| UploadPage.NumberInput.Commit | primitive/web/src/pages/Upload.tsx:538-550 | the value becomes the committed number and the text shows it |

## Left out

- Persistence. SQLite and `save_job` become assignments to `JobStore.jobs`. `created_at`/`updated_at` timestamps are not modelled.
- Concurrency. The asyncio tasks, the notifier's lock and the overlap of `run_job` with other requests are left out. Operations are sequential, and `create_task(run_job(...))` is left to the caller, which can call `JobStore.RunJob`.
- The subprocess and the filesystem become values. These are the `Launch`, the directory listing with each output line, the upload directory's name set and the output directory's entries. Byte decoding with `errors="ignore"` is not modelled; lines are already text.
- Jobs.FrameProgress: Python computes `int(frames / total * 100)` in floating point. The model uses exact integer division. Both results are in 0..99 and monotone, but they can differ by one near a float rounding boundary.
- Jobs.Total: `int()` is modelled for optional whitespace, one sign and ASCII digits. Underscores and non-ASCII digits are not modelled, and the error text quotes the string without Python's repr escaping.
- Text.Lower: only ASCII letters are lower-cased. Python and JavaScript also fold non-ASCII letters. (Text.Strip uses Python's full `str.isspace` set.)
- Api.CheckUpload: path separators and absolute names in the uploaded file name are not modelled. Joining paths is string concatenation with `/`.
- Api.CreateJobEndpoint: FastAPI's form binding is modelled only by its outcome. An integer field is either absent or empty, so the declared default applies, or an integer (an empty `bg` also falls back to `avg`, see Api.BackgroundDefault); a non-integer field's 422 response is left out. Starting the background task is left to the caller.
- JSON encoding and decoding of stored params and of push messages are left out. A push message's `progress` is an integer or absent, and its `message` is a string or absent.
- Notification.Notifier.Broadcast: the payload is not modelled, only who is tried and who receives it.
- The page's rendering, animations, the object URL of the chosen file and the socket URL are left out.
- UploadPage.ParseDraft: `Number()` is modelled only on `-?digits` text, the only text `handleChange` lets into the field. Floating-point precision for very long digit strings is not modelled.
- The `nth` field's own `onChange` (`Number(text)` on arbitrary text, which can be NaN) is not modelled. `Fields.nth` is an integer or blank.
- The `useEffect` that resyncs `NumberInput`'s text when the value changes from outside is not modelled. After `Commit` the text already shows the value.
- The submit button is disabled while `submitting`, but `onSubmit` itself does not check the flag. The model keeps that: `BeginSubmit` does not look at `submitting`.
- The cancel endpoint (a 501 stub), the admin listing, the health check, CORS, static serving and the WebSocket endpoint's receive loop are outside this model.
