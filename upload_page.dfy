/**
 * The upload page (primitive/web/src/pages/Upload.tsx): how the page's
 * state reacts to submitting a job, to WebSocket push messages and to the
 * output polling, the "generated image" derivation, and the `NumberInput`
 * field.
 *
 * `fetch`, `WebSocket` and `setTimeout` are replaced by events: the outcome
 * of the POST, each decoded push message, a socket closing, a poll request
 * settling and a poll timer firing are method calls on `Upload`.
 */
module UploadPage {
  import opened Wrappers
  import opened Text

  /** The `JobInfo` the page keeps (numbers are integers here). */
  datatype JobInfo = JobInfo(id: string, status: string, progress: int)

  // ------------------------------------------------------------------ logs

  const LogCap: nat := 400

  /** `s.slice(-n)` for `n > 0`: the last `n` entries, or all of them. */
  function Last(s: seq<string>, n: nat): (r: seq<string>)
    requires n > 0
  {
    if |s| <= n then s else s[|s| - n..]
  }

  /** `prev => [...prev, m].slice(-400)`. */
  function AppendLog(logs: seq<string>, line: string): seq<string> {
    Last(logs + [line], LogCap)
  }

  /** The new line is last, at most 400 lines remain, and they are the newest ones in their order. */
  lemma AppendLogKeepsNewest(logs: seq<string>, line: string)
    ensures var r := AppendLog(logs, line);
      && |r| == (if |logs| < LogCap then |logs| + 1 else LogCap)
      && r[|r| - 1] == line
      && r == (logs + [line])[|logs| + 1 - |r|..]
  {
  }

  /** Appending the lines one message at a time. */
  function AppendLogs(logs: seq<string>, lines: seq<string>): seq<string> {
    if lines == [] then logs else AppendLog(AppendLogs(logs, lines[..|lines| - 1]), lines[|lines| - 1])
  }

  /** Capping before appending loses nothing the cap would keep. */
  lemma LastThenAppend(s: seq<string>, line: string)
    ensures Last(Last(s, LogCap) + [line], LogCap) == Last(s + [line], LogCap)
  {
    if |s| > LogCap {
      var t := s[|s| - LogCap..];
      assert (t + [line])[|t + [line]| - LogCap..] == (s + [line])[|s + [line]| - LogCap..];
    }
  }

  /**
   * However many messages arrive, the log is the last 400 of everything
   * appended, in order. The log may start above the cap (a failed submit
   * appends without it); once a message arrives the cap applies again.
   */
  lemma {:induction false} AppendLogsIsLast(logs: seq<string>, lines: seq<string>)
    requires lines != [] || |logs| <= LogCap
    ensures AppendLogs(logs, lines) == Last(logs + lines, LogCap)
  {
    if lines != [] {
      var init, line := lines[..|lines| - 1], lines[|lines| - 1];
      if init == [] {
        assert AppendLogs(logs, init) == logs;
        assert logs + [line] == logs + lines;
      } else {
        AppendLogsIsLast(logs, init);
        LastThenAppend(logs + init, line);
        assert logs + init + [line] == logs + lines;
      }
    }
  }

  // ------------------------------------------------------- push messages

  /**
   * A push message after `JSON.parse`: its `progress` when that is a
   * number, its `message` when that is a string; `Malformed` when parsing
   * or reading the fields throws.
   */
  datatype PushMessage = Decoded(progress: Option<int>, message: Option<string>) | Malformed

  /** `prev => prev ? { ...prev, progress } : prev`. */
  function SetProgress(job: Option<JobInfo>, progress: int): Option<JobInfo> {
    if job.Some? then Some(job.value.(progress := progress)) else job
  }

  /** A message is logged when its `message` is truthy. */
  predicate Loggable(message: Option<string>) {
    message.Some? && message.value != ""
  }

  /** What `ws.onmessage` does to `job` and `logs`. */
  function ApplyMessage(job: Option<JobInfo>, logs: seq<string>, msg: PushMessage): (Option<JobInfo>, seq<string>) {
    match msg
    case Malformed => (job, logs)
    case Decoded(progress, message) =>
      (if progress.Some? then SetProgress(job, progress.value) else job,
       if Loggable(message) then AppendLog(logs, message.value) else logs)
  }

  /**
   * A numeric progress is taken as it is (no clamping, no monotonicity)
   * while id and status stay; nothing happens without a job; a truthy
   * message is appended within the cap; a missing progress, an empty
   * message or a parse failure leaves the respective part alone.
   */
  lemma ApplyMessageRules(job: Option<JobInfo>, logs: seq<string>, msg: PushMessage)
    ensures var (j, l) := ApplyMessage(job, logs, msg);
      && (msg.Malformed? ==> j == job && l == logs)
      && (msg.Decoded? && msg.progress.Some? && job.Some? ==>
            j == Some(JobInfo(job.value.id, job.value.status, msg.progress.value)))
      && (job.None? ==> j == None)
      && (msg.Decoded? && msg.progress.None? ==> j == job)
      && (msg.Decoded? && !Loggable(msg.message) ==> l == logs)
      && (msg.Decoded? && Loggable(msg.message) ==> l == AppendLog(logs, msg.message.value))
      && (|logs| <= LogCap ==> |l| <= LogCap)
  {
    AppendLogKeepsNewest(logs, if msg.Decoded? && msg.message.Some? then msg.message.value else "");
  }

  // -------------------------------------------------------------- submit

  /** The parameter inputs; `nth` is `None` while its field is blank. */
  datatype Fields = Fields(n: int, m: int, s: int, r: int, a: int, bg: string, rep: int, nth: Option<int>, j: int, v: int)

  /** The text fields of the `FormData` posted, in the order they are appended (the file goes first). */
  function BuildForm(f: Fields): seq<(string, string)> {
    [("n", IntToString(f.n)), ("m", IntToString(f.m)), ("s", IntToString(f.s)), ("r", IntToString(f.r)),
     ("a", IntToString(f.a)), ("bg", f.bg), ("rep", IntToString(f.rep))]
    + (if f.nth.Some? then [("nth", IntToString(f.nth.value))] else [])
    + [("j", IntToString(f.j)), ("v", IntToString(f.v))]
  }

  /** `nth` is sent, as the eighth field, exactly when its field is not blank; nine or ten fields go out. */
  lemma BuildFormSendsNth(f: Fields)
    ensures var form := BuildForm(f);
      && |form| == (if f.nth.Some? then 10 else 9)
      && ((exists i | 0 <= i < |form| :: form[i].0 == "nth") <==> f.nth.Some?)
      && (f.nth.Some? ==> form[7] == ("nth", IntToString(f.nth.value)))
  {
    var form := BuildForm(f);
    var head := [("n", IntToString(f.n)), ("m", IntToString(f.m)), ("s", IntToString(f.s)), ("r", IntToString(f.r)),
                 ("a", IntToString(f.a)), ("bg", f.bg), ("rep", IntToString(f.rep))];
    var tail := [("j", IntToString(f.j)), ("v", IntToString(f.v))];
    if f.nth.None? {
      assert form == head + tail;
      assert forall i | 0 <= i < |form| :: form[i].0 != "nth";
    } else {
      assert form == head + [("nth", IntToString(f.nth.value))] + tail;
      assert form[7].0 == "nth";
    }
  }

  /** Every number goes out as text that the server's `int()` reads back as the same number. */
  lemma BuildFormNumbersRoundTrip(f: Fields)
    ensures var form := BuildForm(f);
      && ParseInt(form[0].1) == Some(f.n) && ParseInt(form[1].1) == Some(f.m)
      && ParseInt(form[2].1) == Some(f.s) && ParseInt(form[3].1) == Some(f.r)
      && ParseInt(form[4].1) == Some(f.a) && ParseInt(form[6].1) == Some(f.rep)
      && ParseInt(form[|form| - 2].1) == Some(f.j) && ParseInt(form[|form| - 1].1) == Some(f.v)
  {
    var form := BuildForm(f);
    assert form[0].1 == IntToString(f.n) && form[1].1 == IntToString(f.m) && form[2].1 == IntToString(f.s);
    assert form[3].1 == IntToString(f.r) && form[4].1 == IntToString(f.a) && form[6].1 == IntToString(f.rep);
    assert form[|form| - 2].1 == IntToString(f.j) && form[|form| - 1].1 == IntToString(f.v);
    PyIntRoundTrip(f.n);
    PyIntRoundTrip(f.m);
    PyIntRoundTrip(f.s);
    PyIntRoundTrip(f.r);
    PyIntRoundTrip(f.a);
    PyIntRoundTrip(f.rep);
    PyIntRoundTrip(f.j);
    PyIntRoundTrip(f.v);
  }

  /** What the POST ended with. */
  datatype SubmitOutcome =
    | Created(info: JobInfo)
    | NotOk(body: string)                  // `throw new Error(await res.text())`
    | Threw(name: string, message: string) // an error thrown by `fetch` or `res.json()`

  /** `` `${err?.message || err}` `` for an `Error`: its message, or when that is empty its name. */
  function ErrorText(name: string, message: string): string {
    if message != "" then message else name
  }

  /** The line logged when a submit fails. */
  function FailureLine(outcome: SubmitOutcome): (line: string)
    requires !outcome.Created?
    ensures StartsWith(line, "提交失败: ")
    ensures outcome.NotOk? && outcome.body != "" ==> line == "提交失败: " + outcome.body
    ensures outcome.NotOk? && outcome.body == "" ==> line == "提交失败: Error"
  {
    var text := if outcome.NotOk? then ErrorText("Error", outcome.body) else ErrorText(outcome.name, outcome.message);
    var line := "提交失败: " + text;
    assert line[..|"提交失败: "|] == "提交失败: ";
    line
  }

  // ------------------------------------------------------------- polling

  /** Where one run of the polling effect stands: a request in flight, a timer armed, or stopped. */
  datatype Phase = Fetching | Waiting | Stopped

  /** One run of the polling effect, for the job it was started with. */
  datatype Poll = Poll(jobId: string, phase: Phase)

  /**
   * The effect's cleanup: it clears the timer if one is armed; a request
   * in flight is not stopped and re-arms its timer when it settles.
   */
  function CleanUp(polls: seq<Poll>, active: Option<nat>): seq<Poll> {
    if active.Some? && active.value < |polls| && polls[active.value].phase == Waiting then
      polls[active.value := polls[active.value].(phase := Stopped)]
    else polls
  }

  /** The number of polling loops still going. */
  function Live(polls: seq<Poll>): (n: nat)
    ensures n <= |polls|
  {
    if polls == [] then 0 else Live(polls[..|polls| - 1]) + (if polls[|polls| - 1].phase != Stopped then 1 else 0)
  }

  lemma {:induction false} LiveUpdate(polls: seq<Poll>, k: nat, p: Poll)
    requires k < |polls|
    ensures Live(polls[k := p]) ==
      Live(polls) - (if polls[k].phase != Stopped then 1 else 0) + (if p.phase != Stopped then 1 else 0)
  {
    var init := polls[..|polls| - 1];
    if k < |polls| - 1 {
      LiveUpdate(init, k, p);
      assert polls[k := p][..|polls| - 1] == init[k := p];
    } else {
      assert polls[k := p][..|polls| - 1] == init;
    }
  }

  lemma LiveAppend(polls: seq<Poll>, p: Poll)
    ensures Live(polls + [p]) == Live(polls) + (if p.phase != Stopped then 1 else 0)
  {
    assert (polls + [p])[..|polls|] == polls;
  }

  /**
   * Restarting the effect while the current loop has a request in flight
   * leaves that loop running: one more loop polls afterwards. Only an armed
   * timer is stopped, and no other loop is touched.
   */
  lemma RestartLeaksInFlightPoll(polls: seq<Poll>, active: nat, id: string)
    requires active < |polls| && polls[active].phase != Stopped
    ensures var after := CleanUp(polls, Some(active)) + [Poll(id, Fetching)];
      && (polls[active].phase == Fetching ==> Live(after) == Live(polls) + 1)
      && (polls[active].phase == Waiting ==> Live(after) == Live(polls))
      && (forall k | 0 <= k < |polls| && k != active :: after[k] == polls[k])
  {
    var cleaned := CleanUp(polls, Some(active));
    LiveAppend(cleaned, Poll(id, Fetching));
    if polls[active].phase == Waiting {
      LiveUpdate(polls, active, polls[active].(phase := Stopped));
    }
  }

  /** What a settled poll request returned. */
  datatype PollOutcome = Listed(files: seq<string>) | NotOkResponse | FetchFailed

  // ------------------------------------------------------ generated image

  /** The `files.find` test: lower-cased it ends with `.png`, and it starts with `output` as written. */
  predicate IsGenerated(f: string) {
    EndsWith(Lower(f), ".png") && StartsWith(f, "output")
  }

  /** `files.find(...)`: the first name that passes the test. */
  function FindGenerated(files: seq<string>): (r: Option<string>)
    ensures r.Some? <==> exists i | 0 <= i < |files| :: IsGenerated(files[i])
    ensures r.Some? ==> IsGenerated(r.value) && r.value in files
  {
    if files == [] then None
    else if IsGenerated(files[0]) then Some(files[0])
    else
      var rest := FindGenerated(files[1..]);
      assert forall i | 1 <= i < |files| :: files[i] == files[1..][i - 1];
      rest
  }

  /** `generatedUrl`. */
  function GeneratedUrl(apiBase: string, job: Option<JobInfo>, files: seq<string>): string {
    if job.Some? && FindGenerated(files).Some? then apiBase + "/api/jobs/" + job.value.id + "/outputs/output.png" else ""
  }

  /**
   * The URL is set exactly when there is a job and some listed name passes
   * the test; it always names `output.png`, whichever name matched.
   */
  lemma GeneratedUrlRules(apiBase: string, job: Option<JobInfo>, files: seq<string>)
    ensures var url := GeneratedUrl(apiBase, job, files);
      && (url != "" <==> job.Some? && exists i | 0 <= i < |files| :: IsGenerated(files[i]))
      && (url != "" ==> url == apiBase + "/api/jobs/" + job.value.id + "/outputs/output.png")
  {
  }

  // --------------------------------------------------------------- page

  /** A WebSocket the page opened: its index in `Upload.sockets`. */
  type SocketId = nat

  /** The state of the `Upload` component. */
  class Upload {
    var file: Option<string>
    var submitting: bool
    var job: Option<JobInfo>
    var logs: seq<string>
    var files: seq<string>
    /** `wsRef.current`. */
    var socket: Option<SocketId>
    /** The job id each socket opened was for; the page never closes one itself. */
    var sockets: seq<string>
    /** The sockets whose `onclose` has run. */
    var closed: set<SocketId>
    /** Every run of the polling effect so far. */
    var polls: seq<Poll>
    /** The run of the polling effect for the current `job`, whose cleanup is still to come. */
    var activePoll: Option<nat>

    /** A job is always polled by a loop still going; `wsRef` points at a socket for the current job. */
    ghost predicate Valid()
      reads this
    {
      && (job.None? <==> activePoll.None?)
      && (activePoll.Some? ==>
            activePoll.value < |polls| && polls[activePoll.value].jobId == job.value.id &&
            polls[activePoll.value].phase != Stopped)
      && (socket.Some? ==> socket.value < |sockets| && job.Some? && sockets[socket.value] == job.value.id)
    }

    constructor ()
      ensures Valid()
      ensures file == None && !submitting && job == None && logs == [] && files == []
      ensures socket == None && sockets == [] && closed == {} && polls == [] && activePoll == None
    {
      file, submitting, job, logs, files := None, false, None, [], [];
      socket, sockets, closed, polls, activePoll := None, [], {}, [], None;
    }

    /** The file input's `onChange`. */
    method SelectFile(chosen: Option<string>)
      requires Valid()
      modifies this
      ensures Valid()
      ensures file == chosen
      ensures submitting == old(submitting) && job == old(job) && logs == old(logs) && files == old(files)
      ensures socket == old(socket) && sockets == old(sockets) && closed == old(closed)
      ensures polls == old(polls) && activePoll == old(activePoll)
    {
      file := chosen;
    }

    /** The polling effect re-runs for the new `job`: cleanup of the previous run, then a first `tick`. */
    method RestartPolling()
      requires job.Some? && (activePoll.Some? ==> activePoll.value < |polls|)
      modifies this
      ensures polls == CleanUp(old(polls), old(activePoll)) + [Poll(old(job).value.id, Fetching)]
      ensures activePoll == Some(|old(polls)|)
      ensures file == old(file) && submitting == old(submitting) && job == old(job) && logs == old(logs) && files == old(files)
      ensures socket == old(socket) && sockets == old(sockets) && closed == old(closed)
    {
      if activePoll.Some? && polls[activePoll.value].phase == Waiting {
        polls := polls[activePoll.value := polls[activePoll.value].(phase := Stopped)];
      }
      activePoll := Some(|polls|);
      polls := polls + [Poll(job.value.id, Fetching)];
    }

    /**
     * The start of `onSubmit`: nothing without a file; otherwise
     * `submitting` is set, logs and files are cleared, and the form to post
     * is built.
     */
    method BeginSubmit(fields: Fields) returns (form: Option<seq<(string, string)>>)
      requires Valid()
      modifies this
      ensures Valid()
      ensures old(file).None? ==> form == None && submitting == old(submitting) && logs == old(logs) && files == old(files)
      ensures old(file).Some? ==> form == Some(BuildForm(fields)) && submitting && logs == [] && files == []
      ensures file == old(file) && job == old(job)
      ensures socket == old(socket) && sockets == old(sockets) && closed == old(closed)
      ensures polls == old(polls) && activePoll == old(activePoll)
    {
      if file.None? {
        return None;
      }
      submitting := true;
      logs := [];
      files := [];
      form := Some(BuildForm(fields));
    }

    /**
     * The rest of `onSubmit`, once the POST has an outcome. On success the
     * job is replaced, a socket is opened for it and `wsRef` is pointed at
     * it (the previous socket stays open), and polling restarts for it. On
     * failure the job, the socket and the polling stay as they were, and one
     * line is appended to the logs, without the 400 cap. Either way
     * `submitting` ends false.
     */
    method FinishSubmit(outcome: SubmitOutcome)
      requires Valid()
      modifies this
      ensures Valid()
      ensures !submitting
      ensures outcome.Created? ==>
        && job == Some(outcome.info) && logs == old(logs) && files == old(files)
        && sockets == old(sockets) + [outcome.info.id] && socket == Some(|old(sockets)|)
        && polls == CleanUp(old(polls), old(activePoll)) + [Poll(outcome.info.id, Fetching)]
        && activePoll == Some(|old(polls)|)
      ensures !outcome.Created? ==>
        && job == old(job) && logs == old(logs) + [FailureLine(outcome)] && files == old(files)
        && sockets == old(sockets) && socket == old(socket)
        && polls == old(polls) && activePoll == old(activePoll)
      ensures file == old(file) && closed == old(closed)
    {
      if outcome.Created? {
        job := Some(outcome.info);
        socket := Some(|sockets|);
        sockets := sockets + [outcome.info.id];
        RestartPolling();
      } else {
        logs := logs + [FailureLine(outcome)];
      }
      submitting := false;
    }

    /**
     * `ws.onmessage`, for a message on any socket the page opened, current
     * or not: the handler does not look at which. A numeric progress with a
     * job present replaces the job object, which re-runs the polling effect.
     */
    method OnMessage(msg: PushMessage)
      requires Valid()
      modifies this
      ensures Valid()
      ensures (job, logs) == ApplyMessage(old(job), old(logs), msg)
      ensures msg.Decoded? && msg.progress.Some? && old(job).Some? ==>
        polls == CleanUp(old(polls), old(activePoll)) + [Poll(old(job).value.id, Fetching)] &&
        activePoll == Some(|old(polls)|)
      ensures !(msg.Decoded? && msg.progress.Some? && old(job).Some?) ==> polls == old(polls) && activePoll == old(activePoll)
      ensures file == old(file) && submitting == old(submitting) && files == old(files)
      ensures socket == old(socket) && sockets == old(sockets) && closed == old(closed)
    {
      if msg.Malformed? {
        return;
      }
      if msg.progress.Some? && job.Some? {
        job := SetProgress(job, msg.progress.value);
        RestartPolling();
      }
      if Loggable(msg.message) {
        logs := AppendLog(logs, msg.message.value);
      }
    }

    /** `ws.onclose`: `wsRef` is cleared whichever socket closed. */
    method OnClose(ws: SocketId)
      requires Valid()
      modifies this
      ensures Valid()
      ensures socket == None && closed == old(closed) + {ws}
      ensures file == old(file) && submitting == old(submitting) && job == old(job) && logs == old(logs) && files == old(files)
      ensures sockets == old(sockets) && polls == old(polls) && activePoll == old(activePoll)
    {
      socket := None;
      closed := closed + {ws};
    }

    /**
     * A `tick` request settles. Whatever job the loop was started for, a
     * good listing replaces `files` wholesale; a failed or non-ok request
     * leaves them. Either way the loop arms its next timer.
     */
    method PollSettles(k: nat, outcome: PollOutcome)
      requires Valid() && k < |polls| && polls[k].phase == Fetching
      modifies this
      ensures Valid()
      ensures outcome.Listed? ==> files == outcome.files
      ensures !outcome.Listed? ==> files == old(files)
      ensures polls == old(polls)[k := Poll(old(polls)[k].jobId, Waiting)]
      ensures file == old(file) && submitting == old(submitting) && job == old(job) && logs == old(logs)
      ensures socket == old(socket) && sockets == old(sockets) && closed == old(closed) && activePoll == old(activePoll)
    {
      if outcome.Listed? {
        files := outcome.files;
      }
      polls := polls[k := polls[k].(phase := Waiting)];
    }

    /** A loop's timer fires: `tick` runs again and sends the next request. */
    method TimerFires(k: nat)
      requires Valid() && k < |polls| && polls[k].phase == Waiting
      modifies this
      ensures Valid()
      ensures polls == old(polls)[k := Poll(old(polls)[k].jobId, Fetching)]
      ensures file == old(file) && submitting == old(submitting) && job == old(job) && logs == old(logs) && files == old(files)
      ensures socket == old(socket) && sockets == old(sockets) && closed == old(closed) && activePoll == old(activePoll)
    {
      polls := polls[k := polls[k].(phase := Fetching)];
    }
  }

  // -------------------------------------------------------- NumberInput

  /** The `^[-]?\d*$` test `handleChange` applies: an optional minus, then ASCII digits. */
  predicate IsDraft(t: string) {
    AllDigits(t) || (|t| > 0 && t[0] == '-' && AllDigits(t[1..]))
  }

  /** `Number(raw)` on a draft: its integer, or `None` for NaN. */
  function ParseDraft(raw: string): Option<int> {
    ParseSigned(raw)
  }

  /** `clamp`: first raised to `min`, then lowered to `max`. */
  function Clamped(n: int, min: Option<int>, max: Option<int>): int {
    var raised := if min.Some? && n < min.value then min.value else n;
    if max.Some? && raised > max.value then max.value else raised
  }

  /** Below the range gives `min`, above gives `max`, inside gives the input; the result is never above `max`. */
  lemma ClampedRules(n: int, min: Option<int>, max: Option<int>)
    ensures max.Some? ==> Clamped(n, min, max) <= max.value
    ensures min.Some? && (max.None? || min.value <= max.value) ==> Clamped(n, min, max) >= min.value
    ensures min.Some? && n < min.value && (max.None? || min.value <= max.value) ==> Clamped(n, min, max) == min.value
    ensures max.Some? && n > max.value ==> Clamped(n, min, max) == max.value
    ensures (min.None? || min.value <= n) && (max.None? || n <= max.value) ==> Clamped(n, min, max) == n
  {
  }

  /** Clamping twice is clamping once, when the range is not empty. */
  lemma ClampedIdempotent(n: int, min: Option<int>, max: Option<int>)
    requires min.None? || max.None? || min.value <= max.value
    ensures Clamped(Clamped(n, min, max), min, max) == Clamped(n, min, max)
  {
    ClampedRules(n, min, max);
    ClampedRules(Clamped(n, min, max), min, max);
  }

  /** What `commit` sets the value to. */
  function Committed(raw: string, value: int, min: Option<int>, max: Option<int>): int {
    if raw == "" || raw == "-" then Clamped(value, min, max)
    else Clamped(ParseDraft(raw).GetOr(value), min, max)
  }

  /** A formatted integer is a draft the field accepts, and committing it yields that integer, clamped. */
  lemma CommitRoundTrip(x: int, value: int, min: Option<int>, max: Option<int>)
    ensures IsDraft(IntToString(x))
    ensures Committed(IntToString(x), value, min, max) == Clamped(x, min, max)
  {
    IntToStringRoundTrip(x);
  }

  /** A blank field, or a lone minus, restores the current value, clamped. */
  lemma CommitBlankRestores(raw: string, value: int, min: Option<int>, max: Option<int>)
    requires raw == "" || raw == "-"
    ensures Committed(raw, value, min, max) == Clamped(value, min, max)
  {
  }

  /** The text field of one `NumberInput`, with the value it edits. */
  class NumberInput {
    var raw: string
    var value: int
    const min: Option<int>
    const max: Option<int>

    constructor (value: int, min: Option<int>, max: Option<int>)
      ensures this.value == value && raw == IntToString(value) && this.min == min && this.max == max
    {
      this.value, this.min, this.max := value, min, max;
      raw := IntToString(value);
    }

    /** `clamp`. */
    method Clamp(n: int) returns (r: int)
      ensures r == Clamped(n, min, max)
    {
      r := n;
      if min.Some? && r < min.value {
        r := min.value;
      }
      if max.Some? && r > max.value {
        r := max.value;
      }
    }

    /** `handleChange`: only a draft replaces the text. */
    method HandleChange(t: string)
      modifies this
      ensures raw == (if IsDraft(t) then t else old(raw))
      ensures value == old(value)
    {
      if IsDraft(t) {
        raw := t;
      }
    }

    /** `commit`: the value becomes the clamped number (or the clamped old value), and the text shows it. */
    method Commit()
      modifies this
      ensures value == Committed(old(raw), old(value), min, max)
      ensures raw == IntToString(value)
    {
      if raw == "" || raw == "-" {
        var n := Clamp(value);
        raw := IntToString(n);
        value := n;
        return;
      }
      var parsed := value;
      var number := ParseDraft(raw);
      if number.Some? {
        parsed := number.value;
      }
      parsed := Clamp(parsed);
      value := parsed;
      raw := IntToString(parsed);
    }
  }
}
