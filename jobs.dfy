/**
 * Running one job (primitive/backend/app/jobs.py): the argv handed to the
 * `primitive` tool, the progress estimate while it runs, and the status
 * transitions pending -> running -> succeeded | failed.
 *
 * The subprocess is an input: `Launch` says whether it could be spawned,
 * which lines it printed (each with what listing the output directory gave
 * at that moment) and its exit code. Broadcasts are returned as payloads.
 */
module Jobs {
  import opened Wrappers
  import opened Text
  import opened Models

  /** Parameter names the tool understands, with their flags. */
  const FlagMap: map<string, string> := map[
    "n" := "-n", "m" := "-m", "rep" := "-rep", "nth" := "-nth", "r" := "-r",
    "s" := "-s", "a" := "-a", "bg" := "-bg", "j" := "-j", "v" := "-v"]

  /** `v in (None, "", False)`: membership in a tuple tests with `==`, so `0` is dropped too. */
  predicate Skipped(v: ParamValue) {
    PyEq(v, NoneVal) || PyEq(v, StrVal("")) || PyEq(v, BoolVal(false))
  }

  /** The values the command builder drops are exactly the falsy ones, integer 0 among them. */
  lemma SkippedIsFalsy(v: ParamValue)
    ensures Skipped(v) <==> !Truthy(v)
    ensures Skipped(IntVal(0))
  {
  }

  function OutputPng(outputDir: string): string {
    JoinPath(outputDir, "output.png")
  }

  function FramePatternIn(outputDir: string): string {
    JoinPath(outputDir, "frame-%05d.png")
  }

  /** `frame_pattern`: set only when `params.get("nth")` is truthy. */
  function FramePattern(outputDir: string, params: Params): (r: Option<string>)
    ensures r.Some? <==> Get(params, "nth").Some? && Truthy(Get(params, "nth").value)
  {
    match Get(params, "nth")
    case Some(v) => if Truthy(v) then Some(FramePatternIn(outputDir)) else None
    case None => None
  }

  /** The fixed start of every command line. */
  function CommandHead(exe: string, inputPath: string, outputDir: string): seq<string> {
    [exe, "-i", inputPath, "-o", OutputPng(outputDir)]
  }

  /** The extra `-o <frame pattern>` that goes in front of `-nth` when frames are written. */
  function FrameOutput(k: string, framePattern: Option<string>): seq<string> {
    if k == "nth" && framePattern.Some? then ["-o", framePattern.value] else []
  }

  /**
   * The arguments one `(k, v)` entry of the params contributes: nothing for
   * a skipped value or a key `FlagMap` does not know, otherwise its flag and
   * `str(v)`, preceded by the frame output for `nth` (a key `FlagMap` knows).
   */
  function ParamFlags(k: string, v: ParamValue, framePattern: Option<string>): seq<string> {
    if Skipped(v) || k !in FlagMap then [] else FrameOutput(k, framePattern) + [FlagMap[k], PyStr(v)]
  }

  /** The flags `FlagMap` can produce. */
  predicate IsFlag(s: string) {
    s in {"-n", "-m", "-rep", "-nth", "-r", "-s", "-a", "-bg", "-j", "-v"}
  }

  /**
   * An entry contributes nothing exactly when its value is falsy or its key
   * unknown; any other entry but a framed `nth` contributes a flag and its value.
   */
  lemma ParamFlagsShape(k: string, v: ParamValue, framePattern: Option<string>)
    ensures var r := ParamFlags(k, v, framePattern);
      && (r == [] <==> !Truthy(v) || k !in FlagMap)
      && (framePattern.None? || k != "nth" ==> r == [] || (r == [FlagMap[k], PyStr(v)] && IsFlag(r[0])))
      && (k == "nth" && framePattern.Some? && Truthy(v) ==> r == ["-o", framePattern.value, "-nth", PyStr(v)])
  {
    SkippedIsFalsy(v);
  }

  /** The arguments all params contribute, in iteration order. */
  function Flags(params: Params, framePattern: Option<string>): seq<string> {
    if params == [] then []
    else ParamFlags(params[0].0, params[0].1, framePattern) + Flags(params[1..], framePattern)
  }

  /** The argv of `_run_primitive`, built by extending the head in place. */
  method BuildCommand(exe: string, inputPath: string, outputDir: string, params: Params)
    returns (cmd: seq<string>)
    ensures cmd == CommandHead(exe, inputPath, outputDir) + Flags(params, FramePattern(outputDir, params))
    ensures |cmd| >= 5 && cmd[..5] == [exe, "-i", inputPath, "-o", OutputPng(outputDir)]
  {
    var framePattern := FramePattern(outputDir, params);
    cmd := [exe, "-i", inputPath, "-o", OutputPng(outputDir)];
    var i := 0;
    while i < |params|
      invariant 0 <= i <= |params|
      invariant cmd == CommandHead(exe, inputPath, outputDir) + Flags(params[..i], framePattern)
    {
      var (k, v) := params[i];
      cmd := ExtendWithParam(cmd, k, v, framePattern);
      assert params[..i + 1] == params[..i] + [params[i]];
      FlagsSnoc(params[..i], params[i], framePattern);
      i := i + 1;
    }
    assert params[..|params|] == params;
  }

  /** One iteration of the loop over `params.items()`: `cmd.extend(...)` with the arguments of `(k, v)`. */
  method ExtendWithParam(cmd: seq<string>, k: string, v: ParamValue, framePattern: Option<string>) returns (extended: seq<string>)
    ensures extended == cmd + ParamFlags(k, v, framePattern)
  {
    extended := cmd;
    if Skipped(v) {
    } else if k == "nth" && framePattern.Some? {
      extended := extended + ["-o", framePattern.value, FlagMap[k], PyStr(v)];
    } else if k in FlagMap {
      extended := extended + [FlagMap[k], PyStr(v)];
    }
  }

  /** The arguments of a concatenation are the concatenation of the arguments. */
  lemma {:induction false} FlagsAppend(p: Params, q: Params, framePattern: Option<string>)
    ensures Flags(p + q, framePattern) == Flags(p, framePattern) + Flags(q, framePattern)
  {
    if p != [] {
      assert (p + q)[1..] == p[1..] + q;
      FlagsAppend(p[1..], q, framePattern);
      var a, b, c := ParamFlags(p[0].0, p[0].1, framePattern), Flags(p[1..], framePattern), Flags(q, framePattern);
      assert Flags(p + q, framePattern) == a + (b + c);
      assert a + (b + c) == (a + b) + c;
    } else {
      assert p + q == q;
    }
  }

  /** One more entry adds its own arguments at the end. */
  lemma FlagsSnoc(p: Params, x: (string, ParamValue), framePattern: Option<string>)
    ensures Flags(p + [x], framePattern) == Flags(p, framePattern) + ParamFlags(x.0, x.1, framePattern)
  {
    FlagsAppend(p, [x], framePattern);
    assert [x][1..] == [];
  }

  lemma FlagsSingle(k: string, v: ParamValue, framePattern: Option<string>)
    ensures Flags([(k, v)], framePattern) == ParamFlags(k, v, framePattern)
  {
    assert [(k, v)][..0] == [];
  }

  lemma FlagsAround(p: Params, x: (string, ParamValue), q: Params, framePattern: Option<string>)
    ensures Flags(p + [x] + q, framePattern) == Flags(p, framePattern) + ParamFlags(x.0, x.1, framePattern) + Flags(q, framePattern)
  {
    FlagsSingle(x.0, x.1, framePattern);
    FlagsAppend(p + [x], q, framePattern);
    FlagsAppend(p, [x], framePattern);
  }

  /** A falsy value (0 included) or an unknown key adds nothing, wherever it stands. */
  lemma DroppedParamAddsNothing(p: Params, k: string, v: ParamValue, q: Params, framePattern: Option<string>)
    requires !Truthy(v) || k !in FlagMap
    ensures Flags(p + [(k, v)] + q, framePattern) == Flags(p + q, framePattern)
  {
    SkippedIsFalsy(v);
    assert ParamFlags(k, v, framePattern) == [];
    FlagsSingle(k, v, framePattern);
    FlagsAppend(p + [(k, v)], q, framePattern);
    FlagsAppend(p, [(k, v)], framePattern);
    assert Flags(p + [(k, v)], framePattern) == Flags(p, framePattern);
    FlagsAppend(p, q, framePattern);
  }

  /** A known key with a truthy value adds its flag and `str(v)` right after what precedes it. */
  lemma KeptParamAddsFlag(p: Params, k: string, v: ParamValue, q: Params, framePattern: Option<string>)
    requires Truthy(v) && k in FlagMap && (k != "nth" || framePattern.None?)
    ensures Flags(p + [(k, v)] + q, framePattern)
         == Flags(p, framePattern) + [FlagMap[k], PyStr(v)] + Flags(q, framePattern)
  {
    SkippedIsFalsy(v);
    FlagsAround(p, (k, v), q, framePattern);
  }

  lemma {:induction false} GetFindsFirst(params: Params, key: string)
    requires Get(params, key).Some?
    ensures exists i :: 0 <= i < |params| && params[i] == (key, Get(params, key).value)
  {
    if params[0].0 != key {
      GetFindsFirst(params[1..], key);
      var i :| 0 <= i < |params[1..]| && params[1..][i] == (key, Get(params[1..], key).value);
      assert params[i + 1] == params[1..][i];
    }
  }

  /** The entry at `idx` contributes its arguments between those of the entries before and after it. */
  lemma FlagsAt(params: Params, idx: nat, framePattern: Option<string>)
    requires idx < |params|
    ensures Flags(params, framePattern) ==
      Flags(params[..idx], framePattern) + ParamFlags(params[idx].0, params[idx].1, framePattern) + Flags(params[idx + 1..], framePattern)
  {
    assert params == params[..idx] + [params[idx]] + params[idx + 1..];
    FlagsAround(params[..idx], params[idx], params[idx + 1..], framePattern);
  }

  /** A truthy `nth` puts the frame pattern and `-nth` on the command line, side by side. */
  lemma NthAddsFrameOutput(exe: string, inputPath: string, outputDir: string, params: Params)
    requires Get(params, "nth").Some? && Truthy(Get(params, "nth").value)
    ensures var cmd := CommandHead(exe, inputPath, outputDir) + Flags(params, FramePattern(outputDir, params));
      exists i :: 5 <= i <= |cmd| - 4 && cmd[i] == "-o" && cmd[i + 1] == FramePatternIn(outputDir) &&
        cmd[i + 2] == "-nth" && cmd[i + 3] == PyStr(Get(params, "nth").value)
  {
    var v := Get(params, "nth").value;
    var fp := FramePattern(outputDir, params);
    assert fp == Some(FramePatternIn(outputDir));
    GetFindsFirst(params, "nth");
    var idx :| 0 <= idx < |params| && params[idx] == ("nth", v);
    var run := ["-o", FramePatternIn(outputDir), "-nth", PyStr(v)];
    var head := CommandHead(exe, inputPath, outputDir);
    NthRun(params, idx, fp, run, head);
  }

  /** The `nth` entry at `idx` puts its four arguments, side by side, somewhere after the head. */
  lemma NthRun(params: Params, idx: nat, fp: Option<string>, run: seq<string>, head: seq<string>)
    requires idx < |params| && params[idx].0 == "nth" && Truthy(params[idx].1) && fp.Some?
    requires run == ["-o", fp.value, "-nth", PyStr(params[idx].1)]
    ensures var cmd := head + Flags(params, fp);
      exists i :: |head| <= i <= |cmd| - 4 && cmd[i] == run[0] && cmd[i + 1] == run[1] && cmd[i + 2] == run[2] && cmd[i + 3] == run[3]
  {
    ParamFlagsShape("nth", params[idx].1, fp);
    FlagsAt(params, idx, fp);
    var before, after := Flags(params[..idx], fp), Flags(params[idx + 1..], fp);
    RunBetween(head, before, run, after, Flags(params, fp));
  }

  /** A run inside the flags appears in the command at some position after the head. */
  lemma RunBetween(head: seq<string>, before: seq<string>, run: seq<string>, after: seq<string>, flags: seq<string>)
    requires |run| == 4 && flags == before + run + after
    ensures var cmd := head + flags;
      exists i :: |head| <= i <= |cmd| - 4 && cmd[i] == run[0] && cmd[i + 1] == run[1] && cmd[i + 2] == run[2] && cmd[i + 3] == run[3]
  {
    var cmd := head + flags;
    var i := |head| + |before|;
    assert cmd == (head + before) + run + after;
    assert cmd[i] == run[0] && cmd[i + 1] == run[1] && cmd[i + 2] == run[2] && cmd[i + 3] == run[3];
  }

  lemma {:induction false} FlagPositions(params: Params)
    ensures |Flags(params, None)| % 2 == 0
    ensures forall i | 0 <= i < |Flags(params, None)| && i % 2 == 0 :: IsFlag(Flags(params, None)[i])
  {
    if params != [] {
      var init := params[..|params| - 1];
      var last := params[|params| - 1];
      FlagPositions(init);
      ParamFlagsShape(last.0, last.1, None);
      var f, g := Flags(init, None), ParamFlags(last.0, last.1, None);
      assert params == init + [last];
      FlagsSnoc(init, last, None);
      forall i | 0 <= i < |f + g| && i % 2 == 0 ensures IsFlag((f + g)[i]) {
        if i < |f| {
          assert (f + g)[i] == f[i];
        } else {
          assert i == |f|;
          assert (f + g)[i] == g[0];
        }
      }
    }
  }

  /**
   * Without a truthy `nth` there is no frame pattern: every flag position
   * after the head holds a flag of `FlagMap`, so `-o` appears only once.
   */
  lemma NoFrameOutputWithoutNth(exe: string, inputPath: string, outputDir: string, params: Params)
    requires Get(params, "nth").None? || !Truthy(Get(params, "nth").value)
    ensures var cmd := CommandHead(exe, inputPath, outputDir) + Flags(params, FramePattern(outputDir, params));
      cmd[3] == "-o" && forall i | 5 <= i < |cmd| && i % 2 == 1 :: cmd[i] != "-o"
  {
    var cmd := CommandHead(exe, inputPath, outputDir) + Flags(params, None);
    FlagPositions(params);
    assert !IsFlag("-o");
    forall i | 5 <= i < |cmd| && i % 2 == 1 ensures cmd[i] != "-o" {
      assert cmd[i] == Flags(params, None)[i - 5];
    }
  }

  // ------------------------------------------------------------- progress

  /** `int(params.get("n") or 100)`; a string that is not an integer raises, as `int()` does. */
  function Total(params: Params): (r: Result<int, string>)
    ensures Get(params, "n").None? ==> r == Success(100)
    ensures Get(params, "n").Some? && !Truthy(Get(params, "n").value) ==> r == Success(100)
    ensures var n := Get(params, "n");
      n.Some? && n.value.IntVal? && n.value.i != 0 ==> r == Success(n.value.i)
    ensures var n := Get(params, "n");
      r.Failure? <==> n.Some? && n.value.StrVal? && n.value.s != "" && ParseInt(n.value.s).None?
  {
    match Get(params, "n")
    case None => Success(100)
    case Some(v) =>
      if !Truthy(v) then Success(100)
      else match v
        case IntVal(i) => Success(i)
        case BoolVal(_) => Success(1)
        case StrVal(s) =>
          (match ParseInt(s)
           case Some(i) => Success(i)
           case None => Failure(IntError(s)))
        case NoneVal => Success(100)
  }

  /** `min(99, frames / max(total, 1) * 100)`, with the division done on integers. */
  function FrameProgress(frames: nat, total: int): (p: int)
    ensures 0 <= p <= 99
  {
    var d := if total > 1 then total else 1;
    var q := frames * 100 / d;
    if q < 99 then q else 99
  }

  lemma MulMonotone(x: int, y: int, d: int)
    requires x <= y && d > 0
    ensures d * x <= d * y
  {
    assert d * y - d * x == d * (y - x);
  }

  lemma DivMonotone(a: nat, b: nat, d: int)
    requires a <= b && d > 0
    ensures a / d <= b / d
  {
    var qa, qb := a / d, b / d;
    assert a == d * qa + a % d && 0 <= a % d < d;
    assert b == d * qb + b % d && 0 <= b % d < d;
    if qa > qb {
      MulMonotone(qb + 1, qa, d);
    }
  }

  /** More frames on disk never lower the estimate. */
  lemma FrameProgressMonotone(f1: nat, f2: nat, total: int)
    requires f1 <= f2
    ensures FrameProgress(f1, total) <= FrameProgress(f2, total)
  {
    var d := if total > 1 then total else 1;
    DivMonotone(f1 * 100, f2 * 100, d);
  }

  /** Once as many frames as shapes exist, the estimate stays at its cap of 99. */
  lemma FrameProgressCapped(frames: nat, total: int)
    requires frames >= total && frames > 0
    ensures FrameProgress(frames, total) == 99
  {
    var d := if total > 1 then total else 1;
    var q := frames * 100 / d;
    assert frames * 100 == d * q + (frames * 100) % d && (frames * 100) % d < d;
    if q < 99 {
      assert d * (q + 1) == d * q + d;
      MulMonotone(q + 1, 99, d);
      MulMonotone(d, frames, 100);
      assert false;
    }
  }

  // -------------------------------------------------------------- running

  /**
   * One line the process printed, with what listing the output directory
   * gave right after (`None`: the directory was missing or could not be listed).
   */
  datatype OutputLine = OutputLine(raw: string, listing: Option<seq<string>>)

  /** What the subprocess did: it could not be spawned, or it printed lines and exited. */
  datatype Launch = SpawnFailed(error: string) | Spawned(lines: seq<OutputLine>, exitCode: int)

  /** A message handed to `notifier.broadcast` for the job. */
  datatype Payload =
    | LogPayload(message: string, progress: int)
    | DonePayload(status: JobStatus, progress: int)
    | ErrorPayload(message: string)

  /** How many of the names start with `frame-`. */
  function CountFrames(names: seq<string>): (n: nat)
    ensures n <= |names|
  {
    if names == [] then 0
    else CountFrames(names[..|names| - 1]) + (if StartsWith(names[|names| - 1], "frame-") then 1 else 0)
  }

  /** The state the `async for` loop over the process output carries. */
  datatype Stream = Stream(job: Job, frames: nat, sent: seq<Payload>)

  /** One iteration of the loop: recount frames, estimate progress, store the line, broadcast it. */
  function StepLine(st: Stream, line: OutputLine, framesEnabled: bool, total: int): Stream {
    var frames := if framesEnabled && line.listing.Some? then CountFrames(line.listing.value) else st.frames;
    var progress := if framesEnabled then FrameProgress(frames, total) else st.job.progress;
    var text := RStrip(line.raw);
    Stream(st.job.(progress := progress, message := Some(text)), frames, st.sent + [LogPayload(text, progress)])
  }

  function StreamLines(st: Stream, lines: seq<OutputLine>, framesEnabled: bool, total: int): Stream {
    if lines == [] then st
    else StepLine(StreamLines(st, lines[..|lines| - 1], framesEnabled, total), lines[|lines| - 1], framesEnabled, total)
  }

  /**
   * What the output loop does to the job: only progress and message change;
   * each line is broadcast once, in order; without frames the progress stays
   * where it was, with frames it is at most 99; the message is the last line.
   */
  lemma {:induction false} StreamEffect(st: Stream, lines: seq<OutputLine>, framesEnabled: bool, total: int)
    ensures var r := StreamLines(st, lines, framesEnabled, total);
      r.job == st.job.(progress := r.job.progress, message := r.job.message)
    ensures var r := StreamLines(st, lines, framesEnabled, total);
      |r.sent| == |st.sent| + |lines| && r.sent[..|st.sent|] == st.sent
    ensures var r := StreamLines(st, lines, framesEnabled, total);
      forall j | |st.sent| <= j < |r.sent| :: r.sent[j].LogPayload? && r.sent[j].message == RStrip(lines[j - |st.sent|].raw)
    ensures var r := StreamLines(st, lines, framesEnabled, total);
      !framesEnabled ==> r.job.progress == st.job.progress
    ensures var r := StreamLines(st, lines, framesEnabled, total);
      framesEnabled && lines != [] ==> 0 <= r.job.progress <= 99
    ensures var r := StreamLines(st, lines, framesEnabled, total);
      lines != [] ==> r.job.message == Some(RStrip(lines[|lines| - 1].raw))
  {
    if lines != [] {
      var init, line := lines[..|lines| - 1], lines[|lines| - 1];
      StreamEffect(st, init, framesEnabled, total);
      var mid := StreamLines(st, init, framesEnabled, total);
      var r := StepLine(mid, line, framesEnabled, total);
      assert StreamLines(st, lines, framesEnabled, total) == r;
      assert r.sent == mid.sent + [LogPayload(RStrip(line.raw), r.job.progress)];
      forall j | |st.sent| <= j < |r.sent|
        ensures r.sent[j].LogPayload? && r.sent[j].message == RStrip(lines[j - |st.sent|].raw)
      {
        if j < |mid.sent| {
          assert lines[j - |st.sent|] == init[j - |st.sent|];
          assert r.sent[j] == mid.sent[j];
        }
      }
    }
  }

  /** The job record and the broadcasts after `run_job`. */
  datatype Run = Run(job: Job, sent: seq<Payload>)

  /** The `except Exception as e` branch of `run_job`. */
  function Raise(job: Job, error: string): Run {
    Run(job.(status := Failed, message := Some("error: " + error)), [ErrorPayload(error)])
  }

  /**
   * `_run_primitive` and the outcome handling of `run_job`, for a job already
   * marked running. An exception can come from the spawn or from `int(n)`;
   * both happen before any output line is read.
   */
  function Execute(job: Job, launch: Launch): Run {
    match launch
    case SpawnFailed(e) => Raise(job, e)
    case Spawned(lines, code) =>
      match Total(job.params)
      case Failure(e) => Raise(job, e)
      case Success(total) =>
        var st := StreamLines(Stream(job, 0, []), lines, FramePattern(job.outputDir, job.params).Some?, total);
        if code == 0 then
          Run(st.job.(status := Succeeded, progress := 100, message := Some("done: " + OutputPng(job.outputDir))),
              st.sent + [DonePayload(Succeeded, 100)])
        else
          Run(st.job.(status := Failed, message := Some("primitive exited with code " + IntToString(code))),
              st.sent + [DonePayload(Failed, st.job.progress)])
  }

  /** A run always ends succeeded or failed, its last broadcast says so, and only status, progress and message change. */
  lemma ExecuteEndsTerminal(job: Job, launch: Launch)
    ensures var r := Execute(job, launch);
      && (r.job.status == Succeeded || r.job.status == Failed)
      && r.job == job.(status := r.job.status, progress := r.job.progress, message := r.job.message)
      && |r.sent| > 0
      && (r.sent[|r.sent| - 1] == DonePayload(r.job.status, r.job.progress) || r.sent[|r.sent| - 1].ErrorPayload?)
  {
    if launch.Spawned? && Total(job.params).Success? {
      StreamEffect(Stream(job, 0, []), launch.lines, FramePattern(job.outputDir, job.params).Some?, Total(job.params).value);
    }
  }

  /** The job succeeds exactly when the process ran and exited with 0; it then reports 100 and the output path. */
  lemma ExecuteSucceedsIffExitZero(job: Job, launch: Launch)
    ensures var r := Execute(job, launch);
      r.job.status == Succeeded <==> launch.Spawned? && Total(job.params).Success? && launch.exitCode == 0
    ensures var r := Execute(job, launch);
      r.job.status == Succeeded ==>
        r.job.progress == 100 && r.job.message == Some("done: " + OutputPng(job.outputDir))
  {
    if launch.Spawned? && Total(job.params).Success? {
      StreamEffect(Stream(job, 0, []), launch.lines, FramePattern(job.outputDir, job.params).Some?, Total(job.params).value);
    }
  }

  /** A non-zero exit fails the job with the exit code in the message and leaves the streamed progress, below 100. */
  lemma ExecuteNonZeroExit(job: Job, lines: seq<OutputLine>, code: int)
    requires code != 0 && Total(job.params).Success?
    ensures var r := Execute(job, Spawned(lines, code));
      && r.job.status == Failed
      && r.job.message == Some("primitive exited with code " + IntToString(code))
      && (FramePattern(job.outputDir, job.params).None? ==> r.job.progress == job.progress)
      && (FramePattern(job.outputDir, job.params).Some? && lines != [] ==> 0 <= r.job.progress <= 99)
      && |r.sent| == |lines| + 1
  {
    StreamEffect(Stream(job, 0, []), lines, FramePattern(job.outputDir, job.params).Some?, Total(job.params).value);
  }

  /** An exception fails the job with `error: <e>`, leaves its progress alone and broadcasts only the error. */
  lemma ExecuteRaised(job: Job, launch: Launch)
    requires launch.SpawnFailed? || Total(job.params).Failure?
    ensures var e := if launch.SpawnFailed? then launch.error else Total(job.params).error;
      var r := Execute(job, launch);
      r.job.status == Failed && r.job.progress == job.progress &&
      r.job.message == Some("error: " + e) && r.sent == [ErrorPayload(e)]
  {
  }

  /** The job table, and `create_job` / `run_job` over it. */
  class JobStore {
    var jobs: map<string, Job>

    constructor ()
      ensures jobs == map[]
    {
      jobs := map[];
    }

    /** `create_job`; `jobId` stands for the fresh `uuid4().hex`. */
    method CreateJob(jobId: string, jobsDir: string, inputPath: string, params: Params) returns (job: Job)
      requires jobId !in jobs
      modifies this
      ensures job.id == jobId && job.inputPath == inputPath && job.params == params
      ensures job.outputDir == JoinPath(jobsDir, jobId)
      ensures job.status == Pending && job.progress == 0 && job.message == None
      ensures jobs == old(jobs)[jobId := job]
    {
      job := Job(jobId, inputPath, JoinPath(jobsDir, jobId), params, Pending, None, 0);
      jobs := jobs[jobId := job];
    }

    /**
     * `run_job`: an unknown id changes nothing; otherwise the job is marked
     * running, the command is built, and the outcome of the process decides
     * the final record, as `Execute` says.
     */
    method RunJob(jobId: string, exe: string, launch: Launch) returns (cmd: seq<string>, sent: seq<Payload>)
      modifies this
      ensures jobId !in old(jobs) ==> jobs == old(jobs) && cmd == [] && sent == []
      ensures jobId in old(jobs) ==>
        var job := old(jobs)[jobId].(status := Running);
        && cmd == CommandHead(exe, job.inputPath, job.outputDir) + Flags(job.params, FramePattern(job.outputDir, job.params))
        && jobs == old(jobs)[jobId := Execute(job, launch).job]
        && sent == Execute(job, launch).sent
    {
      if jobId !in jobs {
        return [], [];
      }
      var job := jobs[jobId].(status := Running);
      jobs := jobs[jobId := job];
      cmd := BuildCommand(exe, job.inputPath, job.outputDir, job.params);
      sent := Finish(jobId, job, launch);
    }

    /** The `try` / `except` of `run_job`, for a job already marked running. */
    method Finish(jobId: string, job: Job, launch: Launch) returns (sent: seq<Payload>)
      requires jobId in jobs && jobs[jobId] == job
      modifies this
      ensures jobs == old(jobs)[jobId := Execute(job, launch).job] && sent == Execute(job, launch).sent
    {
      if launch.SpawnFailed? {
        assert Execute(job, launch) == Raise(job, launch.error);
        jobs := jobs[jobId := job.(status := Failed, message := Some("error: " + launch.error))];
        sent := [ErrorPayload(launch.error)];
        return;
      }
      var totalOrError := Total(job.params);
      if totalOrError.Failure? {
        var e := totalOrError.error;
        assert Execute(job, launch) == Raise(job, e);
        jobs := jobs[jobId := job.(status := Failed, message := Some("error: " + e))];
        sent := [ErrorPayload(e)];
        return;
      }
      var framesEnabled := FramePattern(job.outputDir, job.params).Some?;
      sent := StreamOutput(jobId, job, launch.lines, framesEnabled, totalOrError.value);
      ghost var st := StreamLines(Stream(job, 0, []), launch.lines, framesEnabled, totalOrError.value);
      assert jobs[jobId] == st.job && sent == st.sent;
      if launch.exitCode == 0 {
        ghost var done := st.job.(status := Succeeded, progress := 100, message := Some("done: " + OutputPng(job.outputDir)));
        assert Execute(job, launch) == Run(done, st.sent + [DonePayload(Succeeded, 100)]);
        jobs := jobs[jobId := jobs[jobId].(status := Succeeded, progress := 100, message := Some("done: " + OutputPng(job.outputDir)))];
        sent := sent + [DonePayload(Succeeded, 100)];
      } else {
        ghost var failed := st.job.(status := Failed, message := Some("primitive exited with code " + IntToString(launch.exitCode)));
        assert Execute(job, launch) == Run(failed, st.sent + [DonePayload(Failed, st.job.progress)]);
        jobs := jobs[jobId := jobs[jobId].(status := Failed, message := Some("primitive exited with code " + IntToString(launch.exitCode)))];
        sent := sent + [DonePayload(Failed, jobs[jobId].progress)];
      }
    }

    /** The `async for` loop over the process output, for a job whose record is `job`. */
    method StreamOutput(jobId: string, job: Job, lines: seq<OutputLine>, framesEnabled: bool, total: int)
      returns (sent: seq<Payload>)
      requires jobId in jobs && jobs[jobId] == job
      modifies this
      ensures var r := StreamLines(Stream(job, 0, []), lines, framesEnabled, total);
        jobs == old(jobs)[jobId := r.job] && sent == r.sent
    {
      var frames := 0;
      sent := [];
      var i := 0;
      while i < |lines|
        invariant 0 <= i <= |lines|
        invariant jobId in jobs && jobs == old(jobs)[jobId := jobs[jobId]]
        invariant Stream(jobs[jobId], frames, sent) == StreamLines(Stream(job, 0, []), lines[..i], framesEnabled, total)
      {
        var line := lines[i];
        if framesEnabled && line.listing.Some? {
          frames := CountFrames(line.listing.value);
        }
        var progress := if framesEnabled then FrameProgress(frames, total) else jobs[jobId].progress;
        var text := RStrip(line.raw);
        jobs := jobs[jobId := jobs[jobId].(progress := progress, message := Some(text))];
        sent := sent + [LogPayload(text, progress)];
        assert lines[..i + 1][..i] == lines[..i];
        i := i + 1;
      }
      assert lines[..|lines|] == lines;
    }
  }
}
