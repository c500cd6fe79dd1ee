/** The orchestrator task of the Tauri back end. It owns `is_recording`,
    `recording_start_time` and `level_poll_task`. Each toggle request either
    starts a recording or runs the whole stop pipeline: save, transcribe,
    deliver, log. Every call it makes to the outside world is recorded, in
    order, as an `Effect`, together with the result the call returned; those
    results are inputs of the step (`ToggleEnv`). The level-poll task and the
    delayed "idle" timers run beside the loop; they are modelled as further
    inputs that the scheduler interleaves with the toggles. */
module Orchestrator {
  import opened Wrappers
  import opened Numeric
  import opened Commands
  import Text
  import Delivery
  import SessionStore
  import opened AudioWorker
  import Badge

  /** `level_poll_task`: no handle, a handle whose loop still runs, or a handle
      whose loop has ended because the worker channel is closed. */
  datatype PollTask = NoTask | Polling | Exited

  datatype Effect =
    /** A command handed to the worker, with what came back on its reply channel. */
    | Sent(cmd: AudioCommand, reply: Reply)
    /** `emit("badge-state", ...)`. */
    | BadgeEmitted(state: Badge.BadgeState)
    /** `emit("audio-level", ...)` from the poll task. */
    | LevelEmitted(level: real)
    | PollSpawned
    | PollAborted
    /** `whisper::transcribe(audio, model)` and its result. */
    | Transcribed(audio: string, model: string, transcript: Result<string, string>)
    /** `copy_to_clipboard(text, append)` and what it wrote or why it failed. */
    | Copied(text: string, appendMode: bool, written: Result<string, string>)
    | Notified(notification: Delivery.Notification)
    /** `log_session(record)` and its result. */
    | Logged(record: SessionStore.SessionRecord, inserted: Result<(), SessionStore.DbError>)
    /** A task that will emit "idle" three seconds later. */
    | IdleScheduled

  /** What is fixed for the life of the orchestrator: the `append_mode` of the
      configuration as loaded at start-up, the temporary directory and the platform. */
  datatype Config = Config(appendMode: bool, tempDir: string, platform: Delivery.Platform)

  /** What the outside world answers during one toggle. */
  datatype ToggleEnv = ToggleEnv(
    /** `microphone` of the live configuration (read on start). */
    microphone: Option<string>,
    /** `model_name` of the live configuration (read on stop). */
    modelName: string,
    /** `Config::get_models_dir()`, `None` when it fails. */
    modelsDir: Option<string>,
    /** `db::current_timestamp()`. */
    now: I64,
    /** What the capture device and the WAV writer do for this toggle's command. */
    audio: WorkerEnv,
    transcription: Result<string, string>,
    /** Milliseconds between the end of saving and the reading of the elapsed time. */
    elapsedMs: nat,
    clipboard: Delivery.ClipboardBackend,
    /** Whether the INSERT fails. */
    dbFault: Option<string>)

  /** The orchestrator's variables, the pending idle timers, the worker and the table. */
  datatype Sys = Sys(
    isRecording: bool,
    startTime: I64,
    poll: PollTask,
    pendingIdle: nat,
    worker: WorkerState,
    table: SessionStore.Table)

  /** The state at launch: not recording, no poll task, no timers, a fresh worker,
      and the table the database file already holds. */
  function Launch(existing: SessionStore.Table): (s: Sys)
    ensures !s.isRecording && s.poll == NoTask && s.pendingIdle == 0
    ensures s.worker == Fresh && s.table == existing
  {
    Sys(false, 0, NoTask, 0, Fresh, existing)
  }

  const AUDIO_FILE_NAME: string := "voiceclip_audio.wav"

  /** `PathBuf::join` for a relative file name. */
  function JoinPath(dir: string, name: string): (path: string)
    ensures |name| <= |path| && path[|path| - |name|..] == name
  {
    if dir == [] then name
    else if dir[|dir| - 1] == '/' then dir + name
    else dir + "/" + name
  }

  function SavePath(cfg: Config): string {
    JoinPath(cfg.tempDir, AUDIO_FILE_NAME)
  }

  function ModelPath(cfg: Config, env: ToggleEnv): string {
    JoinPath(env.modelsDir.GetOr(cfg.tempDir), env.modelName)
  }

  /** The orchestrator's invariant: a poll handle exists exactly while recording,
      no recorder is open while not recording, a stopped worker holds none, and
      the table keeps its id order. */
  ghost predicate Consistent(s: Sys) {
    && (s.poll != NoTask <==> s.isRecording)
    && (!s.isRecording ==> s.worker.recorder.None?)
    && (!s.worker.running ==> s.worker.recorder.None?)
    && SessionStore.TableInvariant(s.table)
  }

  /** Every launch starts consistent, on a new database file or on one with earlier sessions. */
  lemma InitialConsistent(existing: SessionStore.Table)
    requires SessionStore.TableInvariant(existing)
    ensures Consistent(Launch(existing))
  {
  }

  // ---------------------------------------------------------------- toggle

  /** The start branch. The badge shows "recording" whatever the worker does with `Start`. */
  function StartBranch(s: Sys, env: ToggleEnv): (r: (Sys, seq<Effect>))
  {
    var (w, reply) := Serve(s.worker, Start(env.microphone), env.audio);
    (Sys(true, env.now, Polling, s.pendingIdle, w, s.table),
     [Sent(Start(env.microphone), reply), BadgeEmitted(Badge.Recording), PollSpawned])
  }

  /** `reply_rx.await.unwrap_or_else(...)`: a reply channel closed without an answer
      counts as a failed stop. */
  function StopResult(reply: Reply): Result<(), string> {
    match reply
    case SaveReply(result) => result
    case _ => Failure("Audio thread died")
  }

  /** The record of a completed transcription: the start time, the duration
      cut to u32, the number of whitespace-separated words, the model, the
      text itself, the latency and no error. */
  function SuccessRecord(s: Sys, cfg: Config, env: ToggleEnv, text: string): (r: SessionStore.SessionRecord)
    ensures r.error.None? && r.transcription == text && r.modelUsed == ModelPath(cfg, env)
    ensures r.wordCount == |Text.SplitWhitespace(text)| % U32_LIMIT
    ensures r.startedAt == s.startTime && r.durationSecs == (env.now - s.startTime) % U32_LIMIT
    ensures r.latencyMs == env.elapsedMs % U32_LIMIT
  {
    SessionStore.SessionRecord(
      s.startTime, AsU32(env.now - s.startTime), AsU32(Text.WordCount(text)),
      ModelPath(cfg, env), text, AsU32(env.elapsedMs), None)
  }

  /** The record of a failed transcription: no words, an empty transcription
      and the error message, with the same times and model as a success. */
  function FailureRecord(s: Sys, cfg: Config, env: ToggleEnv, message: string): (r: SessionStore.SessionRecord)
    ensures r.error == Some(message) && r.transcription == "" && r.wordCount == 0
    ensures r.modelUsed == ModelPath(cfg, env)
    ensures r.startedAt == s.startTime && r.durationSecs == (env.now - s.startTime) % U32_LIMIT
    ensures r.latencyMs == env.elapsedMs % U32_LIMIT
  {
    SessionStore.SessionRecord(
      s.startTime, AsU32(env.now - s.startTime), 0,
      ModelPath(cfg, env), "", AsU32(env.elapsedMs), Some(message))
  }

  /** Everything after a successful stop: transcription, delivery and logging. */
  function TranscribeBranch(s: Sys, cfg: Config, env: ToggleEnv): (r: (SessionStore.Table, nat, seq<Effect>))
  {
    var model := ModelPath(cfg, env);
    var transcribed := Transcribed(SavePath(cfg), model, env.transcription);
    match env.transcription
    case Success(text) =>
      var record := SuccessRecord(s, cfg, env, text);
      var (table, logged) := SessionStore.Insert(s.table, record, env.dbFault);
      (table, s.pendingIdle + 1,
       [transcribed,
        Copied(text, cfg.appendMode, Delivery.CopyToClipboard(text, cfg.appendMode, env.clipboard)),
        Notified(Delivery.TauriNotification("VoiceClip Success", text, false, cfg.platform)),
        Logged(record, logged),
        BadgeEmitted(Badge.Success),
        IdleScheduled])
    case Failure(message) =>
      var record := FailureRecord(s, cfg, env, message);
      var (table, logged) := SessionStore.Insert(s.table, record, env.dbFault);
      (table, s.pendingIdle + 1,
       [transcribed,
        BadgeEmitted(Badge.Error),
        Notified(Delivery.TauriNotification("VoiceClip Error", "Failed to transcribe audio", true, cfg.platform)),
        Logged(record, logged),
        IdleScheduled])
  }

  /** The effects that open the stop branch: abort of the poll task, "processing",
      and the stop-and-save command with its reply. */
  function StopPrefix(s: Sys, cfg: Config, reply: Reply): seq<Effect> {
    (if s.poll != NoTask then [PollAborted] else [])
      + [BadgeEmitted(Badge.Processing), Sent(StopAndSave(SavePath(cfg)), reply)]
  }

  /** The stop branch. */
  function StopBranch(s: Sys, cfg: Config, env: ToggleEnv): (r: (Sys, seq<Effect>))
  {
    var (w, reply) := Serve(s.worker, StopAndSave(SavePath(cfg)), env.audio);
    var prefix := StopPrefix(s, cfg, reply);
    if StopResult(reply).Failure? then
      (Sys(false, s.startTime, NoTask, s.pendingIdle + 1, w, s.table),
       prefix + [BadgeEmitted(Badge.Error), IdleScheduled])
    else
      var (table, pending, rest) := TranscribeBranch(s, cfg, env);
      (Sys(false, s.startTime, NoTask, pending, w, table), prefix + rest)
  }

  /** One `AppEvent::ToggleRecording`. */
  function ToggleStep(s: Sys, cfg: Config, env: ToggleEnv): (r: (Sys, seq<Effect>))
  {
    if !s.isRecording then StartBranch(s, env) else StopBranch(s, cfg, env)
  }

  // ---------------------------------------------------------------- other tasks

  /** One 33 ms round of the poll task: a `GetLevel` whose answer is emitted; when
      the worker channel is closed the send fails and the loop ends. */
  function PollTickStep(s: Sys, audio: WorkerEnv): (r: (Sys, seq<Effect>))
  {
    if s.poll != Polling then (s, [])
    else
      var (w, reply) := Serve(s.worker, GetLevel, audio);
      if reply.LevelReply? then
        (s.(worker := w), [Sent(GetLevel, reply), LevelEmitted(reply.level)])
      else
        (s.(worker := w, poll := Exited), [Sent(GetLevel, reply)])
  }

  /** One of the pending three-second timers fires. */
  function TimerStep(s: Sys): (r: (Sys, seq<Effect>))
  {
    if s.pendingIdle == 0 then (s, [])
    else (s.(pendingIdle := s.pendingIdle - 1), [BadgeEmitted(Badge.Idle)])
  }

  datatype Input = Toggle(env: ToggleEnv) | PollTick(audio: WorkerEnv) | IdleTimer

  function Step(s: Sys, cfg: Config, input: Input): (Sys, seq<Effect>) {
    match input
    case Toggle(env) => ToggleStep(s, cfg, env)
    case PollTick(audio) => PollTickStep(s, audio)
    case IdleTimer => TimerStep(s)
  }

  function RunAll(s: Sys, cfg: Config, inputs: seq<Input>): (Sys, seq<Effect>)
    decreases |inputs|
  {
    if inputs == [] then (s, [])
    else
      var (s1, first) := Step(s, cfg, inputs[0]);
      var (s2, rest) := RunAll(s1, cfg, inputs[1..]);
      (s2, first + rest)
  }

  // ---------------------------------------------------------------- properties of one toggle

  function CountLogged(trace: seq<Effect>): (n: nat)
    ensures n <= |trace|
  {
    if trace == [] then 0
    else (if trace[0].Logged? then 1 else 0) + CountLogged(trace[1..])
  }

  lemma {:induction false} CountLoggedAppend(a: seq<Effect>, b: seq<Effect>)
    ensures CountLogged(a + b) == CountLogged(a) + CountLogged(b)
  {
    if a == [] {
      assert a + b == b;
    } else {
      assert (a + b)[0] == a[0];
      assert (a + b)[1..] == a[1..] + b;
      CountLoggedAppend(a[1..], b);
    }
  }

  /** A trace whose only logged effect sits at index `k` (none when `k` is out of range). */
  lemma {:induction false} CountLoggedExactly(trace: seq<Effect>, k: int)
    requires forall i :: 0 <= i < |trace| ==> (trace[i].Logged? <==> i == k)
    ensures CountLogged(trace) == if 0 <= k < |trace| then 1 else 0
    decreases |trace|
  {
    if trace != [] {
      forall i | 0 <= i < |trace[1..]|
        ensures trace[1..][i].Logged? <==> i == k - 1
      {
        assert trace[1..][i] == trace[i + 1];
      }
      CountLoggedExactly(trace[1..], k - 1);
    }
  }

  /** Every toggle flips `is_recording`, and the invariant survives it. */
  lemma ToggleFlips(s: Sys, cfg: Config, env: ToggleEnv)
    requires Consistent(s)
    ensures ToggleStep(s, cfg, env).0.isRecording == !s.isRecording
    ensures Consistent(ToggleStep(s, cfg, env).0)
  {
    if s.isRecording {
      var (w, reply) := Serve(s.worker, StopAndSave(SavePath(cfg)), env.audio);
      if StopResult(reply).Success? {
        match env.transcription
        case Success(text) =>
          SessionStore.InsertKeepsInvariant(s.table, SuccessRecord(s, cfg, env, text), env.dbFault);
        case Failure(message) =>
          SessionStore.InsertKeepsInvariant(s.table, FailureRecord(s, cfg, env, message), env.dbFault);
      }
    }
  }

  /** The start branch sends `Start` with the live microphone setting, shows
      "recording" and spawns the poll task, whether or not capture opens; it
      logs nothing, and `Start` only ever reaches a worker without a recorder. */
  lemma StartTrace(s: Sys, cfg: Config, env: ToggleEnv)
    requires Consistent(s) && !s.isRecording
    ensures var (s', trace) := ToggleStep(s, cfg, env);
      && |trace| == 3
      && trace[0].Sent? && trace[0].cmd == Start(env.microphone)
      && trace[1] == BadgeEmitted(Badge.Recording)
      && trace[2] == PollSpawned
      && s'.startTime == env.now && s'.poll == Polling && s'.table == s.table
      && CountLogged(trace) == 0
    ensures s.worker.recorder.None?
  {
    CountLoggedExactly(ToggleStep(s, cfg, env).1, -1);
  }

  /** The stop branch aborts the poll task, then shows "processing", then sends
      `StopAndSave` for the fixed file in the temporary directory. */
  lemma StopTracePrefix(s: Sys, cfg: Config, env: ToggleEnv)
    requires Consistent(s) && s.isRecording
    ensures var (_, trace) := ToggleStep(s, cfg, env);
      && |trace| >= 5
      && trace[0] == PollAborted
      && trace[1] == BadgeEmitted(Badge.Processing)
      && trace[2].Sent? && trace[2].cmd == StopAndSave(JoinPath(cfg.tempDir, "voiceclip_audio.wav"))
  {
  }

  /** A failed stop (the worker's error, or its reply channel dropped) shows
      "error", schedules "idle" and logs nothing: the table is unchanged. */
  lemma StopFailureLogsNothing(s: Sys, cfg: Config, env: ToggleEnv)
    requires Consistent(s) && s.isRecording
    requires StopResult(Serve(s.worker, StopAndSave(SavePath(cfg)), env.audio).1).Failure?
    ensures var (s', trace) := ToggleStep(s, cfg, env);
      && trace[3..] == [BadgeEmitted(Badge.Error), IdleScheduled]
      && s'.table == s.table
      && CountLogged(trace) == 0
      && s'.pendingIdle == s.pendingIdle + 1
  {
    var (_, reply) := Serve(s.worker, StopAndSave(SavePath(cfg)), env.audio);
    var trace := ToggleStep(s, cfg, env).1;
    assert trace == [PollAborted, BadgeEmitted(Badge.Processing), Sent(StopAndSave(SavePath(cfg)), reply),
                     BadgeEmitted(Badge.Error), IdleScheduled];
    CountLoggedExactly(trace, -1);
  }

  /** A stop whose save succeeded: the three opening effects, then whatever
      transcription, delivery and logging produce. */
  lemma SavedStopTrace(s: Sys, cfg: Config, env: ToggleEnv)
    requires s.isRecording && s.poll != NoTask
    requires Serve(s.worker, StopAndSave(SavePath(cfg)), env.audio).1 == SaveReply(Success(()))
    ensures var (s', trace) := ToggleStep(s, cfg, env);
      && trace == [PollAborted, BadgeEmitted(Badge.Processing),
                   Sent(StopAndSave(SavePath(cfg)), SaveReply(Success(())))] + TranscribeBranch(s, cfg, env).2
      && s'.table == TranscribeBranch(s, cfg, env).0
  {
  }

  /** After a successful transcription: clipboard with the start-up append mode,
      then the success notification, then exactly one logged record, then
      "success", then the delayed "idle". The record carries the text, its word
      count and no error, and it is logged whatever the clipboard did. */
  lemma TranscriptionSuccessTrace(s: Sys, cfg: Config, env: ToggleEnv, text: string)
    requires s.isRecording && s.poll != NoTask
    requires Serve(s.worker, StopAndSave(SavePath(cfg)), env.audio).1 == SaveReply(Success(()))
    requires env.transcription == Success(text)
    ensures var (s', trace) := ToggleStep(s, cfg, env);
      && |trace| == 9
      && trace[3] == Transcribed(SavePath(cfg), ModelPath(cfg, env), Success(text))
      && trace[4] == Copied(text, cfg.appendMode, Delivery.CopyToClipboard(text, cfg.appendMode, env.clipboard))
      && trace[5] == Notified(Delivery.Notification("VoiceClip Success", text,
                        if cfg.platform == Delivery.Linux then Some(Delivery.Normal) else None))
      && trace[6] == Logged(SuccessRecord(s, cfg, env, text),
                            SessionStore.Insert(s.table, SuccessRecord(s, cfg, env, text), env.dbFault).1)
      && trace[7] == BadgeEmitted(Badge.Success)
      && trace[8] == IdleScheduled
      && CountLogged(trace) == 1
      && (env.dbFault.None? ==> s'.table.rows == s.table.rows + [SessionStore.StoredRow(s.table.nextId, trace[6].record)])
  {
    SavedStopTrace(s, cfg, env);
    var record := SuccessRecord(s, cfg, env, text);
    var (table, logged) := SessionStore.Insert(s.table, record, env.dbFault);
    var rest := [Transcribed(SavePath(cfg), ModelPath(cfg, env), Success(text)),
      Copied(text, cfg.appendMode, Delivery.CopyToClipboard(text, cfg.appendMode, env.clipboard)),
      Notified(Delivery.TauriNotification("VoiceClip Success", text, false, cfg.platform)),
      Logged(record, logged), BadgeEmitted(Badge.Success), IdleScheduled];
    assert TranscribeBranch(s, cfg, env) == (table, s.pendingIdle + 1, rest);
    var trace := ToggleStep(s, cfg, env).1;
    assert trace == [PollAborted, BadgeEmitted(Badge.Processing),
      Sent(StopAndSave(SavePath(cfg)), SaveReply(Success(()))), rest[0], rest[1], rest[2], rest[3], rest[4], rest[5]];
    CountLoggedExactly(trace, 6);
  }

  /** After a failed transcription: "error", the error notification, one record
      with no words, an empty transcription and the error message, then the
      delayed "idle". */
  lemma TranscriptionFailureTrace(s: Sys, cfg: Config, env: ToggleEnv, message: string)
    requires s.isRecording && s.poll != NoTask
    requires Serve(s.worker, StopAndSave(SavePath(cfg)), env.audio).1 == SaveReply(Success(()))
    requires env.transcription == Failure(message)
    ensures var (s', trace) := ToggleStep(s, cfg, env);
      && |trace| == 8
      && trace[3] == Transcribed(SavePath(cfg), ModelPath(cfg, env), Failure(message))
      && trace[4] == BadgeEmitted(Badge.Error)
      && trace[5] == Notified(Delivery.Notification("VoiceClip Error", "Failed to transcribe audio",
                        if cfg.platform == Delivery.Linux then Some(Delivery.Critical) else None))
      && trace[6] == Logged(FailureRecord(s, cfg, env, message),
                            SessionStore.Insert(s.table, FailureRecord(s, cfg, env, message), env.dbFault).1)
      && trace[7] == IdleScheduled
      && CountLogged(trace) == 1
  {
    SavedStopTrace(s, cfg, env);
    var record := FailureRecord(s, cfg, env, message);
    var (table, logged) := SessionStore.Insert(s.table, record, env.dbFault);
    var rest := [Transcribed(SavePath(cfg), ModelPath(cfg, env), Failure(message)), BadgeEmitted(Badge.Error),
      Notified(Delivery.TauriNotification("VoiceClip Error", "Failed to transcribe audio", true, cfg.platform)),
      Logged(record, logged), IdleScheduled];
    assert TranscribeBranch(s, cfg, env) == (table, s.pendingIdle + 1, rest);
    CountLoggedExactly(ToggleStep(s, cfg, env).1, 6);
  }

  /** A toggle logs one record exactly when it stops a recording whose save succeeded. */
  lemma LogsIffSaved(s: Sys, cfg: Config, env: ToggleEnv)
    requires Consistent(s)
    ensures CountLogged(ToggleStep(s, cfg, env).1) ==
      if s.isRecording && StopResult(Serve(s.worker, StopAndSave(SavePath(cfg)), env.audio).1).Success?
      then 1 else 0
  {
    if !s.isRecording {
      StartTrace(s, cfg, env);
    } else {
      var (_, reply) := Serve(s.worker, StopAndSave(SavePath(cfg)), env.audio);
      if StopResult(reply).Failure? {
        StopFailureLogsNothing(s, cfg, env);
      } else {
        assert reply == SaveReply(Success(()));
        match env.transcription
        case Success(text) => TranscriptionSuccessTrace(s, cfg, env, text);
        case Failure(message) => TranscriptionFailureTrace(s, cfg, env, message);
      }
    }
  }

  /** What the clipboard does never changes what is logged or the resulting state. */
  lemma DeliveryDoesNotAffectLogging(s: Sys, cfg: Config, env: ToggleEnv, other: Delivery.ClipboardBackend)
    ensures ToggleStep(s, cfg, env).0 == ToggleStep(s, cfg, env.(clipboard := other)).0
  {
    var env' := env.(clipboard := other);
    if s.isRecording {
      assert ModelPath(cfg, env) == ModelPath(cfg, env');
      match env.transcription {
        case Success(text) =>
          assert SuccessRecord(s, cfg, env, text) == SuccessRecord(s, cfg, env', text);
        case Failure(message) =>
          assert FailureRecord(s, cfg, env, message) == FailureRecord(s, cfg, env', message);
      }
      assert TranscribeBranch(s, cfg, env).0 == TranscribeBranch(s, cfg, env').0;
      assert TranscribeBranch(s, cfg, env).1 == TranscribeBranch(s, cfg, env').1;
    }
  }

  /** A start whose capture fails makes the next toggle's stop fail with
      "Not recording": it shows "error" and logs nothing. */
  lemma FailedStartLogsNothing(s: Sys, cfg: Config, startEnv: ToggleEnv, stopEnv: ToggleEnv)
    requires Consistent(s) && !s.isRecording && s.worker.running
    requires startEnv.audio.capture.Failure?
    ensures var (s1, _) := ToggleStep(s, cfg, startEnv);
      var (s2, trace) := ToggleStep(s1, cfg, stopEnv);
      && trace[2] == Sent(StopAndSave(SavePath(cfg)), SaveReply(Failure("Not recording")))
      && trace[3..] == [BadgeEmitted(Badge.Error), IdleScheduled]
      && s2.table == s.table
  {
    var s1 := ToggleStep(s, cfg, startEnv).0;
    ToggleFlips(s, cfg, startEnv);
    StopFailureLogsNothing(s1, cfg, stopEnv);
  }

  // ---------------------------------------------------------------- the other tasks

  lemma PollTickKeepsConsistent(s: Sys, audio: WorkerEnv)
    requires Consistent(s)
    ensures Consistent(PollTickStep(s, audio).0)
    ensures PollTickStep(s, audio).0.isRecording == s.isRecording
    ensures PollTickStep(s, audio).0.table == s.table
  {
  }

  /** Levels are emitted only by a running poll task, and only while recording. */
  lemma LevelsOnlyWhilePolling(s: Sys, audio: WorkerEnv)
    requires Consistent(s)
    ensures var trace := PollTickStep(s, audio).1;
      (exists i :: 0 <= i < |trace| && trace[i].LevelEmitted?) ==> s.poll == Polling && s.isRecording
  {
  }

  /** A pending timer turns the badge to "idle" whatever the orchestrator is doing. */
  lemma TimerShowsIdle(s: Sys)
    requires s.pendingIdle > 0
    ensures TimerStep(s) == (s.(pendingIdle := s.pendingIdle - 1), [BadgeEmitted(Badge.Idle)])
  {
  }

  /** The three-second timer is never cancelled: when a new recording starts
      before the timer of the previous stop fires, the badge shows "idle" while recording. */
  lemma StaleIdleDuringRecording(s: Sys, cfg: Config, stopEnv: ToggleEnv, startEnv: ToggleEnv)
    requires Consistent(s) && s.isRecording && s.pendingIdle == 0
    ensures var (s1, _) := ToggleStep(s, cfg, stopEnv);
      var (s2, _) := ToggleStep(s1, cfg, startEnv);
      var (s3, trace) := TimerStep(s2);
      && s3.isRecording
      && trace == [BadgeEmitted(Badge.Idle)]
  {
    var s1 := ToggleStep(s, cfg, stopEnv).0;
    ToggleFlips(s, cfg, stopEnv);
    ToggleFlips(s1, cfg, startEnv);
    assert s1.pendingIdle >= 1;
  }

  // ---------------------------------------------------------------- whole runs

  /** Whether every level in `trace` falls between a spawn of the poll task and
      the next abort, given whether a task handle is held at its start. */
  function LevelsBracketed(held: bool, trace: seq<Effect>): (r: (bool, bool))
    decreases |trace|
  {
    if trace == [] then (true, held)
    else
      var e := trace[0];
      var held' := if e.PollSpawned? then true else if e.PollAborted? then false else held;
      var ok := !e.LevelEmitted? || held;
      var (okRest, heldEnd) := LevelsBracketed(held', trace[1..]);
      (ok && okRest, heldEnd)
  }

  lemma {:induction false} BracketedAppend(held: bool, a: seq<Effect>, b: seq<Effect>)
    ensures var (okA, heldA) := LevelsBracketed(held, a);
      var (okB, heldB) := LevelsBracketed(heldA, b);
      LevelsBracketed(held, a + b) == (okA && okB, heldB)
    decreases |a|
  {
    if a == [] {
      assert a + b == b;
    } else {
      assert (a + b)[0] == a[0];
      assert (a + b)[1..] == a[1..] + b;
      var e := a[0];
      var held' := if e.PollSpawned? then true else if e.PollAborted? then false else held;
      BracketedAppend(held', a[1..], b);
    }
  }

  /** One step keeps the levels bracketed and ends holding a handle exactly when
      the new state has one. */
  lemma StepBracketed(s: Sys, cfg: Config, input: Input)
    requires Consistent(s)
    ensures var (s', trace) := Step(s, cfg, input);
      && Consistent(s')
      && LevelsBracketed(s.poll != NoTask, trace) == (true, s'.poll != NoTask)
  {
    match input
    case Toggle(env) => {
      ToggleFlips(s, cfg, env);
      var (s', trace) := ToggleStep(s, cfg, env);
      if !s.isRecording {
        StartTrace(s, cfg, env);
        assert trace == [trace[0], BadgeEmitted(Badge.Recording), PollSpawned];
        assert LevelsBracketed(false, [PollSpawned]) == (true, true) by {
          assert [PollSpawned][1..] == [];
        }
        assert LevelsBracketed(false, [BadgeEmitted(Badge.Recording), PollSpawned]) == (true, true) by {
          assert [BadgeEmitted(Badge.Recording), PollSpawned][1..] == [PollSpawned];
        }
        assert trace[1..] == [BadgeEmitted(Badge.Recording), PollSpawned];
      } else {
        NoPollEffects(s, cfg, env);
        var head := trace[..3];
        var tail := trace[3..];
        assert trace == head + tail;
        assert LevelsBracketed(true, head) == (true, false) by {
          assert head[1..] == [BadgeEmitted(Badge.Processing), head[2]];
          assert head[1..][1..] == [head[2]];
          assert head[1..][1..][1..] == [];
          assert LevelsBracketed(false, [head[2]]) == (true, false);
          assert LevelsBracketed(false, head[1..]) == (true, false);
        }
        BracketedAppend(true, head, tail);
        NoPollEffectsBracketed(tail);
      }
    }
    case PollTick(audio) => {
      var (s', trace) := PollTickStep(s, audio);
      if s.poll == Polling {
        var reply := Serve(s.worker, GetLevel, audio).1;
        if reply.LevelReply? {
          assert trace == [Sent(GetLevel, reply), LevelEmitted(reply.level)];
          assert trace[1..] == [LevelEmitted(reply.level)];
          assert trace[1..][1..] == [];
          assert LevelsBracketed(true, trace[1..]) == (true, true);
        } else {
          assert trace == [Sent(GetLevel, reply)];
          assert trace[1..] == [];
        }
      }
    }
    case IdleTimer => {
      var (s', trace) := TimerStep(s);
      if s.pendingIdle > 0 {
        assert trace[1..] == [];
      }
    }
  }

  predicate PollFree(trace: seq<Effect>) {
    forall i :: 0 <= i < |trace| ==> !trace[i].PollSpawned? && !trace[i].PollAborted? && !trace[i].LevelEmitted?
  }

  lemma TranscribePollFree(s: Sys, cfg: Config, env: ToggleEnv)
    ensures PollFree(TranscribeBranch(s, cfg, env).2)
  {
    var rest := TranscribeBranch(s, cfg, env).2;
    match env.transcription {
      case Success(_) =>
        assert |rest| == 6 && rest[5] == IdleScheduled && rest[4].BadgeEmitted? && rest[3].Logged?;
        assert rest[0].Transcribed? && rest[1].Copied? && rest[2].Notified?;
      case Failure(_) =>
        assert |rest| == 5 && rest[4] == IdleScheduled && rest[3].Logged?;
        assert rest[0].Transcribed? && rest[1].BadgeEmitted? && rest[2].Notified?;
    }
  }

  /** After its first three effects the stop branch touches neither the poll task nor the levels. */
  lemma NoPollEffects(s: Sys, cfg: Config, env: ToggleEnv)
    requires Consistent(s) && s.isRecording
    ensures var trace := ToggleStep(s, cfg, env).1;
      && |trace| >= 3
      && trace[..3] == [PollAborted, BadgeEmitted(Badge.Processing), trace[2]]
      && PollFree(trace[3..])
  {
    var (_, reply) := Serve(s.worker, StopAndSave(SavePath(cfg)), env.audio);
    var prefix := StopPrefix(s, cfg, reply);
    assert prefix == [PollAborted, BadgeEmitted(Badge.Processing), Sent(StopAndSave(SavePath(cfg)), reply)];
    var trace := ToggleStep(s, cfg, env).1;
    if StopResult(reply).Failure? {
      assert trace == prefix + [BadgeEmitted(Badge.Error), IdleScheduled];
      assert trace[3..] == [BadgeEmitted(Badge.Error), IdleScheduled];
    } else {
      var rest := TranscribeBranch(s, cfg, env).2;
      TranscribePollFree(s, cfg, env);
      assert trace == prefix + rest;
      assert trace[3..] == rest;
    }
  }

  lemma {:induction false} NoPollEffectsBracketed(trace: seq<Effect>)
    requires PollFree(trace)
    ensures LevelsBracketed(false, trace) == (true, false)
    decreases |trace|
  {
    if trace != [] {
      assert PollFree(trace[1..]) by {
        forall i | 0 <= i < |trace[1..]|
          ensures !trace[1..][i].PollSpawned? && !trace[1..][i].PollAborted? && !trace[1..][i].LevelEmitted?
        {
          assert trace[1..][i] == trace[i + 1];
        }
      }
      NoPollEffectsBracketed(trace[1..]);
    }
  }

  /** Over any interleaving of toggles, poll rounds and timers, no level reaches
      the badge after the poll task was aborted and before a new one is spawned. */
  lemma {:induction false} RunBracketed(s: Sys, cfg: Config, inputs: seq<Input>)
    requires Consistent(s)
    ensures var (s', trace) := RunAll(s, cfg, inputs);
      && Consistent(s')
      && LevelsBracketed(s.poll != NoTask, trace) == (true, s'.poll != NoTask)
    decreases |inputs|
  {
    if inputs != [] {
      var (s1, first) := Step(s, cfg, inputs[0]);
      StepBracketed(s, cfg, inputs[0]);
      RunBracketed(s1, cfg, inputs[1..]);
      var rest := RunAll(s1, cfg, inputs[1..]).1;
      BracketedAppend(s.poll != NoTask, first, rest);
    }
  }

  lemma {:induction false} RunAllAppend(s: Sys, cfg: Config, inputs: seq<Input>, input: Input)
    ensures var (s1, trace1) := RunAll(s, cfg, inputs);
      var (s2, trace2) := Step(s1, cfg, input);
      RunAll(s, cfg, inputs + [input]) == (s2, trace1 + trace2)
    decreases |inputs|
  {
    if inputs == [] {
      assert inputs + [input] == [input];
      assert [input][1..] == [];
      var (_, trace) := Step(s, cfg, input);
      assert trace + [] == [] + trace;
    } else {
      assert (inputs + [input])[0] == inputs[0];
      assert (inputs + [input])[1..] == inputs[1..] + [input];
      var (s1, first) := Step(s, cfg, inputs[0]);
      RunAllAppend(s1, cfg, inputs[1..], input);
      var (sn, rest) := RunAll(s1, cfg, inputs[1..]);
      var (_, last) := Step(sn, cfg, input);
      assert first + (rest + last) == (first + rest) + last;
    }
  }

  // ---------------------------------------------------------------- the task

  /** The orchestrator task with its three variables, the pending timers, the
      worker thread it talks to and the database behind the shared state. */
  class Orchestrator {
    const cfg: Config
    const worker: Worker
    const db: SessionStore.Database
    var isRecording: bool
    var recordingStartTime: I64
    var levelPollTask: PollTask
    var pendingIdle: nat

    function Snapshot(): Sys
      reads this, worker, db
    {
      Sys(isRecording, recordingStartTime, levelPollTask, pendingIdle, worker.state, db.table)
    }

    ghost predicate Valid()
      reads this, worker, db
    {
      Consistent(Snapshot())
    }

    constructor (config: Config, existing: SessionStore.Table)
      requires SessionStore.TableInvariant(existing)
      ensures Valid() && Snapshot() == Launch(existing) && cfg == config
      ensures fresh(worker) && fresh(db)
    {
      cfg := config;
      worker := new Worker();
      db := new SessionStore.Database(existing);
      isRecording := false;
      recordingStartTime := 0;
      levelPollTask := NoTask;
      pendingIdle := 0;
    }

    /** The `ToggleRecording` arm of the loop. */
    method Toggle(env: ToggleEnv) returns (trace: seq<Effect>)
      requires Valid()
      modifies this, worker, db
      ensures Valid()
      ensures (Snapshot(), trace) == ToggleStep(old(Snapshot()), cfg, env)
    {
      ghost var s := Snapshot();
      ToggleFlips(s, cfg, env);
      if !isRecording {
        var mic := env.microphone;
        var reply := worker.Handle(Start(mic), env.audio);
        isRecording := true;
        recordingStartTime := env.now;
        levelPollTask := Polling;
        trace := [Sent(Start(mic), reply), BadgeEmitted(Badge.Recording), PollSpawned];
        assert (Snapshot(), trace) == StartBranch(s, env);
      } else {
        isRecording := false;
        trace := [];
        if levelPollTask != NoTask {
          trace := trace + [PollAborted];
        }
        levelPollTask := NoTask;
        trace := trace + [BadgeEmitted(Badge.Processing)];
        var savePath := JoinPath(cfg.tempDir, AUDIO_FILE_NAME);
        var reply := worker.Handle(StopAndSave(savePath), env.audio);
        trace := trace + [Sent(StopAndSave(savePath), reply)];
        assert savePath == SavePath(cfg);
        assert trace == StopPrefix(s, cfg, reply);
        ghost var w := worker.state;
        assert (w, reply) == Serve(s.worker, StopAndSave(SavePath(cfg)), env.audio);
        var stopRes := StopResult(reply);
        if stopRes.Failure? {
          trace := trace + [BadgeEmitted(Badge.Error), IdleScheduled];
          pendingIdle := pendingIdle + 1;
          assert Snapshot() == Sys(false, s.startTime, NoTask, s.pendingIdle + 1, w, s.table);
        } else {
          var rest := LogAndDeliver(s, env);
          trace := trace + rest;
          assert worker.state == w;
          assert Snapshot() == Sys(false, s.startTime, NoTask, TranscribeBranch(s, cfg, env).1, w,
            TranscribeBranch(s, cfg, env).0);
        }
      }
    }

    /** The `Ok(())` arm of the stop branch. */
    method LogAndDeliver(ghost s: Sys, env: ToggleEnv) returns (rest: seq<Effect>)
      requires db.Valid() && db.table == s.table && pendingIdle == s.pendingIdle
      requires recordingStartTime == s.startTime
      modifies this, db
      ensures db.Valid()
      ensures db.table == TranscribeBranch(s, cfg, env).0
      ensures pendingIdle == TranscribeBranch(s, cfg, env).1
      ensures rest == TranscribeBranch(s, cfg, env).2
      ensures isRecording == old(isRecording) && levelPollTask == old(levelPollTask)
      ensures recordingStartTime == old(recordingStartTime)
    {
      var modelPath := JoinPath(env.modelsDir.GetOr(cfg.tempDir), env.modelName);
      var savePath := JoinPath(cfg.tempDir, AUDIO_FILE_NAME);
      rest := [Transcribed(savePath, modelPath, env.transcription)];
      match env.transcription {
        case Success(text) => {
          var latencyMs := AsU32(env.elapsedMs);
          var written := Delivery.CopyToClipboard(text, cfg.appendMode, env.clipboard);
          rest := rest + [Copied(text, cfg.appendMode, written)];
          rest := rest + [Notified(Delivery.TauriNotification("VoiceClip Success", text, false, cfg.platform))];
          var wordCount := AsU32(Text.WordCount(text));
          var durationSecs := AsU32(env.now - recordingStartTime);
          var session := SessionStore.SessionRecord(
            recordingStartTime, durationSecs, wordCount, modelPath, text, latencyMs, None);
          var logged := db.LogSession(session, env.dbFault);
          rest := rest + [Logged(session, logged), BadgeEmitted(Badge.Success), IdleScheduled];
          assert session == SuccessRecord(s, cfg, env, text);
          assert (db.table, logged) == SessionStore.Insert(s.table, session, env.dbFault);
          assert rest == [Transcribed(savePath, modelPath, env.transcription), Copied(text, cfg.appendMode, written),
            Notified(Delivery.TauriNotification("VoiceClip Success", text, false, cfg.platform)),
            Logged(session, logged), BadgeEmitted(Badge.Success), IdleScheduled];
        }
        case Failure(message) => {
          rest := rest + [BadgeEmitted(Badge.Error)];
          rest := rest + [Notified(Delivery.TauriNotification("VoiceClip Error", "Failed to transcribe audio", true, cfg.platform))];
          var durationSecs := AsU32(env.now - recordingStartTime);
          var session := SessionStore.SessionRecord(
            recordingStartTime, durationSecs, 0, modelPath, "", AsU32(env.elapsedMs), Some(message));
          var logged := db.LogSession(session, env.dbFault);
          rest := rest + [Logged(session, logged), IdleScheduled];
          assert session == FailureRecord(s, cfg, env, message);
          assert (db.table, logged) == SessionStore.Insert(s.table, session, env.dbFault);
          assert rest == [Transcribed(savePath, modelPath, env.transcription), BadgeEmitted(Badge.Error),
            Notified(Delivery.TauriNotification("VoiceClip Error", "Failed to transcribe audio", true, cfg.platform)),
            Logged(session, logged), IdleScheduled];
        }
      }
      pendingIdle := pendingIdle + 1;
    }

    /** One round of the poll task. */
    method PollTick(audio: WorkerEnv) returns (trace: seq<Effect>)
      requires Valid()
      modifies this, worker
      ensures Valid()
      ensures (Snapshot(), trace) == PollTickStep(old(Snapshot()), audio)
    {
      if levelPollTask != Polling {
        trace := [];
        return;
      }
      var reply := worker.Handle(GetLevel, audio);
      if reply.LevelReply? {
        trace := [Sent(GetLevel, reply), LevelEmitted(reply.level)];
      } else {
        levelPollTask := Exited;
        trace := [Sent(GetLevel, reply)];
      }
    }

    /** A pending timer fires. */
    method TimerFires() returns (trace: seq<Effect>)
      requires Valid()
      modifies this
      ensures Valid()
      ensures (Snapshot(), trace) == TimerStep(old(Snapshot()))
    {
      if pendingIdle == 0 {
        trace := [];
      } else {
        pendingIdle := pendingIdle - 1;
        trace := [BadgeEmitted(Badge.Idle)];
      }
    }

    /** The interleaving of the loop and the tasks beside it, one input at a time. */
    method Run(inputs: seq<Input>) returns (trace: seq<Effect>)
      requires Valid()
      modifies this, worker, db
      ensures Valid()
      ensures (Snapshot(), trace) == RunAll(old(Snapshot()), cfg, inputs)
    {
      trace := [];
      var i := 0;
      while i < |inputs|
        invariant 0 <= i <= |inputs|
        invariant Valid()
        decreases |inputs| - i
        invariant (Snapshot(), trace) == RunAll(old(Snapshot()), cfg, inputs[..i])
      {
        RunAllAppend(old(Snapshot()), cfg, inputs[..i], inputs[i]);
        var here;
        match inputs[i] {
          case Toggle(env) => here := Toggle(env);
          case PollTick(audio) => here := PollTick(audio);
          case IdleTimer => here := TimerFires();
        }
        assert inputs[..i + 1] == inputs[..i] + [inputs[i]];
        trace := trace + here;
        i := i + 1;
      }
      assert inputs[..i] == inputs;
    }
  }
}
