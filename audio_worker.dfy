/** The audio worker thread of the Tauri back end: it owns the optional
    recorder and serves the orchestrator's commands one at a time, in the order
    they were sent. The capture device, the WAV writer and the level meter are
    outside the model; what they return is an input of each command. */
module AudioWorker {
  import opened Wrappers
  import opened Commands

  /** An open capture stream (`AudioRecorder`), identified only by a handle. */
  datatype Recorder = Recorder(handle: nat)

  /** What the hardware side does when a command is served: whether the
      capture stream opens, how saving ends (it may also bring the thread down),
      and what level the meter has accumulated. */
  datatype SaveOutcome = Saved | SaveFailed(message: string) | Panicked

  datatype WorkerEnv = WorkerEnv(capture: Result<Recorder, string>, save: SaveOutcome, level: real)

  /** What the sender of a command gets back: nothing for `Start`, the save
      result or the level on the reply channel, or a dropped channel. */
  datatype Reply =
    | NoReply
    | SaveReply(result: Result<(), string>)
    | LevelReply(level: real)
    | Dropped

  /** The thread: whether it still runs, and its `recorder` variable. */
  datatype WorkerState = WorkerState(running: bool, recorder: Option<Recorder>)

  const Fresh := WorkerState(true, None)

  /** One command served, or refused because the thread is gone. */
  function Serve(w: WorkerState, cmd: AudioCommand, env: WorkerEnv): (r: (WorkerState, Reply))
  {
    if !w.running then (w, Dropped)
    else match cmd
      case Start(_) =>
        if w.recorder.Some? then (w, NoReply)
        else if env.capture.Success? then (WorkerState(true, Some(env.capture.value)), NoReply)
        else (w, NoReply)
      case StopAndSave(_) =>
        if w.recorder.Some? then
          match env.save
          case Saved => (WorkerState(true, None), SaveReply(Success(())))
          case SaveFailed(msg) => (WorkerState(true, None), SaveReply(Failure(msg)))
          case Panicked => (WorkerState(false, None), Dropped)
        else (w, SaveReply(Failure("Not recording")))
      case GetLevel =>
        (w, LevelReply(if w.recorder.Some? then env.level else 0.0))
  }

  /** `Start` never replaces a recorder, and a failed start leaves none. */
  lemma StartKeepsRecorder(w: WorkerState, device: Option<string>, env: WorkerEnv)
    requires w.running
    ensures var (w', reply) := Serve(w, Start(device), env);
      && reply == NoReply
      && w'.running
      && (w.recorder.Some? ==> w' == w)
      && (w.recorder.None? && env.capture.Failure? ==> w'.recorder.None?)
      && (w.recorder.None? && env.capture.Success? ==> w'.recorder == Some(env.capture.value))
  {
  }

  /** `StopAndSave` takes the recorder whatever the save gives, and replies once with
      the save result; without a recorder it replies "Not recording". */
  lemma StopTakesRecorder(w: WorkerState, path: string, env: WorkerEnv)
    requires w.running
    ensures var (w', reply) := Serve(w, StopAndSave(path), env);
      && w'.recorder.None?
      && (w.recorder.None? ==> w' == w && reply == SaveReply(Failure("Not recording")))
      && (w.recorder.Some? && env.save == Saved ==> reply == SaveReply(Success(())))
      && (w.recorder.Some? && env.save.SaveFailed? ==> reply == SaveReply(Failure(env.save.message)))
      && (w.recorder.Some? && env.save == Panicked ==> reply == Dropped && !w'.running)
  {
  }

  /** `GetLevel` changes nothing and reports silence when not recording. */
  lemma GetLevelReadOnly(w: WorkerState, env: WorkerEnv)
    requires w.running
    ensures var (w', reply) := Serve(w, GetLevel, env);
      && w' == w
      && reply == LevelReply(if w.recorder.Some? then env.level else 0.0)
  {
  }

  /** A thread that has stopped stays stopped and answers nothing. */
  lemma StoppedStaysStopped(w: WorkerState, cmd: AudioCommand, env: WorkerEnv)
    requires !w.running
    ensures Serve(w, cmd, env) == (w, Dropped)
  {
  }

  /** The state after serving a run of commands in order. */
  function ServeAll(w: WorkerState, cmds: seq<AudioCommand>, envs: seq<WorkerEnv>): (r: (WorkerState, seq<Reply>))
    requires |envs| == |cmds|
    ensures |r.1| == |cmds|
    decreases |cmds|
  {
    if cmds == [] then (w, [])
    else
      var (w1, reply) := Serve(w, cmds[0], envs[0]);
      var (w2, rest) := ServeAll(w1, cmds[1..], envs[1..]);
      (w2, [reply] + rest)
  }

  lemma {:induction false} ServeAllAppend(w: WorkerState, cmds: seq<AudioCommand>, envs: seq<WorkerEnv>,
                                          cmd: AudioCommand, env: WorkerEnv)
    requires |envs| == |cmds|
    ensures var (w1, replies) := ServeAll(w, cmds, envs);
      var (w2, reply) := Serve(w1, cmd, env);
      ServeAll(w, cmds + [cmd], envs + [env]) == (w2, replies + [reply])
    decreases |cmds|
  {
    if cmds == [] {
      assert cmds + [cmd] == [cmd];
      assert envs + [env] == [env];
      assert [cmd][1..] == [] && [env][1..] == [];
      var (_, reply) := Serve(w, cmd, env);
      assert [reply] + [] == [] + [reply];
    } else {
      assert (cmds + [cmd])[0] == cmds[0];
      assert (cmds + [cmd])[1..] == cmds[1..] + [cmd];
      assert (envs + [env])[0] == envs[0];
      assert (envs + [env])[1..] == envs[1..] + [env];
      var (w1, first) := Serve(w, cmds[0], envs[0]);
      ServeAllAppend(w1, cmds[1..], envs[1..], cmd, env);
      var (wn, rest) := ServeAll(w1, cmds[1..], envs[1..]);
      var (_, last) := Serve(wn, cmd, env);
      assert [first] + (rest + [last]) == ([first] + rest) + [last];
    }
  }

  /** The replies come back in the order of the commands: reply `i` is what
      command `i` gets from the worker as the first `i` commands left it. */
  lemma {:induction false} ServeAllInOrder(w: WorkerState, cmds: seq<AudioCommand>, envs: seq<WorkerEnv>)
    requires |envs| == |cmds|
    ensures forall i :: 0 <= i < |cmds| ==>
      ServeAll(w, cmds, envs).1[i] == Serve(ServeAll(w, cmds[..i], envs[..i]).0, cmds[i], envs[i]).1
    decreases |cmds|
  {
    if cmds != [] {
      var n := |cmds| - 1;
      var init, initEnvs := cmds[..n], envs[..n];
      assert cmds == init + [cmds[n]];
      assert envs == initEnvs + [envs[n]];
      ServeAllAppend(w, init, initEnvs, cmds[n], envs[n]);
      ServeAllInOrder(w, init, initEnvs);
      forall i | 0 <= i < |cmds|
        ensures ServeAll(w, cmds, envs).1[i] == Serve(ServeAll(w, cmds[..i], envs[..i]).0, cmds[i], envs[i]).1
      {
        if i < n {
          assert cmds[..i] == init[..i] && envs[..i] == initEnvs[..i];
        } else {
          assert cmds[..i] == init && envs[..i] == initEnvs;
        }
      }
    }
  }

  /** While a recorder is open, no run of `Start` and `GetLevel` commands changes
      the worker: a second start never opens a second stream. */
  lemma AtMostOneRecorder(w: WorkerState, cmds: seq<AudioCommand>, envs: seq<WorkerEnv>)
    requires |envs| == |cmds| && w.running && w.recorder.Some?
    requires forall i :: 0 <= i < |cmds| ==> cmds[i].Start? || cmds[i].GetLevel?
    ensures ServeAll(w, cmds, envs).0 == w
    decreases |cmds|
  {
    if cmds != [] {
      AtMostOneRecorder(w, cmds[1..], envs[1..]);
    }
  }

  /** The worker thread with its `recorder` variable. */
  class Worker {
    var state: WorkerState

    constructor ()
      ensures state == Fresh
    {
      state := Fresh;
    }

    /** One iteration of the `while let Ok(cmd) = audio_rx.recv()` loop. */
    method Handle(cmd: AudioCommand, env: WorkerEnv) returns (reply: Reply)
      modifies this
      ensures (state, reply) == Serve(old(state), cmd, env)
    {
      if !state.running {
        reply := Dropped;
        return;
      }
      match cmd
      case Start(_) => {
        if state.recorder.None? {
          match env.capture
          case Success(r) => state := WorkerState(true, Some(r));
          case Failure(_) =>
        }
        reply := NoReply;
      }
      case StopAndSave(_) => {
        var taken := state.recorder;
        state := WorkerState(true, None);
        if taken.Some? {
          match env.save
          case Saved => reply := SaveReply(Success(()));
          case SaveFailed(msg) => reply := SaveReply(Failure(msg));
          case Panicked => {
            state := WorkerState(false, None);
            reply := Dropped;
          }
        } else {
          reply := SaveReply(Failure("Not recording"));
        }
      }
      case GetLevel => {
        if state.recorder.Some? {
          reply := LevelReply(env.level);
        } else {
          reply := LevelReply(0.0);
        }
      }
    }

    /** The loop over a run of received commands. */
    method Run(cmds: seq<AudioCommand>, envs: seq<WorkerEnv>) returns (replies: seq<Reply>)
      requires |envs| == |cmds|
      modifies this
      ensures (state, replies) == ServeAll(old(state), cmds, envs)
    {
      replies := [];
      var i := 0;
      while i < |cmds|
        invariant 0 <= i <= |cmds|
        invariant (state, replies) == ServeAll(old(state), cmds[..i], envs[..i])
      {
        ServeAllAppend(old(state), cmds[..i], envs[..i], cmds[i], envs[i]);
        var reply := Handle(cmds[i], envs[i]);
        assert cmds[..i + 1] == cmds[..i] + [cmds[i]];
        assert envs[..i + 1] == envs[..i] + [envs[i]];
        replies := replies + [reply];
        i := i + 1;
      }
      assert cmds[..i] == cmds;
      assert envs[..i] == envs;
    }
  }
}
