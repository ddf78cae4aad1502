/** loading_sounds.py: the loading-sound overlay. A fixed registry of five
    cues, a default cue, and an object whose `is_playing` flag and
    `sound_thread` reference change as cues are started and stopped.

    The background thread's body is modelled as two explicit steps, entering
    (which raises the flag) and finishing (which plays the cue and lowers the
    flag on every path), so that a stop can fall between them. What a cue
    plays is recorded in the order the thread bodies finish. */
module LoadingSounds {
  import opened Common

  // ---------------------------------------------------------------------------
  // the registry

  /** A cue is either spoken with piper ("type": "tts") or a sound file. */
  datatype Kind = Tts(text: string) | SoundFile(file: Path)

  datatype SoundConfig = SoundConfig(description: string, kind: Kind, duration: real)

  /** `self.loading_sounds`, in declaration order. */
  function Registry(): seq<(string, SoundConfig)> {
    [("gentle_chime", SoundConfig("Soft spiritual chime", SoundFile("loading_chime.wav"), 2.0)),
     ("peaceful_ambient", SoundConfig("Peaceful ambient tones", SoundFile("peaceful_ambient.wav"), 3.0)),
     ("voice_processing", SoundConfig("Voice says 'Processing...'", Tts("Processing your request..."), 2.0)),
     ("voice_thinking", SoundConfig("Voice says 'Thinking...'", Tts("Thinking..."), 1.5)),
     ("simple_beep", SoundConfig("Simple beep sound", SoundFile("simple_beep.wav"), 0.5))]
  }

  const DefaultSound: string := "voice_processing"

  /** `self.loading_sounds.get(id)` over a list of entries. */
  function LookupIn(entries: seq<(string, SoundConfig)>, id: string): Option<SoundConfig>
    decreases |entries|
  {
    if entries == [] then None
    else if entries[0].0 == id then Some(entries[0].1)
    else LookupIn(entries[1..], id)
  }

  function Lookup(id: string): Option<SoundConfig> {
    LookupIn(Registry(), id)
  }

  /** `list(self.loading_sounds.keys())` */
  function ListAvailableSounds(): seq<string> {
    seq(|Registry()|, i requires 0 <= i < |Registry()| => Registry()[i].0)
  }

  /** An id is found exactly when it is one of the listed ids. */
  lemma {:induction false} LookupInSpec(entries: seq<(string, SoundConfig)>, id: string)
    ensures LookupIn(entries, id).Some? <==> exists i :: 0 <= i < |entries| && entries[i].0 == id
    ensures LookupIn(entries, id).Some? ==> (id, LookupIn(entries, id).value) in entries
    decreases |entries|
  {
    if entries != [] && entries[0].0 != id {
      LookupInSpec(entries[1..], id);
      if exists i :: 0 <= i < |entries| && entries[i].0 == id {
        var i :| 0 <= i < |entries| && entries[i].0 == id;
        assert entries[1..][i - 1] == entries[i];
      }
      if LookupIn(entries, id).Some? {
        var i :| 0 <= i < |entries[1..]| && entries[1..][i].0 == id;
        assert entries[i + 1] == entries[1..][i];
      }
    }
  }

  /** The five ids in declaration order; exactly those are found; the two
      "voice_" cues are spoken and the other three are files. */
  lemma RegistrySpec(id: string)
    ensures ListAvailableSounds() == ["gentle_chime", "peaceful_ambient", "voice_processing", "voice_thinking", "simple_beep"]
    ensures Lookup(id).Some? <==> id in ListAvailableSounds()
    ensures Lookup(id).Some? ==> (Lookup(id).value.kind.Tts? <==> id == "voice_processing" || id == "voice_thinking")
  {
    LookupInSpec(Registry(), id);
    var ids := ListAvailableSounds();
    assert id in ids <==> exists i :: 0 <= i < |Registry()| && Registry()[i].0 == id by {
      if id in ids {
        var i :| 0 <= i < |ids| && ids[i] == id;
        assert Registry()[i].0 == id;
      }
      if exists i :: 0 <= i < |Registry()| && Registry()[i].0 == id {
        var i :| 0 <= i < |Registry()| && Registry()[i].0 == id;
        assert ids[i] == id;
      }
    }
  }

  /** The entry registered under the default id. */
  const DefaultConfig: SoundConfig := SoundConfig("Voice says 'Processing...'", Tts("Processing your request..."), 2.0)

  /** The default cue is registered: it speaks "Processing your request...". */
  lemma DefaultSoundRegistered()
    ensures Lookup(DefaultSound) == Some(DefaultConfig)
  {
  }

  // ---------------------------------------------------------------------------
  // what the thread body plays

  /** Speaking a text with piper, or playing a file (or the fallback beep)
      for a duration. */
  /** What a cue thread hands on: text for the speech engine, or a file and
      the duration passed to `_play_audio_file`. That duration only sizes the
      silent fallback played when the file is missing; an existing file is
      played whole by `aplay`. */
  datatype Playback = SpeakText(text: string) | PlayFile(file: Path, duration: real)

  /** The thread body's dispatch: a spoken cue says its text; a file cue
      hands its file and `duration or sound_config["duration"]` to
      `_play_audio_file`, so a missing or zero override falls back to the
      registry's duration. */
  function Dispatch(config: SoundConfig, duration: Option<real>): (p: Playback)
    ensures p.SpeakText? <==> config.kind.Tts?
    ensures config.kind.SoundFile? ==> p.file == config.kind.file
  {
    match config.kind
    case Tts(text) => SpeakText(text)
    case SoundFile(file) => PlayFile(file, if duration.Some? && duration.value != 0.0 then duration.value else config.duration)
  }

  /** Registered cues are dispatched by kind. Unless the caller asks for a
      negative duration, the duration a file cue hands to `_play_audio_file`
      is positive; without an override it is the registered duration. */
  lemma DispatchSpec(id: string, duration: Option<real>)
    requires Lookup(id).Some?
    ensures var c := Lookup(id).value;
      (Dispatch(c, duration).SpeakText? <==> c.kind.Tts?) &&
      (c.kind.Tts? ==> Dispatch(c, duration).text == c.kind.text) &&
      (c.kind.SoundFile? ==> Dispatch(c, duration).file == c.kind.file) &&
      (c.kind.SoundFile? && (duration.None? || duration.value >= 0.0) ==> Dispatch(c, duration).duration > 0.0) &&
      (c.kind.SoundFile? && (duration.None? || duration == Some(0.0)) ==> Dispatch(c, duration).duration == c.duration)
  {
    LookupInSpec(Registry(), id);
  }

  // ---------------------------------------------------------------------------
  // the object's state and its steps

  /** A started `threading.Thread` running the body for one cue; `id` keeps
      two threads for the same cue apart. */
  datatype SoundThread = SoundThread(id: nat, config: SoundConfig, duration: Option<real>)

  datatype State = State(isPlaying: bool, soundThread: Option<SoundThread>, nextThread: nat, playbacks: seq<Playback>)

  /** Every thread started so far has an id below `nextThread`, so a new
      thread is never the current one. */
  predicate Fresh(s: State) {
    s.soundThread.Some? ==> s.soundThread.value.id < s.nextThread
  }

  /** Every step keeps thread ids fresh. */
  lemma StepsKeepFresh(s: State, soundType: Option<string>, duration: Option<real>, t: SoundThread)
    requires Fresh(s)
    ensures Fresh(Initial())
    ensures Fresh(StopStep(s)) && Fresh(PlayStep(s, soundType, duration))
    ensures Fresh(EnterStep(s)) && Fresh(FinishStep(s, t))
  {
  }

  function Initial(): State {
    State(false, None, 0, [])
  }

  /** `stop_loading_sound`: only a playing cue is stopped. The thread is
      joined, not killed, so its reference stays and a running aplay goes on. */
  function StopStep(s: State): (r: State)
    ensures !r.isPlaying && r.soundThread == s.soundThread && r.nextThread == s.nextThread && r.playbacks == s.playbacks
  {
    if s.isPlaying then s.(isPlaying := false) else s
  }

  /** `play_loading_sound`: no id means the default; an unknown id changes
      nothing; a known one stops the current cue, then starts a new thread. */
  function PlayStep(s: State, soundType: Option<string>, duration: Option<real>): (r: State)
    ensures r.playbacks == s.playbacks
    ensures Lookup(soundType.GetOr(DefaultSound)).None? ==> r == s
    ensures Lookup(soundType.GetOr(DefaultSound)).Some? ==> !r.isPlaying && r.nextThread == s.nextThread + 1
  {
    var id := soundType.GetOr(DefaultSound);
    match Lookup(id)
    case None => s
    case Some(config) =>
      var stopped := StopStep(s);
      stopped.(soundThread := Some(SoundThread(s.nextThread, config, duration)), nextThread := s.nextThread + 1)
  }

  /** The thread body starts: `self.is_playing = True`. */
  function EnterStep(s: State): State {
    s.(isPlaying := true)
  }

  /** The thread body ends, normally or through the `except`: its cue has been
      played and the `finally` lowers the flag. */
  function FinishStep(s: State, t: SoundThread): State {
    s.(isPlaying := false, playbacks := s.playbacks + [Dispatch(t.config, t.duration)])
  }

  /** Stopping leaves nothing playing, touches nothing else, changes nothing
      when idle, and a second stop does nothing more. */
  lemma StopSpec(s: State)
    ensures !StopStep(s).isPlaying
    ensures StopStep(s) == s.(isPlaying := false)
    ensures !s.isPlaying ==> StopStep(s) == s
    ensures StopStep(StopStep(s)) == StopStep(s)
  {
  }

  /** An unknown id leaves the state as it was, including a cue that is
      playing. */
  lemma PlayUnknown(s: State, id: string, duration: Option<real>)
    requires Lookup(id).None?
    ensures PlayStep(s, Some(id), duration) == s
  {
  }

  /** A known id stops first: afterwards nothing is flagged as playing, the
      new thread is the current one and nothing has been played yet; so
      playing from a stopped state is the same. Without an id the default cue
      is played. */
  lemma PlayKnown(s: State, soundType: Option<string>, duration: Option<real>)
    requires Lookup(soundType.GetOr(DefaultSound)).Some?
    ensures var r := PlayStep(s, soundType, duration);
      !r.isPlaying && r.playbacks == s.playbacks &&
      r.soundThread == Some(SoundThread(s.nextThread, Lookup(soundType.GetOr(DefaultSound)).value, duration)) &&
      (Fresh(s) ==> r.soundThread != s.soundThread)
    ensures PlayStep(StopStep(s), soundType, duration) == PlayStep(s, soundType, duration)
    ensures PlayStep(s, None, duration) == PlayStep(s, Some(DefaultSound), duration)
  {
  }

  /** Entering and then finishing the thread body always leaves the flag
      down and records exactly the cue's playback. */
  lemma ThreadBodySpec(s: State, t: SoundThread)
    ensures var r := FinishStep(EnterStep(s), t);
      !r.isPlaying && r.playbacks == s.playbacks + [Dispatch(t.config, t.duration)] &&
      r.soundThread == s.soundThread
  {
  }

  // ---------------------------------------------------------------------------
  // process_with_loading(process_func)

  /** How far the default cue's thread got before `stop_loading_sound` ran:
      not yet into its body, inside it (the cue is still being played), or
      through its `finally`. A thread that is not started or still running
      at the stop is not followed any further. */
  datatype CueProgress = NotStarted | Running | Finished

  /** The default cue as the thread body plays it: the spoken "Processing
      your request...". */
  const ProcessingCue: Playback := SpeakText("Processing your request...")

  /** The dispatch the cue's thread has recorded by the time of the stop.
      Whether the speech engine made it audible (its voice model may be
      missing) is not part of the record. */
  function CuePlayed(progress: CueProgress): seq<Playback> {
    if progress == Finished then [ProcessingCue] else []
  }

  /** The default cue is started, its thread gets as far as `progress` says,
      and the `finally` stops it. */
  function ProcessStep(s: State, progress: CueProgress): State {
    var played := PlayStep(s, None, None);
    var t := SoundThread(s.nextThread, Lookup(DefaultSound).value, None);
    var during := match progress
      case NotStarted => played
      case Running => EnterStep(played)
      case Finished => FinishStep(EnterStep(played), t);
    StopStep(during)
  }

  /** Afterwards nothing is flagged as playing and the default cue's thread is
      the current one. The playback record gains the cue's dispatch exactly
      when its thread got through its body before the stop, and nothing
      otherwise: a stop that finds the flag already lowered by the thread's
      `finally` does nothing. */
  lemma ProcessStepSpec(s: State, progress: CueProgress)
    ensures var r := ProcessStep(s, progress);
      !r.isPlaying && r.nextThread == s.nextThread + 1 &&
      r.soundThread == Some(SoundThread(s.nextThread, Lookup(DefaultSound).value, None)) &&
      r.playbacks == s.playbacks + CuePlayed(progress)
    ensures progress == Finished ==>
      ProcessStep(s, progress) == FinishStep(EnterStep(PlayStep(s, None, None)), ProcessStep(s, progress).soundThread.value)
  {
    DefaultSoundRegistered();
  }

  /** Two loading overlays in a row (an answer computed, then spoken): two
      threads are started, nothing is left flagged as playing, and the
      second overlay's thread is the current one. */
  lemma ProcessTwiceSpec(s: State, first: CueProgress, second: CueProgress)
    ensures ProcessStep(ProcessStep(s, first), second) ==
      State(false, Some(SoundThread(s.nextThread + 1, DefaultConfig, None)), s.nextThread + 2,
            s.playbacks + CuePlayed(first) + CuePlayed(second))
  {
    DefaultSoundRegistered();
    ProcessStepSpec(s, first);
    ProcessStepSpec(ProcessStep(s, first), second);
  }

  // ---------------------------------------------------------------------------
  // the class

  /** What `process_func` did: returned a value, or raised. */
  datatype Outcome<R> = Returned(value: R) | Raised

  class LoadingSoundSystem {
    var isPlaying: bool
    var soundThread: Option<SoundThread>
    var nextThread: nat
    var playbacks: seq<Playback>

    function Snapshot(): State
      reads this
    {
      State(isPlaying, soundThread, nextThread, playbacks)
    }

    constructor()
      ensures Snapshot() == Initial()
    {
      isPlaying, soundThread, nextThread, playbacks := false, None, 0, [];
    }

    method PlayLoadingSound(soundType: Option<string>, duration: Option<real>)
      modifies this
      ensures Snapshot() == PlayStep(old(Snapshot()), soundType, duration)
    {
      var id := soundType.GetOr(DefaultSound);
      var config := Lookup(id);
      if config.None? {
        return;
      }
      StopLoadingSound();
      soundThread := Some(SoundThread(nextThread, config.value, duration));
      nextThread := nextThread + 1;
    }

    method StopLoadingSound()
      modifies this
      ensures Snapshot() == StopStep(old(Snapshot()))
    {
      if isPlaying {
        isPlaying := false;
      }
    }

    /** The first statement of `_play_sound_thread`. */
    method EnterThreadBody()
      modifies this
      ensures Snapshot() == EnterStep(old(Snapshot()))
    {
      isPlaying := true;
    }

    /** The rest of `_play_sound_thread` for thread `t`: dispatch, any error
      caught and printed, and the `finally`. */
    method FinishThreadBody(t: SoundThread)
      modifies this
      ensures Snapshot() == FinishStep(old(Snapshot()), t)
    {
      var playback := Dispatch(t.config, t.duration);
      playbacks := playbacks + [playback];
      isPlaying := false;
    }

    /** `process_with_loading`: the default cue is started, `process_func`
      runs (its outcome is `outcome`; `progress` says how far the cue's
      thread got meanwhile), and the `finally` stops the cue whether the
      function returned or raised. Its outcome is passed on unchanged. */
    method ProcessWithLoading<R>(outcome: Outcome<R>, progress: CueProgress) returns (r: Outcome<R>)
      modifies this
      ensures r == outcome
      ensures Snapshot() == ProcessStep(old(Snapshot()), progress)
      ensures !isPlaying && playbacks == old(playbacks) + CuePlayed(progress)
      ensures soundThread == Some(SoundThread(old(nextThread), Lookup(DefaultSound).value, None))
    {
      DefaultSoundRegistered();
      PlayLoadingSound(None, None);
      var t := soundThread.value;
      if progress != NotStarted {
        EnterThreadBody();
      }
      if progress == Finished {
        FinishThreadBody(t);
      }
      r := outcome;
      StopLoadingSound();
    }
  }
}
