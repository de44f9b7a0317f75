/** The player in MelodyPlayer.h at the top of the repository: the older copy,
    which hands every frequency word to `tone` as it is (0 Hz included) and
    has no `IsPlaying`. The static `paramInternal` record is the state of one
    `MelodyPlayer` object; `tickEnabled` stands for the TOIE1 bit of TIMSK1 and
    `log` for the calls made to the tone driver. */
module MelodyPlayerRoot {
  import opened MelodyTypes
  import opened Sequencer

  class MelodyPlayer {
    var speakerPin: U8
    var noteStartTime: U32
    var noteIndex: nat
    var noteCount: nat
    /** The borrowed melody table; null while stopped. */
    var playingMelody: array?<U16>
    var playMode: PlayMode
    /** TOIE1: the timer-overflow interrupt that runs `Tick` is enabled. */
    var tickEnabled: bool
    /** Every `tone` / `noTone` call made so far, oldest first. */
    var log: seq<Cmd>

    /** The record as a value, with the table's current contents. */
    ghost function Model(): Player
      reads this, playingMelody
    {
      Player(speakerPin, noteStartTime, noteIndex, noteCount,
             if playingMelody == null then None else Some(playingMelody[..]),
             playMode, tickEnabled)
    }

    ghost predicate Valid()
      reads this, playingMelody
    {
      Sequencer.Valid(Model())
    }

    /** The statically zero-initialised `paramInternal`, with the interrupt off. */
    constructor ()
      ensures Valid() && !tickEnabled && log == []
      ensures speakerPin == 0 && noteStartTime == 0 && playingMelody == null
    {
      speakerPin := 0;
      noteStartTime := 0;
      noteIndex := 0;
      noteCount := 0;
      playingMelody := null;
      playMode := Normal;
      tickEnabled := false;
      log := [];
    }

    /** `Begin`: remember the speaker pin (the timer set-up is not modelled). */
    method Begin(pin: U8)
      requires Valid()
      modifies this`speakerPin
      ensures Valid() && speakerPin == pin
    {
      speakerPin := pin;
    }

    /** `End`: the same as `Stop`. */
    method End()
      modifies this
      ensures Valid() && !tickEnabled && playingMelody == null
      ensures Model() == StopStep(old(Model())).next
      ensures log == old(log) + StopStep(old(Model())).cmds
    {
      Stop();
    }

    /** `Play`: take the table by reference, start note 0 at `now` (the
        `millis()` reading) and enable the tick. Returns after arming also in
        WAIT mode: the busy-wait for the tick to finish is not modelled. */
    method Play(melody: array<U16>, mode: PlayMode, now: U32)
      requires melody.Length >= 2
      modifies this
      ensures Valid() && tickEnabled && playingMelody == melody
      ensures noteCount == melody.Length / 2 && noteIndex == 0
      ensures noteStartTime == now && playMode == mode && speakerPin == old(speakerPin)
      ensures log == old(log) + [Tone(speakerPin, melody[0])]
      ensures Model() == PlayStep(RawTone, old(Model()), melody[..], mode, now).next
      ensures log == old(log) + PlayStep(RawTone, old(Model()), melody[..], mode, now).cmds
    {
      noteCount := melody.Length / 2;
      noteIndex := 0;
      playingMelody := melody;
      noteStartTime := now;
      playMode := mode;
      log := log + [Tone(speakerPin, melody[noteIndex * 2])];
      tickEnabled := true;
    }

    /** `Stop`: silence the pin, reset the record, disable the tick. The note
        clock and the pin are left alone. */
    method Stop()
      modifies this
      ensures Valid() && !tickEnabled && playingMelody == null
      ensures noteCount == 0 && noteIndex == 0 && playMode == Normal
      ensures speakerPin == old(speakerPin) && noteStartTime == old(noteStartTime)
      ensures log == old(log) + [Silence(speakerPin)]
      ensures Model() == StopStep(old(Model())).next
      ensures log == old(log) + StopStep(old(Model())).cmds
    {
      log := log + [Silence(speakerPin)];
      noteCount := 0;
      noteIndex := 0;
      playingMelody := null;
      playMode := Normal;
      tickEnabled := false;
    }

    /** The `TIMER1_OVF_vect` handler with `millis()` reading `now`. */
    method Tick(now: U32)
      requires Valid() && tickEnabled
      modifies this
      ensures Valid()
      ensures Model() == TickStep(RawTone, old(Model()), now).next
      ensures log == old(log) + TickStep(RawTone, old(Model()), now).cmds
      ensures tickEnabled ==> playingMelody == old(playingMelody)
    {
      var time := now;
      if Elapsed(time, noteStartTime) as int > playingMelody[noteIndex * 2 + 1] as int {
        noteIndex := noteIndex + 1;
        if noteIndex >= noteCount {
          match playMode
          case Normal =>
            Stop();
            return;
          case Wait =>
            Stop();
            return;
          case Loop =>
            noteIndex := 0;
        }
        noteStartTime := time;
        log := log + [Tone(speakerPin, playingMelody[noteIndex * 2])];
      }
    }
  }
}
