/** The player in MelodyPlayerTest/MelodyPlayer.h: the newer copy, which sends
    every frequency through `ToneInternal` (0 Hz becomes `noTone`) and has
    `IsPlaying`. The static `paramInternal` record is the state of one
    `MelodyPlayer` object; `tickEnabled` stands for the TOIE1 bit of TIMSK1 and
    `log` for the calls made to the tone driver. */
module MelodyPlayerTest {
  import opened MelodyTypes
  import opened Sequencer

  class MelodyPlayer {
    var speakerPin: U8
    var noteStartTime: U32
    var noteIndex: nat
    var noteCount: nat
    /** The borrowed melody table; null while stopped. */
    var playingMelody: array?<U16>
    var playMode: PlayMode
    /** TOIE1: the timer-overflow interrupt that runs `Tick` is enabled. */
    var tickEnabled: bool
    /** Every `tone` / `noTone` call made so far, oldest first. */
    var log: seq<Cmd>

    /** The record as a value, with the table's current contents. */
    ghost function Model(): Player
      reads this, playingMelody
    {
      Player(speakerPin, noteStartTime, noteIndex, noteCount,
             if playingMelody == null then None else Some(playingMelody[..]),
             playMode, tickEnabled)
    }

    ghost predicate Valid()
      reads this, playingMelody
    {
      Sequencer.Valid(Model())
    }

    /** The statically zero-initialised `paramInternal`, with the interrupt off. */
    constructor ()
      ensures Valid() && !tickEnabled && log == []
      ensures speakerPin == 0 && noteStartTime == 0 && playingMelody == null
    {
      speakerPin := 0;
      noteStartTime := 0;
      noteIndex := 0;
      noteCount := 0;
      playingMelody := null;
      playMode := Normal;
      tickEnabled := false;
      log := [];
    }

    /** `Begin`: remember the speaker pin (the timer set-up is not modelled). */
    method Begin(pin: U8)
      requires Valid()
      modifies this`speakerPin
      ensures Valid() && speakerPin == pin
    {
      speakerPin := pin;
    }

    /** `End`: the same as `Stop`. */
    method End()
      modifies this
      ensures Valid() && !tickEnabled && playingMelody == null
      ensures Model() == StopStep(old(Model())).next
      ensures log == old(log) + StopStep(old(Model())).cmds
    {
      Stop();
    }

    /** `IsPlaying`: the interrupt-enable bit, which is set exactly while a
        table is being played. */
    method IsPlaying() returns (playing: bool)
      requires Valid()
      ensures playing == tickEnabled
      ensures playing <==> playingMelody != null
    {
      playing := tickEnabled;
    }

    /** `Play`: take the table by reference, start note 0 at `now` (the
        `millis()` reading) and enable the tick. Returns after arming also in
        WAIT mode: the busy-wait for the tick to finish is not modelled. */
    method Play(melody: array<U16>, mode: PlayMode, now: U32)
      requires melody.Length >= 2
      modifies this
      ensures Valid() && tickEnabled && playingMelody == melody
      ensures noteCount == melody.Length / 2 && noteIndex == 0
      ensures noteStartTime == now && playMode == mode && speakerPin == old(speakerPin)
      ensures log == old(log) + [ToneCommand(speakerPin, melody[0])]
      ensures Model() == PlayStep(ZeroIsSilence, old(Model()), melody[..], mode, now).next
      ensures log == old(log) + PlayStep(ZeroIsSilence, old(Model()), melody[..], mode, now).cmds
    {
      noteCount := melody.Length / 2;
      noteIndex := 0;
      playingMelody := melody;
      noteStartTime := now;
      playMode := mode;
      ToneInternal(melody[noteIndex * 2]);
      tickEnabled := true;
    }

    /** `Stop`: silence the pin, reset the record, disable the tick. The note
        clock and the pin are left alone. */
    method Stop()
      modifies this
      ensures Valid() && !tickEnabled && playingMelody == null
      ensures noteCount == 0 && noteIndex == 0 && playMode == Normal
      ensures speakerPin == old(speakerPin) && noteStartTime == old(noteStartTime)
      ensures log == old(log) + [Silence(speakerPin)]
      ensures Model() == StopStep(old(Model())).next
      ensures log == old(log) + StopStep(old(Model())).cmds
    {
      log := log + [Silence(speakerPin)];
      noteCount := 0;
      noteIndex := 0;
      playingMelody := null;
      playMode := Normal;
      tickEnabled := false;
    }

    /** `ToneInternal`: `noTone` for 0 Hz, otherwise `tone` at `freq`. */
    method ToneInternal(freq: U16)
      modifies this`log
      ensures log == old(log) + [ToneCommand(speakerPin, freq)]
    {
      if freq == 0 {
        log := log + [Silence(speakerPin)];
      } else {
        log := log + [Tone(speakerPin, freq)];
      }
    }

    /** The `TIMER1_OVF_vect` handler with `millis()` reading `now`. */
    method Tick(now: U32)
      requires Valid() && tickEnabled
      modifies this
      ensures Valid()
      ensures Model() == TickStep(ZeroIsSilence, old(Model()), now).next
      ensures log == old(log) + TickStep(ZeroIsSilence, old(Model()), now).cmds
      ensures tickEnabled ==> playingMelody == old(playingMelody)
    {
      var time := now;
      if Elapsed(time, noteStartTime) as int > playingMelody[noteIndex * 2 + 1] as int {
        noteIndex := noteIndex + 1;
        if noteIndex >= noteCount {
          match playMode
          case Normal =>
            Stop();
            return;
          case Wait =>
            Stop();
            return;
          case Loop =>
            noteIndex := 0;
        }
        noteStartTime := time;
        ToneInternal(playingMelody[noteIndex * 2]);
      }
    }
  }
}
