/** Concrete playbacks of the three-note table (440 Hz for 200 ms, silence for
    100 ms, 523 Hz for 150 ms) through the copy that sends frequencies through
    `ToneInternal`. */
module Scenarios {
  import opened MelodyTypes
  import opened Sequencer

  const Table: seq<U16> := [440, 200, 0, 100, 523, 150]

  /** Played once from time 0 with ticks at 200, 201, 301, 302, 452 and 453:
      a note is due only once its duration is strictly exceeded, the silent
      note is a `noTone`, and after the last note the player stops with one
      more silence. */
  lemma NormalScenario(p: Player)
    ensures var s := PlayStep(ZeroIsSilence, p, Table, Normal, 0);
      var r := Run(ZeroIsSilence, s.next, [200, 201, 301, 302, 452, 453]);
      Run(ZeroIsSilence, s.next, [200]) == Step(s.next, []) &&
      s.cmds + r.cmds == [Tone(p.pin, 440), Silence(p.pin), Tone(p.pin, 523), Silence(p.pin)] &&
      !r.next.tickEnabled
  {
  }

  /** Looped from time 0 with due ticks at 201, 302 and 453 the table starts
      over at note 0; a `Stop` at 600, in the middle of that note, disarms the
      player at once and silences it. */
  lemma LoopScenario(p: Player)
    ensures var s := PlayStep(ZeroIsSilence, p, Table, Loop, 0);
      var r := Run(ZeroIsSilence, s.next, [201, 302, 453, 600]);
      var stop := StopStep(r.next);
      r.next.tickEnabled && r.next.noteIndex == 0 &&
      s.cmds + r.cmds == [Tone(p.pin, 440), Silence(p.pin), Tone(p.pin, 523), Tone(p.pin, 440)] &&
      !stop.next.tickEnabled && stop.cmds == [Silence(p.pin)]
  {
  }

  /** The clock wrapping past zero between two readings: a note started at
      2^32 - 6 and checked at 5 has lasted 11 ms. */
  lemma WrapScenario()
    ensures Elapsed(5, 0xFFFF_FFFA) == 11
  {
  }
}
