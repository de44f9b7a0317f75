# Arduino MelodyPlayer: the note sequencer, modelled in Dafny

The library plays a melody on one speaker pin. A melody is a flat table of
16-bit words, read as (frequency, duration in ms) pairs. `Play` loads the
table, sounds note 0 and enables the TIMER1 overflow interrupt. The interrupt
handler (`TIMER1_OVF_vect`) runs on every timer overflow. It compares the
wrapping difference `millis() - noteStartTime` with the current note's
duration. Once the note has run strictly longer than that, the handler moves
to the next note. At the end of the table it either stops (NORMAL and WAIT
modes) or goes back to note 0 (LOOP mode). `Stop` silences the pin, resets
the record and disables the interrupt.

The repository holds two copies of the player:

- `MelodyPlayer.h`: the older copy. It hands each frequency word to `tone`
  unchanged, so a 0 Hz word is passed as well. It has no `IsPlaying`.
- `MelodyPlayerTest/MelodyPlayer.h`: the newer copy. It sends frequencies
  through `ToneInternal`, which turns 0 Hz into `noTone`. It also has
  `IsPlaying`.

## Layout

- `types.dfy`, module `MelodyTypes`. It holds the machine words (`U8`, `U16`,
  `U32`), `PlayMode` and the tone-driver commands `Cmd` (`Tone(pin, freq)` for
  `tone`, `Silence(pin)` for `noTone`). It also holds the wrapping subtraction
  `Elapsed` and `ToneCommand`, the choice `ToneInternal` makes.
  `Driver` says which copy is meant: `RawTone` for the older copy,
  `ZeroIsSilence` for the newer one.
- `sequencer.dfy`, module `Sequencer`. The record (`Player`) as a value, its
  invariant `Valid`, and what `Play`, `Stop` and one tick do
  (`PlayStep`, `StopStep`, `TickStep`). `Run` gives the effect of many ticks.
  The lemmas state the per-tick behaviour and whole-playback properties.
- `melody_player_root.dfy` and `melody_player_test.dfy`, modules
  `MelodyPlayerRoot` and `MelodyPlayerTest`. Each holds one class
  `MelodyPlayer` for one copy. The fields are those of `paramInternal`, plus
  `tickEnabled` for the TOIE1 bit of TIMSK1 and `log` for the tone-driver
  calls made so far. `Play` is proved to follow `PlayStep`, `Stop` and
  `End` to follow `StopStep`, and `Tick` to follow `TickStep`; their
  contracts also state the new fields directly. `Begin`, `IsPlaying` and
  `ToneInternal` state their effect directly (`ToneInternal` appends
  `MelodyTypes.ToneCommand`).
- `scenarios.dfy`, module `Scenarios`. Concrete playbacks of a three-note
  table in NORMAL and LOOP mode, and a clock-wrap example.

The melody table is a borrowed `array<U16>` reference. The class stores the
reference and never copies the table. The value model sees the table's
contents. `millis()` is the `now` argument of `Play` and `Tick`.
`pgm_read_word_near` is plain indexing.

## Model

| member | source | states |
|---|---|---|
| MelodyTypes.Elapsed | MelodyPlayerTest/MelodyPlayer.h:160-163 | the elapsed time is the one value in [0, 2^32) that leads from the note's start time to `now` on the wrapping 32-bit clock |
| MelodyTypes.ElapsedIsTrueDuration | MelodyPlayer.h:98-101 | if `now` lies d ms after the start, for any d < 2^32, the computed elapsed time is d, even when the clock wrapped past zero in between |
| MelodyTypes.ToneCommand | MelodyPlayerTest/MelodyPlayer.h:142-152 | 0 Hz gives `noTone(pin)`; any other frequency gives `tone(pin, f)` at exactly f; so the result is never a zero-frequency tone |
| Sequencer.PlayStep | MelodyPlayerTest/MelodyPlayer.h:106-118 | for a table of at least 2 words: noteCount = words/2 (an odd last word is ignored), index 0, start time `now`, the given mode, the table held, tick enabled, invariant established; note 0's frequency is the one command |
| Sequencer.StopStep | MelodyPlayerTest/MelodyPlayer.h:125-135 | one silence on the pin; count, index, table and mode reset to 0/0/null/NORMAL; tick disabled; pin and note start time unchanged |
| Sequencer.TickStep | MelodyPlayerTest/MelodyPlayer.h:158-188 | a tick keeps the invariant and the pin, sends at most one command, and keeps the table, count and mode while the player stays enabled |
| Sequencer.Run | MelodyPlayerTest/MelodyPlayer.h:158-188 | any number of ticks keeps the invariant (armed ⇒ table held and 0 ≤ index < count; disarmed ⇒ reset state) and the pin |
| Sequencer.TickBeforeDue | MelodyPlayerTest/MelodyPlayer.h:160-163 | while the elapsed time is at most the duration word 2·index+1 (equal included), a tick changes nothing and sends nothing |
| Sequencer.TickAdvances | MelodyPlayerTest/MelodyPlayer.h:162-186 | a due tick before the last note: index + 1, start time := now, the new note's command sent; nothing else changes |
| Sequencer.TickFinishes | MelodyPlayerTest/MelodyPlayer.h:169-176 | a due tick on the last note in NORMAL or WAIT is exactly `Stop`: silence, reset record, tick disabled, start time not updated, no tone |
| Sequencer.TickWraps | MelodyPlayer.h:107-124 | a due tick on the last note in LOOP: index 0, start time := now, note 0's command sent, tick stays enabled |
| Sequencer.LoopTickAdvances | MelodyPlayerTest/MelodyPlayer.h:166-186 | in LOOP mode every due tick moves to note (index + 1) mod count and sends that note's command |
| Sequencer.WaitTicksLikeNormal | MelodyPlayerTest/MelodyPlayer.h:171-176 | the tick handles WAIT exactly as NORMAL: same commands, same new state apart from the mode field |
| Sequencer.StopIdempotent | MelodyPlayer.h:79-89 | a second `Stop` leaves the state as the first left it and only sends the silence again |
| Sequencer.PlaysThroughOnce | MelodyPlayerTest/MelodyPlayer.h:158-188 | in NORMAL/WAIT mode, any run of ticks plays the later notes once, in table order, one command each; if the run ends disarmed, it sent every remaining note and then one silence |
| Sequencer.LoopCycles | MelodyPlayerTest/MelodyPlayer.h:158-188 | in LOOP mode, any run of ticks stays armed on the same table, count and mode; the notes after the current one are sent cyclically, and the index advances by the number sent, mod count |
| Sequencer.PlaysMelodyOnce | MelodyPlayerTest/MelodyPlayer.h:106-188 | a playback started in NORMAL/WAIT sends notes 0, 1, … in order, keeping the table, count and mode while armed; once it is over it has sent exactly all notes and then one silence |
| Sequencer.LoopsMelodyForever | MelodyPlayer.h:60-126 | a playback started in LOOP never disarms by itself and keeps the table, count and LOOP mode; the commands are the table's notes repeated cyclically from note 0 |
| Sequencer.SilenceAtZeroRunNeverTonesZero | MelodyPlayerTest/MelodyPlayer.h:185-186 | with `ToneInternal`, no run of ticks ever calls `tone(pin, 0)` |
| Sequencer.SilenceAtZeroNeverTonesZero | MelodyPlayerTest/MelodyPlayer.h:142-152 | with `ToneInternal`, no whole playback (Play, then ticks) ever calls `tone(pin, 0)`, whatever the table holds |
| Sequencer.RawToneTonesZero | MelodyPlayer.h:69 | the older copy's `Play`, given a table that starts with a 0 Hz note, calls `tone(pin, 0)` |
| MelodyPlayerTest.MelodyPlayer.constructor | MelodyPlayerTest/MelodyPlayer.h:156 | the statically zero-initialised record: pin 0, stopped, interrupt off, no calls made |
| MelodyPlayerTest.MelodyPlayer.Begin | MelodyPlayerTest/MelodyPlayer.h:84-94 | records the pin and changes nothing else |
| MelodyPlayerTest.MelodyPlayer.End | MelodyPlayerTest/MelodyPlayer.h:96-99 | has the same effect as `Stop` |
| MelodyPlayerTest.MelodyPlayer.IsPlaying | MelodyPlayerTest/MelodyPlayer.h:101-104 | returns exactly the interrupt-enable bit, which is set exactly while a table is held; changes nothing |
| MelodyPlayerTest.MelodyPlayer.Play | MelodyPlayerTest/MelodyPlayer.h:106-123 | stores the table reference; count words/2, index 0, start `now`, the given mode; one `ToneInternal` of note 0; tick enabled; follows `PlayStep` |
| MelodyPlayerTest.MelodyPlayer.Stop | MelodyPlayerTest/MelodyPlayer.h:125-135 | appends `noTone(pin)`; resets count, index, table and mode; disables the tick; pin and start time unchanged; follows `StopStep` |
| MelodyPlayerTest.MelodyPlayer.ToneInternal | MelodyPlayerTest/MelodyPlayer.h:142-152 | appends exactly `ToneCommand(pin, freq)` and changes nothing else |
| MelodyPlayerTest.MelodyPlayer.Tick | MelodyPlayerTest/MelodyPlayer.h:158-188 | the new record and the appended calls are those of `TickStep`; the invariant holds; the table reference is kept while playing |
| MelodyPlayerRoot.MelodyPlayer.constructor | MelodyPlayer.h:94 | the statically zero-initialised record: pin 0, stopped, interrupt off, no calls made |
| MelodyPlayerRoot.MelodyPlayer.Begin | MelodyPlayer.h:43-53 | records the pin and changes nothing else |
| MelodyPlayerRoot.MelodyPlayer.End | MelodyPlayer.h:55-58 | has the same effect as `Stop` |
| MelodyPlayerRoot.MelodyPlayer.Play | MelodyPlayer.h:60-77 | stores the table reference; count words/2, index 0, start `now`, the given mode; `tone(pin, f0)` with the raw word of note 0; tick enabled; follows `PlayStep` |
| MelodyPlayerRoot.MelodyPlayer.Stop | MelodyPlayer.h:79-89 | appends `noTone(pin)`; resets count, index, table and mode; disables the tick; pin and start time unchanged; follows `StopStep` |
| MelodyPlayerRoot.MelodyPlayer.Tick | MelodyPlayer.h:96-126 | the new record and the appended calls are those of `TickStep` with raw `tone`; the invariant holds; the table reference is kept while playing |
| Scenarios.NormalScenario | MelodyPlayerTest/MelodyPlayer.h:106-188 | table (440,200),(0,100),(523,150) in NORMAL mode, ticks at 200…453: `tone 440`, silence, `tone 523`, silence, then stopped; 200 ms alone is not yet due |
| Scenarios.LoopScenario | MelodyPlayerTest/MelodyPlayer.h:106-188 | the same table in LOOP mode starts over at note 0 after the last note; a `Stop` in mid-note disarms and silences at once |
| Scenarios.WrapScenario | MelodyPlayerTest/MelodyPlayer.h:160-163 | a note started at 2^32 − 6 and checked at 5 has lasted 11 ms |

## Left out

- Timer set-up: `Begin`'s TIMER1 register writes (`TCCR1A`, `TCCR1B`) are not modelled. The TOIE1 bit of TIMSK1 is the boolean `tickEnabled`.
- Platform calls: `tone`, `noTone`, `millis` and `pgm_read_word_near` are foreign calls. They are modelled as appended `Cmd` entries, a `now` argument and indexing.
- WAIT blocking: the busy-wait in `Play` for WAIT mode is not modelled, because it only ends when the interrupt preempts it. `Play` returns after arming in every mode. `WaitTicksLikeNormal` states that the tick treats WAIT as NORMAL.
- Preemption: interrupts and torn writes between `Play`/`Stop` and the handler are not modelled. A tick is a sequential call of `Tick`, made only while `tickEnabled` holds, as the hardware only runs the handler then.
- Timing tolerance: a note runs longer than its duration by up to one tick period. That bound depends on the tick rate and is not modelled. The model only states that a note never advances before its duration is strictly exceeded.
- Integer widths: `noteIndex` and `noteCount` are AVR 16-bit `int` but are `nat` here. The table size is itself an `int`, so `noteIndex * 2 + 1` cannot overflow.
- Short tables: a table of one word (`SIZE` = 1) is not accepted. `Play` requires at least two words, a caller's obligation. With one word, the first tick would read past the end of the table.
- Table contents: the melody data in `Melody.h` and `Pitches.h` is not part of this model.
- Table changes: a caller that changes the table during playback is not guarded against. The class reads the table at each tick, as the source does.
- Frequency range: the range 31–65535 Hz is not checked, and the source does not check it either.
- Stop on a stopped player: both copies call `noTone` again, so a second `Stop` repeats the silence and changes no state (`StopIdempotent`).

## Findings

| source | as written | input that shows it | evidently intended | confidence | as-written member | corrected member |
|---|---|---|---|---|---|---|
| MelodyPlayer.h:69 | `Play` (and the tick, line 124) passes the frequency word to `tone` unchanged, so a 0 Hz note becomes `tone(pin, 0)`, whose behaviour the platform does not define | table {0, 100, 440, 100}: `Play` sends `tone(pin, 0)` | a 0 Hz note is silence (`noTone`), as `ToneInternal` in MelodyPlayerTest/MelodyPlayer.h:142-152 does | not executed; high | Sequencer.RawToneTonesZero | Sequencer.SilenceAtZeroNeverTonesZero |

`MelodyPlayerRoot` models the older file as written (driver `RawTone`).
`MelodyPlayerTest` and the scenarios use the corrected driver `ZeroIsSilence`.
