/** The note sequencer as values: the `ParamInternal` record together with the
    timer-overflow enable bit, and what `Play`, `Stop` and one timer tick do to
    it and send to the tone driver. Both copies of the player are proved to
    follow these functions; the lemmas below say what the functions mean. */
module Sequencer {
  import opened MelodyTypes

  /** `paramInternal` plus the TOIE1 bit of TIMSK1. `melody` is the contents
      of the borrowed table, `None` where the source holds a null pointer. */
  datatype Player = Player(
    pin: U8,
    noteStartTime: U32,
    noteIndex: nat,
    noteCount: nat,
    melody: Option<seq<U16>>,
    playMode: PlayMode,
    tickEnabled: bool)

  /** The state after an operation and the tone-driver calls it made, in order. */
  datatype Step = Step(next: Player, cmds: seq<Cmd>)

  /** While the tick is armed a table is held, it has `noteCount` whole notes
      and the current note is one of them; while it is disarmed the record is
      in the reset state that `Stop` (or static zero-initialisation) leaves. */
  predicate Valid(p: Player) {
    if p.tickEnabled then
      p.melody.Some? && p.noteCount == |p.melody.value| / 2 && p.noteIndex < p.noteCount
    else
      p.noteIndex == 0 && p.noteCount == 0 && p.melody.None? && p.playMode == Normal
  }

  /** The duration word of the current note: table word `2 * noteIndex + 1`. */
  function Duration(p: Player): U16
    requires Valid(p) && p.tickEnabled
  {
    p.melody.value[2 * p.noteIndex + 1]
  }

  /** The current note has run out: the wrapping elapsed time is strictly
      greater than its duration (reaching it is not enough). */
  predicate Due(p: Player, now: U32)
    requires Valid(p) && p.tickEnabled
  {
    Elapsed(now, p.noteStartTime) as int > Duration(p) as int
  }

  /** `Play`: load the table, sound note 0, arm the tick. */
  function PlayStep(driver: Driver, p: Player, table: seq<U16>, mode: PlayMode, now: U32): (s: Step)
    requires |table| >= 2
    ensures Valid(s.next) && s.next.tickEnabled
    ensures s.next.noteIndex == 0 && s.next.noteCount == |table| / 2
    ensures s.next.melody == Some(table) && s.next.playMode == mode
    ensures s.next.noteStartTime == now && s.next.pin == p.pin
    ensures s.cmds == [NoteCmd(driver, p.pin, table[0])]
  {
    var q := Player(p.pin, now, 0, |table| / 2, Some(table), mode, true);
    Step(q, [NoteCmd(driver, q.pin, table[q.noteIndex * 2])])
  }

  /** `Stop`: silence the pin, reset the record, disarm the tick. */
  function StopStep(p: Player): (s: Step)
    ensures Valid(s.next) && !s.next.tickEnabled
    ensures s.next.pin == p.pin && s.next.noteStartTime == p.noteStartTime
    ensures s.cmds == [Silence(p.pin)]
  {
    Step(p.(noteIndex := 0, noteCount := 0, melody := None, playMode := Normal, tickEnabled := false),
         [Silence(p.pin)])
  }

  /** Move to note `j`: restart the note clock and send the note's frequency. */
  function Advance(driver: Driver, p: Player, j: nat, now: U32): (s: Step)
    requires Valid(p) && p.tickEnabled && j < p.noteCount
  {
    Step(p.(noteIndex := j, noteStartTime := now), [NoteCmd(driver, p.pin, p.melody.value[2 * j])])
  }

  /** One run of the timer-overflow handler with `millis()` reading `now`.
      The handler only runs while its interrupt is enabled. */
  function TickStep(driver: Driver, p: Player, now: U32): (s: Step)
    requires Valid(p) && p.tickEnabled
    ensures Valid(s.next) && s.next.pin == p.pin
    ensures |s.cmds| <= 1
    ensures s.next.tickEnabled ==>
      s.next.melody == p.melody && s.next.noteCount == p.noteCount && s.next.playMode == p.playMode
  {
    if !Due(p, now) then
      Step(p, [])
    else
      var i := p.noteIndex + 1;
      if i < p.noteCount then
        Advance(driver, p, i, now)
      else
        match p.playMode
        case Normal => StopStep(p)
        case Wait => StopStep(p)
        case Loop => Advance(driver, p, 0, now)
  }

  /** Ticks at the successive clock readings `times`; once the tick has been
      disarmed the handler no longer runs. */
  function Run(driver: Driver, p: Player, times: seq<U32>): (r: Step)
    requires Valid(p)
    ensures Valid(r.next) && r.next.pin == p.pin
    decreases |times|
  {
    if times == [] || !p.tickEnabled then
      Step(p, [])
    else
      var s := TickStep(driver, p, times[0]);
      var rest := Run(driver, s.next, times[1..]);
      Step(rest.next, s.cmds + rest.cmds)
  }

  // ---------------------------------------------------------------------
  // One tick

  /** A tick that comes before the current note has lasted strictly longer
      than its duration changes nothing and sends nothing. */
  lemma TickBeforeDue(driver: Driver, p: Player, now: U32)
    requires Valid(p) && p.tickEnabled
    requires !Due(p, now)
    ensures TickStep(driver, p, now) == Step(p, [])
  {
  }

  /** A due tick before the last note moves to the next note, restarts the
      note clock, sends that note's frequency and touches nothing else. */
  lemma TickAdvances(driver: Driver, p: Player, now: U32)
    requires Valid(p) && p.tickEnabled
    requires Due(p, now)
    requires p.noteIndex + 1 < p.noteCount
    ensures TickStep(driver, p, now).next == p.(noteIndex := p.noteIndex + 1, noteStartTime := now)
    ensures TickStep(driver, p, now).cmds == [NoteCmd(driver, p.pin, p.melody.value[2 * (p.noteIndex + 1)])]
  {
  }

  /** A due tick on the last note in NORMAL or WAIT mode is `Stop`: silence,
      the reset record, the tick disarmed, the note clock left as it was and
      no further tone. */
  lemma TickFinishes(driver: Driver, p: Player, now: U32)
    requires Valid(p) && p.tickEnabled && p.playMode != Loop
    requires Due(p, now)
    requires p.noteIndex + 1 == p.noteCount
    ensures TickStep(driver, p, now) == StopStep(p)
    ensures TickStep(driver, p, now).next.noteStartTime == p.noteStartTime
    ensures TickStep(driver, p, now).cmds == [Silence(p.pin)]
    ensures !TickStep(driver, p, now).next.tickEnabled
  {
  }

  /** A due tick on the last note in LOOP mode goes back to note 0, sends its
      frequency and stays armed. */
  lemma TickWraps(driver: Driver, p: Player, now: U32)
    requires Valid(p) && p.tickEnabled && p.playMode == Loop
    requires Due(p, now)
    requires p.noteIndex + 1 == p.noteCount
    ensures TickStep(driver, p, now).next == p.(noteIndex := 0, noteStartTime := now)
    ensures TickStep(driver, p, now).cmds == [NoteCmd(driver, p.pin, p.melody.value[0])]
    ensures TickStep(driver, p, now).next.tickEnabled
  {
  }

  /** The tick treats WAIT exactly as NORMAL: same commands, same state apart
      from the mode it keeps while still playing. */
  lemma WaitTicksLikeNormal(driver: Driver, p: Player, now: U32)
    requires Valid(p) && p.tickEnabled && p.playMode == Wait
    ensures TickStep(driver, p, now).cmds == TickStep(driver, p.(playMode := Normal), now).cmds
    ensures TickStep(driver, p, now).next.(playMode := Normal)
         == TickStep(driver, p.(playMode := Normal), now).next
  {
  }

  /** A second `Stop` leaves the state as the first one left it and only sends
      silence again. */
  lemma StopIdempotent(p: Player)
    ensures StopStep(StopStep(p).next) == Step(StopStep(p).next, [Silence(p.pin)])
  {
  }

  // ---------------------------------------------------------------------
  // Many ticks

  /** `cmds` are the commands for notes `from`, `from + 1`, ... of table `m`,
      one per note, in table order. */
  predicate NotesFrom(driver: Driver, pin: U8, m: seq<U16>, from: nat, cmds: seq<Cmd>) {
    2 * (from + |cmds|) <= |m| &&
    forall j :: 0 <= j < |cmds| ==> cmds[j] == NoteCmd(driver, pin, m[2 * (from + j)])
  }

  /** `cmds` are the commands for notes `from`, `from + 1`, ... of the first
      `n` notes of table `m`, going back to note 0 after note `n - 1`. */
  predicate CyclicFrom(driver: Driver, pin: U8, m: seq<U16>, n: nat, from: nat, cmds: seq<Cmd>) {
    0 < n && 2 * n <= |m| &&
    forall j :: 0 <= j < |cmds| ==> cmds[j] == NoteCmd(driver, pin, m[2 * ((from + j) % n)])
  }

  lemma {:induction false} NotesFromCons(driver: Driver, pin: U8, m: seq<U16>, from: nat, cmds: seq<Cmd>)
    requires NotesFrom(driver, pin, m, from + 1, cmds)
    ensures NotesFrom(driver, pin, m, from, [NoteCmd(driver, pin, m[2 * from])] + cmds)
  {
  }

  /** What ticks in NORMAL or WAIT mode starting from `p` may have done by the
      time they reach `r`: while still armed, played the notes after the
      current one in table order and kept the table, count and mode; once
      disarmed, played every remaining note and then one silence. */
  predicate PlayedOnce(driver: Driver, p: Player, r: Step)
    requires Valid(p) && p.tickEnabled
  {
    (r.next.tickEnabled ==>
      r.next.melody == p.melody && r.next.noteCount == p.noteCount &&
      r.next.playMode == p.playMode && r.next.noteIndex == p.noteIndex + |r.cmds| &&
      NotesFrom(driver, p.pin, p.melody.value, p.noteIndex + 1, r.cmds)) &&
    (!r.next.tickEnabled ==>
      |r.cmds| == p.noteCount - p.noteIndex && r.cmds[|r.cmds| - 1] == Silence(p.pin) &&
      NotesFrom(driver, p.pin, p.melody.value, p.noteIndex + 1, r.cmds[..|r.cmds| - 1]))
  }

  lemma {:induction false} PlayedOnceAfterAdvance(driver: Driver, p: Player, t: U32, rest: Step)
    requires Valid(p) && p.tickEnabled && p.noteIndex + 1 < p.noteCount
    requires PlayedOnce(driver, p.(noteIndex := p.noteIndex + 1, noteStartTime := t), rest)
    ensures PlayedOnce(driver, p, Step(rest.next, [NoteCmd(driver, p.pin, p.melody.value[2 * (p.noteIndex + 1)])] + rest.cmds))
  {
  }

  /** In NORMAL or WAIT mode the ticks play the notes after the current one
      once, in table order, one command per note; the only way out is a single
      silence after the last note, and after it nothing more happens. */
  lemma {:induction false} PlaysThroughOnce(driver: Driver, p: Player, times: seq<U32>)
    requires Valid(p) && p.tickEnabled && p.playMode != Loop
    ensures PlayedOnce(driver, p, Run(driver, p, times))
    decreases |times|
  {
    if times == [] {
      assert Run(driver, p, times) == Step(p, []);
    } else {
      var t := times[0];
      var s := TickStep(driver, p, t);
      var rest := Run(driver, s.next, times[1..]);
      assert Run(driver, p, times) == Step(rest.next, s.cmds + rest.cmds);
      if !Due(p, t) {
        TickBeforeDue(driver, p, t);
        PlaysThroughOnce(driver, p, times[1..]);
        assert s.cmds + rest.cmds == rest.cmds;
      } else if p.noteIndex + 1 < p.noteCount {
        TickAdvances(driver, p, t);
        PlaysThroughOnce(driver, s.next, times[1..]);
        PlayedOnceAfterAdvance(driver, p, t, rest);
      } else {
        TickFinishes(driver, p, t);
        assert rest == Step(s.next, []);
        assert s.cmds + rest.cmds == [Silence(p.pin)];
      }
    }
  }

  lemma {:induction false} MulAtLeast(a: int, n: int)
    requires 1 <= a && 0 < n
    ensures a * n >= n
  {
  }

  /** Euclidean remainder is the only `r` in `[0, n)` with `y == k * n + r`. */
  lemma {:induction false} ModUnique(y: int, n: int, k: int, r: int)
    requires 0 < n && 0 <= r < n && y == k * n + r
    ensures y % n == r
  {
    var k', r' := y / n, y % n;
    assert y == k' * n + r';
    if k' < k {
      assert (k - k') * n == r' - r;
      MulAtLeast(k - k', n);
    } else if k < k' {
      assert (k' - k) * n == r - r';
      MulAtLeast(k' - k, n);
    }
  }

  lemma {:induction false} ModAddLeft(a: nat, b: nat, n: nat)
    requires 0 < n
    ensures (a % n + b) % n == (a + b) % n
  {
    var y := a % n + b;
    ModUnique(a + b, n, a / n + y / n, y % n);
  }

  lemma {:induction false} CyclicFromCons(driver: Driver, pin: U8, m: seq<U16>, n: nat, from: nat, cmds: seq<Cmd>)
    requires CyclicFrom(driver, pin, m, n, from + 1, cmds)
    ensures CyclicFrom(driver, pin, m, n, from, [NoteCmd(driver, pin, m[2 * (from % n)])] + cmds)
  {
  }

  lemma {:induction false} CyclicFromShift(driver: Driver, pin: U8, m: seq<U16>, n: nat, a: nat, b: nat, cmds: seq<Cmd>)
    requires 0 < n && CyclicFrom(driver, pin, m, n, a % n + b, cmds)
    ensures CyclicFrom(driver, pin, m, n, a + b, cmds)
  {
    forall j | 0 <= j < |cmds|
      ensures cmds[j] == NoteCmd(driver, pin, m[2 * ((a + b + j) % n)])
    {
      var k := (a % n + b + j) % n;
      assert cmds[j] == NoteCmd(driver, pin, m[2 * k]);
      ModAddLeft(a, b + j, n);
      assert k == (a + b + j) % n;
    }
  }

  /** What ticks in LOOP mode starting from `p` may have done by the time they
      reach `r`: stayed armed on the same table, count and mode, and played
      the notes after the current one cyclically, ending on the note as many
      places on as commands were sent. */
  predicate Looped(driver: Driver, p: Player, r: Step)
    requires Valid(p) && p.tickEnabled
  {
    r.next.tickEnabled && r.next.playMode == Loop &&
    r.next.melody == p.melody && r.next.noteCount == p.noteCount &&
    r.next.noteIndex == (p.noteIndex + |r.cmds|) % p.noteCount &&
    CyclicFrom(driver, p.pin, p.melody.value, p.noteCount, p.noteIndex + 1, r.cmds)
  }

  lemma {:induction false} LoopedAfterAdvance(driver: Driver, p: Player, t: U32, rest: Step)
    requires Valid(p) && p.tickEnabled && p.playMode == Loop
    requires Looped(driver, p.(noteIndex := (p.noteIndex + 1) % p.noteCount, noteStartTime := t), rest)
    ensures Looped(driver, p, Step(rest.next, [NoteCmd(driver, p.pin, p.melody.value[2 * ((p.noteIndex + 1) % p.noteCount)])] + rest.cmds))
  {
    var n, m := p.noteCount, p.melody.value;
    CyclicFromShift(driver, p.pin, m, n, p.noteIndex + 1, 1, rest.cmds);
    CyclicFromCons(driver, p.pin, m, n, p.noteIndex + 1, rest.cmds);
    ModAddLeft(p.noteIndex + 1, |rest.cmds|, n);
  }

  /** In LOOP mode every due tick moves to the next note modulo the count. */
  lemma LoopTickAdvances(driver: Driver, p: Player, t: U32)
    requires Valid(p) && p.tickEnabled && p.playMode == Loop && Due(p, t)
    ensures var i' := (p.noteIndex + 1) % p.noteCount;
      TickStep(driver, p, t) == Step(p.(noteIndex := i', noteStartTime := t), [NoteCmd(driver, p.pin, p.melody.value[2 * i'])])
  {
    if p.noteIndex + 1 < p.noteCount {
      ModUnique(p.noteIndex + 1, p.noteCount, 0, p.noteIndex + 1);
      TickAdvances(driver, p, t);
    } else {
      ModUnique(p.noteIndex + 1, p.noteCount, 1, 0);
      TickWraps(driver, p, t);
    }
  }

  /** In LOOP mode the ticks never disarm and never let go of the table, and
      the commands sent are the notes after the current one, taken cyclically
      through the table. */
  lemma {:induction false} LoopCycles(driver: Driver, p: Player, times: seq<U32>)
    requires Valid(p) && p.tickEnabled && p.playMode == Loop
    ensures Looped(driver, p, Run(driver, p, times))
    decreases |times|
  {
    var n := p.noteCount;
    if times == [] {
      assert Run(driver, p, times) == Step(p, []);
      ModUnique(p.noteIndex, n, 0, p.noteIndex);
    } else {
      var t := times[0];
      var s := TickStep(driver, p, t);
      var rest := Run(driver, s.next, times[1..]);
      assert Run(driver, p, times) == Step(rest.next, s.cmds + rest.cmds);
      if !Due(p, t) {
        TickBeforeDue(driver, p, t);
        LoopCycles(driver, p, times[1..]);
        assert s.cmds + rest.cmds == rest.cmds;
      } else {
        LoopTickAdvances(driver, p, t);
        LoopCycles(driver, s.next, times[1..]);
        LoopedAfterAdvance(driver, p, t, rest);
      }
    }
  }

  // ---------------------------------------------------------------------
  // Whole playbacks: `Play`, then ticks

  /** A playback started in NORMAL or WAIT mode sends the table's notes once,
      from note 0 in order; once it has ended it has sent exactly every note
      and then one silence. */
  lemma PlaysMelodyOnce(driver: Driver, p: Player, table: seq<U16>, mode: PlayMode, start: U32, times: seq<U32>)
    requires |table| >= 2 && mode != Loop
    ensures var s := PlayStep(driver, p, table, mode, start);
      var r := Run(driver, s.next, times);
      var out := s.cmds + r.cmds;
      (r.next.tickEnabled ==>
        r.next.melody == Some(table) && r.next.noteCount == |table| / 2 &&
        r.next.playMode == mode && |out| == r.next.noteIndex + 1 &&
        NotesFrom(driver, p.pin, table, 0, out)) &&
      (!r.next.tickEnabled ==>
        |out| == |table| / 2 + 1 && out[|table| / 2] == Silence(p.pin) &&
        NotesFrom(driver, p.pin, table, 0, out[..|table| / 2]))
  {
    var s := PlayStep(driver, p, table, mode, start);
    var r := Run(driver, s.next, times);
    PlaysThroughOnce(driver, s.next, times);
    if r.next.tickEnabled {
      NotesFromCons(driver, p.pin, table, 0, r.cmds);
    } else {
      NotesFromCons(driver, p.pin, table, 0, r.cmds[..|r.cmds| - 1]);
      assert (s.cmds + r.cmds)[..|table| / 2] == s.cmds + r.cmds[..|r.cmds| - 1];
    }
  }

  /** A playback started in LOOP mode never stops by itself and sends the
      table's notes repeated cyclically from note 0. */
  lemma LoopsMelodyForever(driver: Driver, p: Player, table: seq<U16>, start: U32, times: seq<U32>)
    requires |table| >= 2
    ensures var s := PlayStep(driver, p, table, Loop, start);
      var r := Run(driver, s.next, times);
      var out := s.cmds + r.cmds;
      r.next.tickEnabled && r.next.melody == Some(table) &&
      r.next.noteCount == |table| / 2 && r.next.playMode == Loop &&
      r.next.noteIndex == (|out| - 1) % (|table| / 2) &&
      CyclicFrom(driver, p.pin, table, |table| / 2, 0, out)
  {
    var s := PlayStep(driver, p, table, Loop, start);
    var r := Run(driver, s.next, times);
    LoopCycles(driver, s.next, times);
    assert 0 % (|table| / 2) == 0;
    CyclicFromCons(driver, p.pin, table, |table| / 2, 0, r.cmds);
  }

  // ---------------------------------------------------------------------
  // Zero frequencies

  /** No `tone(pin, 0)` in a command list. */
  predicate NoZeroTone(cmds: seq<Cmd>) {
    forall c :: c in cmds && c.Tone? ==> c.freq != 0
  }

  /** With `ToneInternal` in between, no tick ever asks the tone driver for a
      zero frequency. */
  lemma {:induction false} SilenceAtZeroRunNeverTonesZero(p: Player, times: seq<U32>)
    requires Valid(p)
    ensures NoZeroTone(Run(ZeroIsSilence, p, times).cmds)
    decreases |times|
  {
    if times != [] && p.tickEnabled {
      var s := TickStep(ZeroIsSilence, p, times[0]);
      SilenceAtZeroRunNeverTonesZero(s.next, times[1..]);
      assert NoZeroTone(s.cmds);
    }
  }

  /** With `ToneInternal` in between, no playback ever asks the tone driver for
      a zero frequency, whatever the table holds. */
  lemma SilenceAtZeroNeverTonesZero(p: Player, table: seq<U16>, mode: PlayMode, start: U32, times: seq<U32>)
    requires |table| >= 2
    ensures var s := PlayStep(ZeroIsSilence, p, table, mode, start);
      NoZeroTone(s.cmds + Run(ZeroIsSilence, s.next, times).cmds)
  {
    var s := PlayStep(ZeroIsSilence, p, table, mode, start);
    SilenceAtZeroRunNeverTonesZero(s.next, times);
  }

  /** Sending the raw frequency word, a silent note becomes `tone(pin, 0)`:
      the table (0 Hz for 100 ms, 440 Hz for 100 ms) starts with one. */
  lemma RawToneTonesZero(p: Player, mode: PlayMode, start: U32)
    ensures PlayStep(RawTone, p, [0, 100, 440, 100], mode, start).cmds == [Tone(p.pin, 0)]
    ensures !NoZeroTone(PlayStep(RawTone, p, [0, 100, 440, 100], mode, start).cmds)
  {
  }
}
