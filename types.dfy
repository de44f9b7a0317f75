/** Machine words, play modes and tone-driver commands shared by both copies
    of the melody player. */
module MelodyTypes {

  /** `unsigned char`: the speaker pin number. */
  newtype U8 = x: int | 0 <= x < 0x100

  /** `uint16_t` / AVR `unsigned int`: one word of a melody table. */
  newtype U16 = x: int | 0 <= x < 0x1_0000

  /** `unsigned long`: a `millis()` reading. */
  newtype U32 = x: int | 0 <= x < 0x1_0000_0000

  const TimeModulus: int := 0x1_0000_0000

  datatype Option<T> = None | Some(value: T)

  /** `PLAY_MODE`: play once, play forever, or play once while the caller waits. */
  datatype PlayMode = Normal | Loop | Wait

  /** One call into the tone driver: `tone(pin, freq)` or `noTone(pin)`. */
  datatype Cmd = Tone(pin: U8, freq: U16) | Silence(pin: U8)

  /** How a note's frequency word reaches the tone driver: the root copy hands
      it to `tone` as it is, the copy under MelodyPlayerTest goes through
      `ToneInternal`, which turns 0 Hz into `noTone`. */
  datatype Driver = RawTone | ZeroIsSilence

  /** `time - noteStartTime` on `unsigned long`: the subtraction wraps modulo
      2^32, so the result is the one duration that leads from `start` to `now`
      on the wrapping clock. */
  function Elapsed(now: U32, start: U32): (d: U32)
    ensures (start as int + d as int) % TimeModulus == now as int
  {
    ((now as int - start as int) % TimeModulus) as U32
  }

  /** A clock that wrapped past zero still yields the true elapsed time. */
  lemma ElapsedIsTrueDuration(start: U32, d: nat)
    requires d < TimeModulus
    ensures Elapsed(((start as int + d) % TimeModulus) as U32, start) as int == d
  {
  }

  /** `ToneInternal`: a zero frequency becomes silence, any other frequency a
      tone at exactly that frequency; so no `tone(pin, 0)` is ever produced. */
  function ToneCommand(pin: U8, freq: U16): (c: Cmd)
    ensures c.pin == pin
    ensures c.Silence? <==> freq == 0
    ensures c.Tone? ==> c.freq == freq && c.freq != 0
  {
    if freq == 0 then Silence(pin) else Tone(pin, freq)
  }

  /** The command a note with frequency word `freq` produces under `driver`. */
  function NoteCmd(driver: Driver, pin: U8, freq: U16): Cmd
  {
    match driver
    case RawTone => Tone(pin, freq)
    case ZeroIsSilence => ToneCommand(pin, freq)
  }
}
