/** The encoding choices the user makes: output container, quality preset
    and playback speed. */
module Formats {
  import opened Numerics

  /** Output containers, in declaration order. */
  datatype OutputFormat = M4A | MP3 | OGG | FLAC | WAV {
    /** The containers encoded with a target bit rate. */
    predicate IsLossy() {
      this == M4A || this == MP3 || this == OGG
    }
  }

  /** Quality presets and the bit rate each one asks of a lossy encoder. */
  datatype QualityPreset = HIGH | MEDIUM | LOW {
    function BitrateKbps(): nat {
      match this
      case HIGH => 320
      case MEDIUM => 192
      case LOW => 128
    }
  }

  const MIN_SPEED: real := 0.1
  const MAX_SPEED: real := 4.0

  /** `speed.coerceIn(0.1f, 4f)`, applied by the view model, the speed
      slider and the tempo filter alike. */
  function ClampSpeed(speed: real): (r: real)
    ensures MIN_SPEED <= r <= MAX_SPEED
    ensures MIN_SPEED <= speed <= MAX_SPEED ==> r == speed
    ensures speed < MIN_SPEED ==> r == MIN_SPEED
    ensures speed > MAX_SPEED ==> r == MAX_SPEED
  {
    CoerceInReal(speed, MIN_SPEED, MAX_SPEED)
  }
}
