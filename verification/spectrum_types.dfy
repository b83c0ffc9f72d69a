/** Values shared by every part of the spectrum renderer: the configuration a
    drawing session closes over, what one read of the frequency array yields,
    the canvas calls a frame makes, and the outcome of one animation frame. */
module SpectrumTypes {

  /** One entry of the analyser's byte frequency data (a Uint8Array element). */
  type Byte = x: int | 0 <= x < 256

  /** Playback state as last reported by the audio element's play/pause events. */
  datatype PlayStatus = Paused | Playing

  /** Reading one entry of the frequency array. A typed-array read past the
      end yields JavaScript's `undefined` rather than a number. */
  datatype Reading = Value(v: Byte) | Undefined

  /** The rendering props a drawing session uses. `width` and `height` are the
      canvas element's integer size; colours are abstracted into `Paint`. */
  datatype Config = Config(
    width: nat,
    height: nat,
    capHeight: real,
    meterWidth: real,
    gap: real,
    meterCount: nat)
  {
    /** The height meters are scaled into: the canvas height minus one cap. */
    function DrawableHeight(): real {
      height as real - capHeight
    }
  }

  /** The fill a rectangle is painted with: the cap colour or the meter gradient. */
  datatype Paint = CapColor | MeterGradient

  /** One canvas call of a frame. */
  datatype Draw =
    | ClearRect(x: real, y: real, w: real, h: real)
    | FillRect(paint: Paint, x: real, y: real, w: real, h: real)

  /** What one animation frame does: either it clears the canvas and schedules
      nothing more, or it draws and schedules the next frame with new caps. */
  datatype TickResult =
    | Stop(draws: seq<Draw>)
    | Continue(caps: seq<int>, draws: seq<Draw>)
}
