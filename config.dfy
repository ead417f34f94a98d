/** The configuration constants the core reads (config.py). */
module Config {

  /** The four recognised values of `guidance_mode`, in the order of
      `guidance_options`. */
  datatype GuidanceMode = Glove | Voice | Beep | NoGuidance

  /** `guidance_options`, as the strings a configuration may hold. */
  const GuidanceOptions: seq<string> := ["glove", "voice", "beep", "none"]

  /** Pixel proximity under which the target counts as acquired. */
  const TargetTolerance: int := 40

  /** Duration of a feedback beep, in milliseconds. */
  const BeepDuration: int := 200

  /** Number of class names the detection model's name file must hold. */
  const NumCocoClassNames: nat := 91

  /** Duration of a glove pulse during guidance, in milliseconds. */
  const GlovePulse: int := 200

  /** Duration of a glove pulse when the caller gives none. */
  const DefaultPulse: int := 500

  /** `max_hands`: the hand model reports at most this many hands. */
  const MaxHands: nat := 1

  /** Landmarks the hand model reports per hand; `mp_dict` names the
      positions 0 to 20. */
  const LandmarksPerHand: nat := 21
}
