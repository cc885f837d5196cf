/** In-flight accounting for the quiesce barrier (src/console/pause-gate.ts). */
module PauseGate {
  import opened Wrappers

  /** While a drain is armed, new staging signatures live this long. */
  const ARMED_PRESIGN_TTL_MS := 60 * 1000

  /** The counter and the signature floor, as a value. */
  datatype Quiesce = Quiesce(inFlight: nat, signatureFloorMs: int) {
    function Enter(): Quiesce { this.(inFlight := inFlight + 1) }

    function Leave(): Quiesce { if inFlight > 0 then this.(inFlight := inFlight - 1) else this }

    function NoteSignature(expiresAt: int): Quiesce {
      if expiresAt > signatureFloorMs then this.(signatureFloorMs := expiresAt) else this
    }

    /** Nothing in flight here, and no signature outstanding. */
    predicate IsQuiesced(now: int) { inFlight == 0 && now >= signatureFloorMs }
  }

  /** The object the gate and the barrier share. */
  class IngestQuiesce {
    var inFlight: nat
    var signatureFloorMs: int

    function State(): Quiesce
      reads this
    {
      Quiesce(inFlight, signatureFloorMs)
    }

    constructor ()
      ensures State() == Quiesce(0, 0)
    {
      inFlight, signatureFloorMs := 0, 0;
    }

    method Enter()
      modifies this
      ensures State() == old(State()).Enter()
    {
      inFlight := inFlight + 1;
    }

    method Leave()
      modifies this
      ensures State() == old(State()).Leave()
    {
      if inFlight > 0 { inFlight := inFlight - 1; }
    }

    /** `expiresAt` is None when the stamp did not parse. */
    method NoteSignature(expiresAt: Option<int>)
      modifies this
      ensures State() == if expiresAt.Some? then old(State()).NoteSignature(expiresAt.value) else old(State())
    {
      if expiresAt.Some? && expiresAt.value > signatureFloorMs { signatureFloorMs := expiresAt.value; }
    }
  }
}
