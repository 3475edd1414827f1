/** The guard behind "call the original exactly once". */
module OriginalCall {
  datatype OriginalPhase = BeforeOriginal | CallingOriginal | AfterOriginal

  class OriginalGuard {
    var phase: OriginalPhase

    constructor ()
      ensures phase == BeforeOriginal
    {
      phase := BeforeOriginal;
    }

    predicate NeedsOriginal()
      reads this
    {
      phase == BeforeOriginal
    }

    /** Only the first call is let through; nothing ever leads back to BeforeOriginal. */
    method BeginCall() returns (granted: bool)
      modifies this
      ensures granted == old(NeedsOriginal()) && !NeedsOriginal()
      ensures phase == if granted then CallingOriginal else old(phase)
    {
      if phase == BeforeOriginal {
        phase := CallingOriginal;
        return true;
      }
      return false;
    }

    method EndCall()
      modifies this
      ensures phase == if old(phase) == CallingOriginal then AfterOriginal else old(phase)
    {
      if phase == CallingOriginal {
        phase := AfterOriginal;
      }
    }
  }
}
