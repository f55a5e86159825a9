/** The signal handler as one uninterrupted call. */
module Signals {

  const SIGPIPE := 13

  class SignalState {
    var signum: int
    const cancelled: array<bool>      // one flag for each addon thread

    constructor (nbAddonsThreads: nat)
      ensures signum == 0 && fresh(cancelled) && cancelled.Length == nbAddonsThreads
      ensures forall i :: 0 <= i < cancelled.Length ==> !cancelled[i]
    {
      signum := 0;
      cancelled := new bool[nbAddonsThreads](_ => false);
    }

    /** A broken pipe aborts the process.  Any other signal is recorded if it is the first one, and then
        every addon thread is cancelled; a later signal changes nothing. */
    method SignalHandling(signal: int) returns (aborted: bool)
      modifies this, cancelled
      ensures aborted <==> signal == 13
      ensures aborted || old(signum) != 0 ==> signum == old(signum) && cancelled[..] == old(cancelled[..])
      ensures !aborted && old(signum) == 0 ==>
        signum == signal && forall i :: 0 <= i < cancelled.Length ==> cancelled[i]
    {
      aborted := signal == SIGPIPE;
      if aborted {
        return;
      }
      if signum == 0 {
        signum := signal;
        for i := 0 to cancelled.Length
          invariant signum == signal
          invariant forall j :: 0 <= j < i ==> cancelled[j]
        {
          cancelled[i] := true;
        }
      }
    }
  }

  /** The first signal stays recorded when later handlers run one after another. */
  method Deliver(state: SignalState, signals: seq<int>)
    requires state.signum == 0
    requires forall i :: 0 <= i < |signals| ==> signals[i] > 0 && signals[i] != SIGPIPE
    modifies state, state.cancelled
    ensures state.signum == if signals == [] then 0 else signals[0]
    ensures signals != [] ==> forall i :: 0 <= i < state.cancelled.Length ==> state.cancelled[i]
  {
    for k := 0 to |signals|
      invariant state.signum == if k == 0 then 0 else signals[0]
      invariant k > 0 ==> forall i :: 0 <= i < state.cancelled.Length ==> state.cancelled[i]
    {
      ghost var before := state.cancelled[..];
      var aborted := state.SignalHandling(signals[k]);
      assert k > 0 ==> state.cancelled[..] == before;
      assert k > 0 ==> forall i :: 0 <= i < |before| ==> state.cancelled[i] == before[i];
    }
  }
}
