/**
 * One-shot readiness signals: UiReadyGate (SignalReady completes its task at
 * most once) and DialogBridge (the first Initialize wins and completes the
 * ready task). A TaskCompletionSource is a OneShot: completed or not.
 */
module Gates {
  import opened Wrappers

  /** The state of a TaskCompletionSource's task. */
  class OneShot {
    var completed: bool

    constructor ()
      ensures !completed
    {
      completed := false;
    }

    /** TrySetResult: completes the task; reports whether this call did it. */
    method TrySetResult() returns (changed: bool)
      modifies this
      ensures completed
      ensures changed <==> !old(completed)
    {
      changed := !completed;
      completed := true;
    }

    /** SetResult: completes the task; the caller must know it is not completed yet. */
    method SetResult()
      requires !completed
      modifies this
      ensures completed
    {
      completed := true;
    }
  }

  class UiReadyGate {
    const tcs: OneShot

    constructor ()
      ensures fresh(tcs) && !tcs.completed
    {
      tcs := new OneShot();
    }

    /** WhenReadyAsync. `tcs` is a const field, so every caller, before or after
        SignalReady, awaits the one task that SignalReady completes. */
    function WhenReady(): (t: OneShot)
      ensures t == tcs
    {
      tcs
    }

    /** SignalReady: complete the task unless it already is; a repeated call does nothing. */
    method SignalReady()
      modifies tcs
      ensures tcs.completed
    {
      if !tcs.completed {
        tcs.SetResult();
      }
    }
  }

  /** MudBlazor's IDialogService, by identity. */
  datatype DialogService = DialogService(id: nat)

  class DialogBridge {
    var current: Option<DialogService>
    const ready: OneShot

    /** A set Current implies a completed ready task. */
    predicate Valid()
      reads this, ready
    {
      current.Some? ==> ready.completed
    }

    constructor ()
      ensures Valid() && fresh(ready) && current.None? && !ready.completed
    {
      current := None;
      ready := new OneShot();
    }

    /** WhenReadyAsync. `ready` is a const field, so every caller awaits the one
        task that the first Initialize completes. */
    function WhenReady(): (t: OneShot)
      ensures t == ready
    {
      ready
    }

    /** Initialize: only while Current is unset does it take the argument (which may
        be null) and complete the ready task. */
    method Initialize(dialogs: Option<DialogService>)
      requires Valid()
      modifies this, ready
      ensures Valid()
      ensures old(current).Some? ==> current == old(current) && ready.completed == old(ready.completed)
      ensures old(current).None? ==> current == dialogs && ready.completed
    {
      if current.None? {
        current := dialogs;
        var _ := ready.TrySetResult();
      }
    }
  }
}
