/**
 * The Windows App: activations that arrive before the UI is up are queued and
 * run, in arrival order, once OnLaunched marks the UI ready; after that each
 * new activation runs as soon as it is queued. Launch arguments and platform
 * activations are classified into open-torrents and open-magnet requests.
 */
module WindowsApp {
  import opened Wrappers
  import opened Text
  import opened SingleInstanceApp

  /** An item of a file activation: Files.OfType<StorageFile>() keeps only files. */
  datatype StorageItem = StorageFile(path: string) | StorageFolder(path: string)

  datatype Uri = Uri(scheme: string, absoluteUri: string)

  /** AppActivationArguments: its Kind and, where the Data has the expected
      interface, the payload (None when the cast or the Uri is null). */
  datatype ActivationArgs =
    | FileActivation(files: Option<seq<StorageItem>>)
    | ProtocolActivation(uri: Option<Uri>)
    | OtherActivation

  /** The paths of the storage files, in order. */
  function FilePaths(items: seq<StorageItem>): (r: seq<string>)
    ensures |r| <= |items|
    ensures forall p :: p in r <==> StorageFile(p) in items
  {
    if items == [] then []
    else (if items[0].StorageFile? then [items[0].path] else []) + FilePaths(items[1..])
  }

  /** A file contributes its path, a folder nothing. */
  lemma FilePathsOne(item: StorageItem)
    ensures FilePaths([item]) == if item.StorageFile? then [item.path] else []
  {
    assert [item][1..] == [];
  }

  /** The paths keep the items' order: those of a concatenation are concatenated. */
  lemma {:induction false} FilePathsAppend(a: seq<StorageItem>, b: seq<StorageItem>)
    ensures FilePaths(a + b) == FilePaths(a) + FilePaths(b)
  {
    if a == [] {
      assert a + b == b;
    } else {
      var ab := a + b;
      assert ab[0] == a[0] && ab[1..] == a[1..] + b;
      var h := (if a[0].StorageFile? then [a[0].path] else []);
      assert FilePaths(ab) == h + FilePaths(a[1..] + b);
      FilePathsAppend(a[1..], b);
      assert FilePaths(a) == h + FilePaths(a[1..]);
    }
  }

  /** DispatchActivationAsync: what an activation opens, if anything. */
  function DispatchActivation(a: ActivationArgs): (r: Option<OpenRequest>)
    ensures r.Some? && r.value.OpenTorrents? <==> a.FileActivation? && a.files.Some?
    ensures r.Some? && r.value.OpenTorrents? ==> r.value.paths == FilePaths(a.files.value)
    ensures r.Some? && r.value.OpenMagnet? <==>
      a.ProtocolActivation? && a.uri.Some? && EqualsIgnoreCase(a.uri.value.scheme, "magnet")
    ensures r.Some? && r.value.OpenMagnet? ==> r.value.uri == a.uri.value.absoluteUri
  {
    match a
    case FileActivation(Some(items)) => Some(OpenTorrents(FilePaths(items)))
    case ProtocolActivation(Some(u)) =>
      if EqualsIgnoreCase(u.scheme, "magnet") then Some(OpenMagnet(u.absoluteUri)) else None
    case _ => None
  }

  /** OnLaunched's look at the command line: only argv[1], quotes trimmed; an
      existing file opens as a torrent (whatever its extension), otherwise a
      magnet prefix opens a magnet. */
  function LaunchRequest(argv: seq<string>, existing: set<string>): (r: Option<OpenRequest>)
    ensures |argv| < 2 ==> r.None?
    ensures |argv| >= 2 ==>
      var arg := TrimQuotes(argv[1]);
      && (r == Some(OpenTorrents([arg])) <==> arg in existing)
      && (r == Some(OpenMagnet(arg)) <==> arg !in existing && StartsWithIgnoreCase(arg, MagnetPrefix))
      && (r.None? <==> arg !in existing && !StartsWithIgnoreCase(arg, MagnetPrefix))
  {
    if |argv| < 2 then None
    else
      var arg := TrimQuotes(argv[1]);
      if arg in existing then Some(OpenTorrents([arg]))
      else if StartsWithIgnoreCase(arg, MagnetPrefix) then Some(OpenMagnet(arg))
      else None
  }

  /** A deferred action of `_pending`. */
  datatype PendingAction = Dispatch(args: ActivationArgs) | Open(request: OpenRequest)

  /** What running an action asks of the coordinator. */
  function Effect(a: PendingAction): (r: seq<OpenRequest>)
    ensures |r| <= 1
  {
    match a
    case Open(q) => [q]
    case Dispatch(args) => match DispatchActivation(args) { case Some(q) => [q] case None => [] }
  }

  /** The requests of a sequence of actions run in order. */
  function Effects(actions: seq<PendingAction>): seq<OpenRequest> {
    if actions == [] then [] else Effects(actions[..|actions| - 1]) + Effect(actions[|actions| - 1])
  }

  lemma {:induction false} EffectsAppend(a: seq<PendingAction>, b: seq<PendingAction>)
    ensures Effects(a + b) == Effects(a) + Effects(b)
    decreases |b|
  {
    if b == [] {
      assert a + b == a;
    } else {
      EffectsAppend(a, b[..|b| - 1]);
      assert (a + b)[..|a + b| - 1] == a + b[..|b| - 1];
    }
  }

  /** Whether running the action calls OpenTorrentsAsync, the one coordinator call
      that can throw; OpenMagnetAsync completes at once. */
  predicate CanThrow(a: PendingAction) {
    |Effect(a)| == 1 && Effect(a)[0].OpenTorrents?
  }

  /** Whether the action numbered `failsAt` of a drain over `queue` throws. */
  predicate DrainFaults(queue: seq<PendingAction>, failsAt: Option<nat>) {
    failsAt.Some? && failsAt.value < |queue| && CanThrow(queue[failsAt.value])
  }

  /** How many actions of `queue` one drain dequeues and runs: all of them, or, when one
      throws, those up to and including it; the exception ends DrainPendingAsync's loop. */
  function DrainCount(queue: seq<PendingAction>, failsAt: Option<nat>): (n: nat)
    ensures n <= |queue|
    ensures DrainFaults(queue, failsAt) <==> n < |queue| || (n > 0 && failsAt == Some(n - 1) && CanThrow(queue[n - 1]))
    ensures DrainFaults(queue, failsAt) ==> n > 0 && CanThrow(queue[n - 1])
    ensures failsAt.None? ==> n == |queue|
  {
    if DrainFaults(queue, failsAt) then failsAt.value + 1 else |queue|
  }

  /** The action OnLaunched queues for the launch argument's request, if any. */
  function LaunchActions(q: Option<OpenRequest>): seq<PendingAction> {
    match q
    case Some(r) => [Open(r)]
    case None => []
  }

  /** What OnLaunched runs and leaves queued, from the actions queued before it:
      the first drain, then, when there is a launch request, the drain its
      EnqueueActivation starts over what is left plus the request. */
  function LaunchRun(queue: seq<PendingAction>, q: Option<OpenRequest>, drainFault: Option<nat>, launchFault: Option<nat>)
    : (r: (seq<PendingAction>, seq<PendingAction>))
    ensures r.0 + r.1 == queue + LaunchActions(q)
  {
    var first := DrainCount(queue, drainFault);
    assert queue[..first] + queue[first..] == queue;
    match q
    case None => (queue[..first], queue[first..])
    case Some(req) =>
      var rest := queue[first..] + [Open(req)];
      var n := DrainCount(rest, launchFault);
      assert rest[..n] + rest[n..] == rest;
      (queue[..first] + rest[..n], rest[n..])
  }

  /** Without a throwing action, a launch runs everything queued, in arrival order,
      then its own request, and leaves nothing queued. */
  lemma LaunchRunFaultFree(queue: seq<PendingAction>, q: Option<OpenRequest>)
    ensures LaunchRun(queue, q, None, None) == (queue + LaunchActions(q), [])
  {
    assert DrainCount(queue, None) == |queue|;
    assert queue[..|queue|] == queue && queue[|queue|..] == [];
    if q.Some? {
      var rest := queue[|queue|..] + [Open(q.value)];
      assert rest == [Open(q.value)];
      assert DrainCount(rest, None) == 1;
      assert rest[..1] == rest && rest[1..] == [];
      assert LaunchRun(queue, q, None, None) == (queue[..|queue|] + rest[..1], rest[1..]);
      assert LaunchActions(q) == [Open(q.value)];
    } else {
      assert LaunchRun(queue, q, None, None) == (queue[..|queue|], queue[|queue|..]);
      assert queue + LaunchActions(q) == queue;
    }
  }

  /** One launch with a request, step by step: the first drain, then the drain of what is
      left with the request behind it. */
  lemma LaunchRunSteps(queue: seq<PendingAction>, req: OpenRequest, drainFault: Option<nat>, launchFault: Option<nat>,
                       first: nat, rest: seq<PendingAction>)
    requires first == DrainCount(queue, drainFault) && rest == queue[first..] + [Open(req)]
    ensures LaunchRun(queue, Some(req), drainFault, launchFault).0 == queue[..first] + rest[..DrainCount(rest, launchFault)]
    ensures LaunchRun(queue, Some(req), drainFault, launchFault).1 == rest[DrainCount(rest, launchFault)..]
  {
  }

  /** The requests of a launch that runs everything queued, then its own request. */
  lemma LaunchEffects(ran: seq<PendingAction>, pending: seq<PendingAction>, q: Option<OpenRequest>)
    ensures Effects(ran + pending + LaunchActions(q))
      == Effects(ran) + Effects(pending) + match q { case Some(r) => [r] case None => [] }
  {
    EffectsAppend(ran, pending);
    if q.Some? {
      EffectsAppend(ran + pending, [Open(q.value)]);
      assert Effects([Open(q.value)]) == [q.value] by {
        assert [Open(q.value)][..0] == [];
      }
    } else {
      assert ran + pending + [] == ran + pending;
    }
  }

  /** `_pending` and `_uiReady`, with the actions run so far (on the main thread, in order).
      No action is ever lost or reordered: `ran + pending` only grows at its end. */
  class ActivationQueue {
    var pending: seq<PendingAction>
    var uiReady: bool
    var ran: seq<PendingAction>

    constructor ()
      ensures pending == [] && !uiReady && ran == []
    {
      pending := [];
      uiReady := false;
      ran := [];
    }

    /** DrainPendingAsync: while the UI is ready, dequeue and run the oldest action;
        an action that throws (numbered `failsAt` in this drain) ends the loop and
        leaves the rest queued. */
    method Drain(failsAt: Option<nat>) returns (faulted: bool)
      modifies this
      ensures uiReady == old(uiReady)
      ensures !old(uiReady) ==> pending == old(pending) && ran == old(ran) && !faulted
      ensures old(uiReady) ==>
        var n := DrainCount(old(pending), failsAt);
        && ran == old(ran) + old(pending)[..n]
        && pending == old(pending)[n..]
        && (faulted <==> DrainFaults(old(pending), failsAt))
    {
      faulted := false;
      if !uiReady {
        return;
      }
      var k := 0;
      while pending != []
        invariant k <= |old(pending)|
        invariant uiReady == old(uiReady)
        invariant ran == old(ran) + old(pending)[..k] && pending == old(pending)[k..]
        invariant !(failsAt.Some? && failsAt.value < k && CanThrow(old(pending)[failsAt.value]))
        decreases |pending|
      {
        var action := pending[0];
        assert old(pending)[..k + 1] == old(pending)[..k] + [action];
        pending := pending[1..];
        ran := ran + [action];
        k := k + 1;
        if CanThrow(action) && failsAt == Some(k - 1) {
          return true;
        }
      }
    }

    /** EnqueueActivation: always queue; drain at once when the UI is ready. */
    method Enqueue(a: PendingAction, failsAt: Option<nat>) returns (faulted: bool)
      modifies this
      ensures uiReady == old(uiReady)
      ensures ran + pending == old(ran) + old(pending) + [a]
      ensures !uiReady ==> pending == old(pending) + [a] && ran == old(ran) && !faulted
      ensures uiReady ==>
        var queue := old(pending) + [a];
        var n := DrainCount(queue, failsAt);
        && ran == old(ran) + queue[..n]
        && pending == queue[n..]
        && (faulted <==> DrainFaults(queue, failsAt))
    {
      pending := pending + [a];
      faulted := Drain(failsAt);
      ghost var queue := old(pending) + [a];
      assert queue[..DrainCount(queue, failsAt)] + queue[DrainCount(queue, failsAt)..] == queue;
    }

    /** OnAppActivated. */
    method OnAppActivated(args: ActivationArgs, failsAt: Option<nat>) returns (faulted: bool)
      modifies this
      ensures uiReady == old(uiReady)
      ensures ran + pending == old(ran) + old(pending) + [Dispatch(args)]
      ensures !uiReady ==> pending == old(pending) + [Dispatch(args)] && ran == old(ran) && !faulted
      ensures uiReady ==>
        var queue := old(pending) + [Dispatch(args)];
        var n := DrainCount(queue, failsAt);
        && ran == old(ran) + queue[..n]
        && pending == queue[n..]
        && (faulted <==> DrainFaults(queue, failsAt))
      ensures uiReady && failsAt.None? ==> pending == [] && ran == old(ran) + old(pending) + [Dispatch(args)] && !faulted
    {
      faulted := Enqueue(Dispatch(args), failsAt);
    }

    /** OnLaunched: mark the UI ready, run everything queued so far in arrival
        order, then queue (and so run) the launch argument's request. `drainFault`
        and `launchFault` number the throwing action of the two drains, if any. */
    method OnLaunched(argv: seq<string>, existing: set<string>, drainFault: Option<nat>, launchFault: Option<nat>)
      modifies this
      ensures uiReady
      ensures ran == old(ran) + LaunchRun(old(pending), LaunchRequest(argv, existing), drainFault, launchFault).0
      ensures pending == LaunchRun(old(pending), LaunchRequest(argv, existing), drainFault, launchFault).1
    {
      uiReady := true;
      ghost var queue := pending;
      ghost var first := DrainCount(queue, drainFault);
      var _ := Drain(drainFault);
      var q := LaunchRequest(argv, existing);
      if q.Some? {
        ghost var rest := pending + [Open(q.value)];
        var _ := Enqueue(Open(q.value), launchFault);
        LaunchRunSteps(queue, q.value, drainFault, launchFault, first, rest);
        ConcatAssoc(old(ran), queue[..first], rest[..DrainCount(rest, launchFault)]);
      }
    }
  }
}
