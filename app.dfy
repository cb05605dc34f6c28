/**
 * The cross-platform App: the single-instance role decision made in its
 * constructor, the release rule of CleanUp, and HandleExternalArgsAsync's
 * token pipeline (filter, unescape, trim, route). The mutex wait and the pipe
 * send are inputs; File.Exists is the set of existing paths; Uri.UnescapeDataString
 * is a function parameter.
 */
module SingleInstanceApp {
  import opened Wrappers
  import opened Text
  import opened SingleInstanceIpc

  const PingToken := "__PING__"
  const MagnetPrefix := "magnet:"
  const TorrentSuffix := ".torrent"

  /** What TorrentOpenCoordinator is asked to do. */
  datatype OpenRequest = OpenTorrents(paths: seq<string>) | OpenMagnet(uri: string)

  // ------------------------------------------------------ argument pipeline

  /** A token that survives the two Where clauses. */
  predicate Kept(a: string) {
    !IsNullOrWhiteSpace(a) && a != PingToken
  }

  /** The items array of HandleExternalArgsAsync: kept tokens, unescaped and trimmed, in order. */
  function ExternalItems(args: seq<string>, unescape: string -> string): (r: seq<string>)
    ensures |r| <= |args|
    ensures forall i :: 0 <= i < |r| ==> IsTrimmed(r[i])
  {
    if args == [] then []
    else Contribution(args[0], unescape) + ExternalItems(args[1..], unescape)
  }

  /** What one token contributes to the items. */
  function Contribution(a: string, unescape: string -> string): (r: seq<string>)
    ensures |r| <= 1
    ensures forall i :: 0 <= i < |r| ==> IsTrimmed(r[i])
  {
    if Kept(a) then [Trim(unescape(a))] else []
  }

  /** The pipeline works token by token: concatenated argument lists give concatenated items. */
  lemma {:induction false} ExternalItemsAppend(a: seq<string>, b: seq<string>, unescape: string -> string)
    ensures ExternalItems(a + b, unescape) == ExternalItems(a, unescape) + ExternalItems(b, unescape)
  {
    if a == [] {
      assert a + b == b;
    } else {
      var ab := a + b;
      assert ab[0] == a[0] && ab[1..] == a[1..] + b;
      ExternalItemsAppend(a[1..], b, unescape);
      calc {
        ExternalItems(ab, unescape);
        Contribution(a[0], unescape) + ExternalItems(a[1..] + b, unescape);
        Contribution(a[0], unescape) + (ExternalItems(a[1..], unescape) + ExternalItems(b, unescape));
        (Contribution(a[0], unescape) + ExternalItems(a[1..], unescape)) + ExternalItems(b, unescape);
      }
    }
  }

  /** Every item is the contribution of one token, that is, the trimmed unescaping
      of a token that is neither blank nor "__PING__". */
  lemma {:induction false} ExternalItemsFromKept(args: seq<string>, unescape: string -> string)
    ensures forall i :: 0 <= i < |ExternalItems(args, unescape)| ==>
      exists j :: 0 <= j < |args| && Contribution(args[j], unescape) == [ExternalItems(args, unescape)[i]]
  {
    if args == [] {
      assert ExternalItems(args, unescape) == [];
    } else {
      ExternalItemsFromKept(args[1..], unescape);
      var r := ExternalItems(args, unescape);
      var head := Contribution(args[0], unescape);
      var tail := ExternalItems(args[1..], unescape);
      assert r == head + tail;
      forall i | 0 <= i < |r|
        ensures exists j :: 0 <= j < |args| && Contribution(args[j], unescape) == [r[i]]
      {
        if i < |head| {
          assert head == [r[i]];
          assert Contribution(args[0], unescape) == [r[i]];
        } else {
          var t := i - |head|;
          assert r[i] == tail[t];
          var j :| 0 <= j < |args[1..]| && Contribution(args[1..][j], unescape) == [tail[t]];
          assert args[1..][j] == args[j + 1];
          assert Contribution(args[j + 1], unescape) == [r[i]];
        }
      }
    }
  }

  /** When every token is kept, none is lost. */
  lemma {:induction false} AllKeptAllItems(args: seq<string>, unescape: string -> string)
    requires forall j :: 0 <= j < |args| ==> Kept(args[j])
    ensures |ExternalItems(args, unescape)| == |args|
  {
    if args != [] {
      assert forall j :: 0 <= j < |args[1..]| ==> Kept(args[1..][j]) by {
        forall j | 0 <= j < |args[1..]| ensures Kept(args[1..][j]) {
          assert args[1..][j] == args[j + 1];
        }
      }
      AllKeptAllItems(args[1..], unescape);
      assert Kept(args[0]);
    }
  }

  /** Tokens that are all blank or pings yield no items, so nothing is opened. */
  lemma {:induction false} NoneKeptNoItems(args: seq<string>, unescape: string -> string)
    requires forall j :: 0 <= j < |args| ==> !Kept(args[j])
    ensures ExternalItems(args, unescape) == []
  {
    if args != [] {
      assert forall j :: 0 <= j < |args[1..]| ==> !Kept(args[1..][j]) by {
        forall j | 0 <= j < |args[1..]| ensures !Kept(args[1..][j]) {
          assert args[1..][j] == args[j + 1];
        }
      }
      NoneKeptNoItems(args[1..], unescape);
      assert !Kept(args[0]);
    }
  }

  /** What one item asks of the coordinator, if anything. */
  function Route(s: string, existing: set<string>): (r: Option<OpenRequest>)
    ensures r == Some(OpenMagnet(s)) <==> StartsWithIgnoreCase(s, MagnetPrefix)
    ensures r == Some(OpenTorrents([s])) <==>
      !StartsWithIgnoreCase(s, MagnetPrefix) && s in existing && EndsWithIgnoreCase(s, TorrentSuffix)
    ensures r.None? <==>
      !StartsWithIgnoreCase(s, MagnetPrefix) && !(s in existing && EndsWithIgnoreCase(s, TorrentSuffix))
  {
    if StartsWithIgnoreCase(s, MagnetPrefix) then Some(OpenMagnet(s))
    else if s in existing && EndsWithIgnoreCase(s, TorrentSuffix) then Some(OpenTorrents([s]))
    else None
  }

  /** The requests of the dispatch loop, in item order. */
  function Routed(items: seq<string>, existing: set<string>): (r: seq<OpenRequest>)
    ensures |r| <= |items|
  {
    if items == [] then []
    else
      var last := match Route(items[|items| - 1], existing) { case Some(q) => [q] case None => [] };
      Routed(items[..|items| - 1], existing) + last
  }

  /** Every request names a magnet link or one existing .torrent file. */
  lemma {:induction false} RoutedRequestsAreWellFormed(items: seq<string>, existing: set<string>)
    ensures forall q :: q in Routed(items, existing) ==>
      match q
      case OpenMagnet(u) => StartsWithIgnoreCase(u, MagnetPrefix)
      case OpenTorrents(ps) => |ps| == 1 && ps[0] in existing && EndsWithIgnoreCase(ps[0], TorrentSuffix)
  {
    if items != [] {
      RoutedRequestsAreWellFormed(items[..|items| - 1], existing);
    }
  }

  /** The dispatch loop's requests up to `i` items are the start of all its requests. */
  lemma {:induction false} RoutedPrefix(items: seq<string>, existing: set<string>, i: nat)
    requires i <= |items|
    ensures Routed(items[..i], existing) <= Routed(items, existing)
    decreases |items|
  {
    if i < |items| {
      var init := items[..|items| - 1];
      assert items[..i] == init[..i];
      RoutedPrefix(init, existing, i);
    } else {
      assert items[..i] == items;
    }
  }

  /** Whether the coordinator call numbered `failsAt` throws: only OpenTorrentsAsync can
      (Torrent.LoadAsync on a file that does not parse, AddTorrentAsync on a torrent the
      engine already holds); OpenMagnetAsync completes at once. */
  predicate Faults(reqs: seq<OpenRequest>, failsAt: Option<nat>) {
    failsAt.Some? && failsAt.value < |reqs| && reqs[failsAt.value].OpenTorrents?
  }

  /** The calls made when the call numbered `failsAt` throws: the exception leaves the
      foreach, so the calls after it are never made. */
  function CallsMade(reqs: seq<OpenRequest>, failsAt: Option<nat>): (r: seq<OpenRequest>)
    ensures r <= reqs
    ensures Faults(reqs, failsAt) <==> r != reqs || (r != [] && Faults(r, failsAt))
    ensures Faults(reqs, failsAt) ==> |r| == failsAt.value + 1 && r[|r| - 1].OpenTorrents?
  {
    if Faults(reqs, failsAt) then reqs[..failsAt.value + 1] else reqs
  }

  /** HandleExternalArgsAsync. `servicesReady` stands for finding the service
      provider and the coordinator; without them nothing is opened. `failsAt`
      numbers the coordinator call that throws, if one does; `faulted` reports
      that the exception ended the handler. */
  method HandleExternalArgs(args: seq<string>, unescape: string -> string, existing: set<string>,
                            servicesReady: bool, failsAt: Option<nat>)
    returns (calls: seq<OpenRequest>, faulted: bool)
    ensures var routed := if servicesReady then Routed(ExternalItems(args, unescape), existing) else [];
      && calls == CallsMade(routed, failsAt)
      && (faulted <==> Faults(routed, failsAt))
  {
    var items := ExternalItems(args, unescape);
    if |items| == 0 || !servicesReady {
      return [], false;
    }
    calls, faulted := OpenItems(items, existing, failsAt);
  }

  /** The foreach of HandleExternalArgsAsync: route each item and call the coordinator,
      until a call throws. */
  method OpenItems(items: seq<string>, existing: set<string>, failsAt: Option<nat>)
    returns (calls: seq<OpenRequest>, faulted: bool)
    ensures calls == CallsMade(Routed(items, existing), failsAt)
    ensures faulted <==> Faults(Routed(items, existing), failsAt)
  {
    calls := [];
    var i := 0;
    while i < |items|
      invariant i <= |items|
      invariant calls == Routed(items[..i], existing)
      invariant !Faults(calls, failsAt)
    {
      assert items[..i + 1][..i] == items[..i];
      var q := Route(items[i], existing);
      if q.Some? && q.value.OpenTorrents? && failsAt == Some(|calls|) {
        calls := calls + [q.value];
        StoppedAt(items, existing, i, failsAt);
        return calls, true;
      }
      if q.Some? {
        calls := calls + [q.value];
      }
      i := i + 1;
    }
    assert items[..|items|] == items;
    faulted := false;
  }

  /** The call routed for item `i` is the one that throws: the calls made are those up to it. */
  lemma StoppedAt(items: seq<string>, existing: set<string>, i: nat, failsAt: Option<nat>)
    requires i < |items|
    requires Route(items[i], existing).Some? && Route(items[i], existing).value.OpenTorrents?
    requires failsAt == Some(|Routed(items[..i], existing)|)
    ensures Faults(Routed(items, existing), failsAt)
    ensures CallsMade(Routed(items, existing), failsAt) == Routed(items[..i], existing) + [Route(items[i], existing).value]
  {
    var before := Routed(items[..i], existing);
    var upto := before + [Route(items[i], existing).value];
    assert items[..i + 1][..i] == items[..i];
    assert Routed(items[..i + 1], existing) == upto;
    RoutedPrefix(items, existing, i + 1);
    var routed := Routed(items, existing);
    assert routed[..|upto|] == upto;
    assert routed[|before|] == upto[|before|];
  }

  /** A ping opens nothing. */
  lemma PingOpensNothing(unescape: string -> string, existing: set<string>)
    ensures ExternalItems([PingToken], unescape) == []
    ensures Routed(ExternalItems([PingToken], unescape), existing) == []
  {
  }

  // --------------------------------------------------------- role decision

  /** How `_mutex.WaitOne(TimeSpan.Zero, false)` ends. */
  datatype MutexOutcome = Acquired | HeldElsewhere | Abandoned | WaitFailed

  /** Primary from the start: the wait succeeded or the mutex was abandoned. */
  predicate InitiallyPrimary(m: MutexOutcome) {
    m == Acquired || m == Abandoned
  }

  /** `Environment.GetCommandLineArgs().Skip(1)` */
  function StartupArgs(argv: seq<string>): seq<string> {
    if |argv| == 0 then [] else argv[1..]
  }

  /** What the secondary sends: its startup args, or a ping when it has none. */
  function ForwardedArgs(argv: seq<string>): (r: seq<string>)
    ensures |r| > 0
    ensures |StartupArgs(argv)| > 0 ==> r == StartupArgs(argv)
  {
    if |StartupArgs(argv)| > 0 then StartupArgs(argv) else [PingToken]
  }

  /** The constructor's outcome: whether the process exits, whether it ends up
      primary, whether it owns the mutex, whether it runs the server loop, the
      payload it sent, and the argument lists it hands to HandleExternalArgsAsync. */
  datatype Startup = Startup(
    exits: bool,
    primary: bool,
    ownsMutex: bool,
    serverLoop: bool,
    payload: Option<string>,
    handled: seq<seq<string>>)

  function Decide(argv: seq<string>, mutex: MutexOutcome, link: Link): (r: Startup)
    ensures r.exits <==> !InitiallyPrimary(mutex) && link == Delivered
    ensures r.primary <==> !r.exits
    ensures r.serverLoop <==> r.primary
    ensures r.ownsMutex <==> InitiallyPrimary(mutex)
    ensures r.payload.Some? <==> r.exits
    ensures r.exits ==> r.payload == Some(Encode(ForwardedArgs(argv)))
    ensures r.handled == if r.primary && |StartupArgs(argv)| > 0 then [StartupArgs(argv)] else []
  {
    var handled := if |StartupArgs(argv)| > 0 then [StartupArgs(argv)] else [];
    if InitiallyPrimary(mutex) then Startup(false, true, true, true, None, handled)
    else
      var sent := TrySendToPrimary(ForwardedArgs(argv), link);
      if sent.sent then Startup(true, false, false, false, sent.payload, [])
      else Startup(false, true, false, true, None, handled)
  }

  /** A secondary without arguments that reaches the primary makes it open nothing. */
  lemma SecondaryPingIsIgnored(argv: seq<string>, mutex: MutexOutcome, unescape: string -> string, existing: set<string>)
    requires |StartupArgs(argv)| == 0 && !InitiallyPrimary(mutex)
    ensures var s := Decide(argv, mutex, Delivered);
      && Deliveries([Received(s.payload.value)]) == [[PingToken]]
      && Routed(ExternalItems(Decode(s.payload.value), unescape), existing) == []
  {
    var s := Decide(argv, mutex, Delivered);
    assert ForwardedArgs(argv) == [PingToken];
    assert s.payload == TrySendToPrimary([PingToken], Delivered).payload;
    PingIsWireSafe();
    Forwarding([PingToken]);
    assert s.payload.value == Encode([PingToken]);
    RoundTrip([PingToken]);
    PingOpensNothing(unescape, existing);
  }

  lemma PingIsWireSafe()
    ensures IsWireSafe(PingToken)
  {
    assert PingToken[0] == '_' && PingToken[|PingToken| - 1] == '_';
    assert forall i :: 0 <= i < |PingToken| ==> PingToken[i] != '\n';
  }

  class App {
    var primary: bool
    var ownsMutex: bool
    var serverLoopStarted: bool
    var exited: bool
    var handled: seq<seq<string>>
    var cancelled: bool
    var releasedMutex: bool
    var disposed: bool

    /** The constructor, with the secondary's background task run to its end. */
    constructor (argv: seq<string>, mutex: MutexOutcome, link: Link)
      ensures var s := Decide(argv, mutex, link);
        && exited == s.exits && primary == s.primary && ownsMutex == s.ownsMutex
        && serverLoopStarted == s.serverLoop && handled == s.handled
      ensures !cancelled && !releasedMutex && !disposed
    {
      var startupArgs := StartupArgs(argv);
      var isPrimary := InitiallyPrimary(mutex);
      var exits := false;
      ownsMutex := isPrimary;
      if !isPrimary {
        var sent := TrySendToPrimary(ForwardedArgs(argv), link);
        if sent.sent {
          exits := true;
        } else {
          isPrimary := true;
        }
      }
      primary := isPrimary;
      exited := exits;
      serverLoopStarted := !exits;
      handled := if !exits && |startupArgs| > 0 then [startupArgs] else [];
      cancelled := false;
      releasedMutex := false;
      disposed := false;
    }

    /** CleanUp: cancel the loop; a primary tries to release the mutex, which only
        succeeds when it owns it (a promoted secondary's release throws and is
        swallowed); dispose. */
    method CleanUp()
      modifies this
      ensures cancelled && disposed
      ensures releasedMutex <==> old(releasedMutex) || (old(primary) && old(ownsMutex))
      ensures primary == old(primary) && ownsMutex == old(ownsMutex) && handled == old(handled)
      ensures exited == old(exited) && serverLoopStarted == old(serverLoopStarted)
    {
      cancelled := true;
      if primary && ownsMutex {
        releasedMutex := true;
      }
      disposed := true;
    }
  }
}
