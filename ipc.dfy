/**
 * SingleInstanceIpc: the wire format between a secondary launch and the primary
 * instance, the client send and the primary's server loop.
 *
 * The named pipe itself is not modelled: a send is given the outcome of its
 * connection attempt, and the server loop is given the sequence of connections
 * it observes. UTF-8 encoding and decoding of the payload are taken as inverse
 * and the payload is kept as text.
 */
module SingleInstanceIpc {
  import opened Wrappers
  import opened Text

  const MutexName := "InterSoftwares.Torrent.SingleInstance"
  const PipeName := "InterSoftwares.Torrent.Pipe"
  /** Milliseconds the client waits for the primary to accept the connection. */
  const ConnectTimeoutMs := 1500

  // ---------------------------------------------------------------- encoding

  /** string.Join('\n', args) */
  function Join(args: seq<string>): string {
    if |args| == 0 then ""
    else if |args| == 1 then args[0]
    else args[0] + "\n" + Join(args[1..])
  }

  /** The payload a secondary writes to the pipe. */
  function Encode(args: seq<string>): string {
    Join(args)
  }

  /** text.Split('\n') before any option is applied: the pieces between newlines. */
  function Split(text: string): (pieces: seq<string>)
    ensures |pieces| >= 1
    ensures forall k :: 0 <= k < |pieces| ==> '\n' !in pieces[k]
  {
    if |text| == 0 then [""]
    else
      var rest := Split(text[1..]);
      if text[0] == '\n' then [""] + rest
      else [[text[0]] + rest[0]] + rest[1..]
  }

  /** StringSplitOptions.TrimEntries | RemoveEmptyEntries: trim every piece, drop the empty ones. */
  function TrimAndDropEmpty(pieces: seq<string>): (tokens: seq<string>)
    ensures |tokens| <= |pieces|
  {
    if pieces == [] then []
    else
      var t := Trim(pieces[0]);
      (if t == "" then [] else [t]) + TrimAndDropEmpty(pieces[1..])
  }

  /** Pieces are handled one at a time: a blank piece is dropped, any other is trimmed. */
  lemma TrimAndDropEmptyOne(p: string)
    ensures TrimAndDropEmpty([p]) == if Trim(p) == "" then [] else [Trim(p)]
  {
    assert [p][1..] == [];
  }

  /** The tokens of two runs of pieces, in order, are the tokens of the whole. */
  lemma {:induction false} TrimAndDropEmptyAppend(a: seq<string>, b: seq<string>)
    ensures TrimAndDropEmpty(a + b) == TrimAndDropEmpty(a) + TrimAndDropEmpty(b)
  {
    if a == [] {
      assert a + b == b;
      assert TrimAndDropEmpty(a) + TrimAndDropEmpty(b) == TrimAndDropEmpty(b);
    } else {
      var ab := a + b;
      assert ab[0] == a[0] && ab[1..] == a[1..] + b;
      var t := Trim(a[0]);
      var h := if t == "" then [] else [t];
      assert TrimAndDropEmpty(ab) == h + TrimAndDropEmpty(a[1..] + b);
      TrimAndDropEmptyAppend(a[1..], b);
      assert TrimAndDropEmpty(a) == h + TrimAndDropEmpty(a[1..]);
      ConcatAssoc(h, TrimAndDropEmpty(a[1..]), TrimAndDropEmpty(b));
    }
  }

  /** What the server loop hands to its callback for a received payload. */
  function Decode(text: string): seq<string> {
    TrimAndDropEmpty(Split(text))
  }

  /** An argument that survives the wire unchanged. */
  predicate IsWireSafe(a: string) {
    a != "" && IsTrimmed(a) && '\n' !in a
  }

  // ------------------------------------------------------------------ lemmas

  lemma {:induction false} SplitNewlineFree(a: string, t: string)
    requires '\n' !in a
    ensures Split(a + t) == [a + Split(t)[0]] + Split(t)[1..]
    decreases |a|
  {
    if |a| > 0 {
      assert (a + t)[1..] == a[1..] + t;
      SplitNewlineFree(a[1..], t);
      assert [a[0]] + (a[1..] + Split(t)[0]) == a + Split(t)[0];
    } else {
      assert a + t == t;
      assert a + Split(t)[0] == Split(t)[0];
      assert [Split(t)[0]] + Split(t)[1..] == Split(t);
    }
  }

  /** Splitting a join of newline-free pieces gives the pieces back. */
  lemma {:induction false} SplitJoin(args: seq<string>)
    requires |args| >= 1
    requires forall k :: 0 <= k < |args| ==> '\n' !in args[k]
    ensures Split(Join(args)) == args
    decreases |args|
  {
    if |args| == 1 {
      SplitNewlineFree(args[0], "");
      assert args[0] + "" == args[0];
      assert args == [args[0]];
    } else {
      SplitJoin(args[1..]);
      var t := "\n" + Join(args[1..]);
      assert Split(t) == [""] + Split(Join(args[1..])) by {
        assert t[1..] == Join(args[1..]);
      }
      SplitNewlineFree(args[0], t);
      assert args[0] + "\n" + Join(args[1..]) == args[0] + t;
      assert Split(t)[0] == "" && Split(t)[1..] == args[1..];
      assert args[0] + "" == args[0];
      assert [args[0]] + args[1..] == args;
    }
  }

  /** Joining the pieces of a split gives the text back. */
  lemma {:induction false} JoinSplit(text: string)
    ensures Join(Split(text)) == text
    decreases |text|
  {
    if |text| > 0 {
      var rest := Split(text[1..]);
      JoinSplit(text[1..]);
      if text[0] == '\n' {
        assert Join([""] + rest) == "" + "\n" + Join(rest) by {
          assert ([""] + rest)[1..] == rest;
        }
        assert text == [text[0]] + text[1..];
      } else {
        var ps := [[text[0]] + rest[0]] + rest[1..];
        if |rest| == 1 {
          assert rest == [rest[0]];
          assert text == [text[0]] + text[1..];
        } else {
          assert ps[1..] == rest[1..];
          assert Join(rest) == rest[0] + "\n" + Join(rest[1..]);
          assert text == [text[0]] + text[1..];
        }
      }
    }
  }

  lemma {:induction false} TrimAndDropEmptyKeepsClean(pieces: seq<string>)
    requires forall k :: 0 <= k < |pieces| ==> IsWireSafe(pieces[k])
    ensures TrimAndDropEmpty(pieces) == pieces
  {
    if pieces != [] {
      TrimByKeepsTrimmed(pieces[0], IsWhiteSpace);
      TrimAndDropEmptyKeepsClean(pieces[1..]);
      assert [pieces[0]] + pieces[1..] == pieces;
    }
  }

  lemma {:induction false} TrimAndDropEmptyIsClean(pieces: seq<string>)
    requires forall k :: 0 <= k < |pieces| ==> '\n' !in pieces[k]
    ensures forall k :: 0 <= k < |TrimAndDropEmpty(pieces)| ==> IsWireSafe(TrimAndDropEmpty(pieces)[k])
  {
    if pieces != [] {
      TrimAndDropEmptyIsClean(pieces[1..]);
    }
  }

  /** Every token the server hands on is non-empty, trimmed and free of newlines. */
  lemma DecodedTokensAreWireSafe(text: string)
    ensures forall k :: 0 <= k < |Decode(text)| ==> IsWireSafe(Decode(text)[k])
  {
    TrimAndDropEmptyIsClean(Split(text));
  }

  /** Round trip: arguments that are non-empty, trimmed and newline-free arrive as sent. */
  lemma RoundTrip(args: seq<string>)
    requires forall k :: 0 <= k < |args| ==> IsWireSafe(args[k])
    ensures Decode(Encode(args)) == args
  {
    if |args| > 0 {
      SplitJoin(args);
      TrimAndDropEmptyKeepsClean(args);
    }
  }

  /** Decoding is idempotent on its own output: a decoded list re-sent arrives unchanged. */
  lemma DecodeReencode(text: string)
    ensures Decode(Encode(Decode(text))) == Decode(text)
  {
    DecodedTokensAreWireSafe(text);
    RoundTrip(Decode(text));
  }

  // -------------------------------------------------------------- the client

  /** How the client's attempt to reach the primary ends. */
  datatype Link = Delivered | NoListener | TimedOut | TransportFailed

  /** TrySendToPrimaryAsync: whether it reports success, and the payload that reached the pipe. */
  datatype SendResult = SendResult(sent: bool, payload: Option<string>)

  function TrySendToPrimary(args: seq<string>, link: Link): (r: SendResult)
    ensures r.sent <==> |args| > 0 && link == Delivered
    ensures r.payload.Some? <==> r.sent
    ensures r.sent ==> r.payload == Some(Encode(args))
  {
    if |args| == 0 then SendResult(false, None)
    else if link == Delivered then SendResult(true, Some(Encode(args)))
    else SendResult(false, None)
  }

  // -------------------------------------------------------- the server loop

  /** One iteration of the server loop: a connection that delivered its payload,
      one that failed (any exception but cancellation), or cancellation. */
  datatype Connection = Received(payload: string) | Faulted | Cancelled

  /** The argument lists passed to onArgs, in order, for a run observing `conns`. */
  function Deliveries(conns: seq<Connection>): seq<seq<string>> {
    if conns == [] then []
    else match conns[0]
      case Cancelled => []
      case Faulted => Deliveries(conns[1..])
      case Received(p) =>
        (if Decode(p) == [] then [] else [Decode(p)]) + Deliveries(conns[1..])
  }

  /** RunServerLoopAsync over the connections it observes. `served` counts the
      connections it dealt with before cancellation or the end of the trace. */
  method RunServerLoop(conns: seq<Connection>) returns (delivered: seq<seq<string>>, served: nat)
    ensures delivered == Deliveries(conns)
    ensures served <= |conns|
    ensures served < |conns| ==> conns[served] == Cancelled
    ensures forall k :: 0 <= k < served ==> conns[k] != Cancelled
  {
    delivered := [];
    served := 0;
    while served < |conns|
      invariant served <= |conns|
      invariant forall k :: 0 <= k < served ==> conns[k] != Cancelled
      invariant Deliveries(conns) == delivered + Deliveries(conns[served..])
    {
      if conns[served].Cancelled? {
        return;
      }
      DeliveriesStep(conns, served);
      if conns[served].Received? {
        var args := Decode(conns[served].payload);
        if |args| > 0 {
          delivered := delivered + [args];
        }
      }
      served := served + 1;
    }
  }

  /** One connection of the loop, other than cancellation. */
  lemma DeliveriesStep(conns: seq<Connection>, i: nat)
    requires i < |conns| && !conns[i].Cancelled?
    ensures Deliveries(conns[i..]) ==
      (if conns[i].Received? && Decode(conns[i].payload) != [] then [Decode(conns[i].payload)] else [])
      + Deliveries(conns[i + 1..])
  {
    assert conns[i..][1..] == conns[i + 1..];
  }

  /** A failed connection never ends the loop: deliveries before and after it add up. */
  lemma {:induction false} FaultsDoNotStopTheLoop(before: seq<Connection>, after: seq<Connection>)
    requires Cancelled !in before
    ensures Deliveries(before + [Faulted] + after) == Deliveries(before) + Deliveries(after)
  {
    var whole := before + [Faulted] + after;
    if before == [] {
      assert whole == [Faulted] + after && whole[1..] == after;
      assert Deliveries(whole) == Deliveries(after);
    } else {
      assert whole[0] == before[0] && whole[1..] == before[1..] + [Faulted] + after;
      DeliveriesStep(whole, 0);
      DeliveriesStep(before, 0);
      assert whole[0..] == whole && whole[1..] == before[1..] + [Faulted] + after;
      assert before[0..] == before;
      FaultsDoNotStopTheLoop(before[1..], after);
      var h := if before[0].Received? && Decode(before[0].payload) != [] then [Decode(before[0].payload)] else [];
      ConcatAssoc(h, Deliveries(before[1..]), Deliveries(after));
    }
  }

  /** After cancellation nothing more is delivered. */
  lemma {:induction false} CancellationEndsTheLoop(before: seq<Connection>, after: seq<Connection>)
    ensures Deliveries(before + [Cancelled] + after) == Deliveries(before)
  {
    if before == [] {
      assert before + [Cancelled] + after == [Cancelled] + after;
    } else {
      CancellationEndsTheLoop(before[1..], after);
      assert (before + [Cancelled] + after)[1..] == before[1..] + [Cancelled] + after;
    }
  }

  /** onArgs only ever sees a non-empty list of wire-safe tokens. */
  lemma {:induction false} DeliveriesAreNonEmptyAndClean(conns: seq<Connection>)
    ensures forall d :: d in Deliveries(conns) ==>
      |d| > 0 && forall k :: 0 <= k < |d| ==> IsWireSafe(d[k])
  {
    if conns != [] && !conns[0].Cancelled? {
      var h := if conns[0].Received? && Decode(conns[0].payload) != [] then [Decode(conns[0].payload)] else [];
      var rest := Deliveries(conns[1..]);
      DeliveriesAreNonEmptyAndClean(conns[1..]);
      DeliveriesStep(conns, 0);
      assert conns[0..] == conns;
      assert Deliveries(conns) == h + rest;
      if conns[0].Received? {
        DecodedTokensAreWireSafe(conns[0].payload);
      }
      forall d | d in Deliveries(conns)
        ensures |d| > 0 && forall k :: 0 <= k < |d| ==> IsWireSafe(d[k])
      {
        if d !in rest {
          assert d in h;
        }
      }
    }
  }

  /** End to end: what a secondary sends is exactly what the primary's callback receives. */
  lemma Forwarding(args: seq<string>)
    requires |args| > 0
    requires forall k :: 0 <= k < |args| ==> IsWireSafe(args[k])
    ensures TrySendToPrimary(args, Delivered).sent
    ensures Deliveries([Received(TrySendToPrimary(args, Delivered).payload.value)]) == [args]
  {
    RoundTrip(args);
  }
}
