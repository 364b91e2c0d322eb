/** One chess session: its two connection slots, the one-shot join, the
    turn-gated relay between the two players and the per-connection reader
    that feeds it (backend/game.go). */
module Game {
  import opened Wrappers

  /** An opaque connection handle; only its identity matters to the core. */
  type Conn = nat

  /** The wire message. `kind` is the record's `Type` field. Every field is a
      free string: nothing in the session checks the tags the record
      declares, so a `move` without `to` or a second `start` is still a
      message like any other. */
  datatype Message = Message(kind: string, color: string, from: string, to: string, promotion: string)

  /** The only field the relay ever looks at. */
  predicate IsError(m: Message)
  {
    m.kind == "error"
  }

  /** The announcement of a side; the other fields keep their zero value. */
  function StartMessage(color: string): Message
  {
    Message("start", color, "", "", "")
  }

  /** What a reader pushes when its connection breaks. */
  const ErrorMessage: Message := Message("error", "", "", "", "")

  datatype GameError = ErrCannotJoinStartedGame

  /** A game with a white connection and a black slot that is filled once. */
  class ChessGame {
    var whiteWebsocket: Conn
    var blackWebsocket: Option<Conn>

    /** NewChessGame: the given connection plays white, black is still empty. */
    constructor (ws: Conn)
      ensures whiteWebsocket == ws && blackWebsocket == None
    {
      whiteWebsocket := ws;
      blackWebsocket := None;
    }

    /** Fills the black slot. A game whose black slot is already taken
        refuses and stays as it was. In the program, a successful join also
        starts the relay and the two readers; here those are the separate
        methods PlayChess and ForwardFromWebsocketToChannel. */
    method Join(ws: Conn) returns (err: Option<GameError>)
      modifies this
      ensures whiteWebsocket == old(whiteWebsocket)
      ensures old(blackWebsocket).Some? ==>
                err == Some(ErrCannotJoinStartedGame) && blackWebsocket == old(blackWebsocket)
      ensures old(blackWebsocket).None? ==> err == None && blackWebsocket == Some(ws)
    {
      if blackWebsocket.Some? {
        return Some(ErrCannotJoinStartedGame);
      }
      blackWebsocket := Some(ws);
      err := None;
    }
  }

  // ---------------------------------------------------------------------
  // The relay (playChess)
  // ---------------------------------------------------------------------

  /** One message taken by the relay's select: from white's channel or from
      black's. A sequence of events stands for one interleaving of the two. */
  datatype Event = FromWhite(msg: Message) | FromBlack(msg: Message)

  /** One WriteJSON call: the destination connection and the message. */
  datatype Write = Write(to: Conn, msg: Message)

  predicate IsErrorEvent(e: Event)
  {
    IsError(e.msg)
  }

  /** The event comes from the side whose turn it is. */
  predicate HoldsTurn(turnWhite: bool, e: Event)
  {
    e.FromWhite? == turnWhite
  }

  /** The connection on the other side of the event's sender. */
  function Peer(e: Event, white: Conn, black: Conn): Conn
  {
    if e.FromWhite? then black else white
  }

  /** The position of the first error event, or the length when there is none. */
  function ErrorIndex(events: seq<Event>): (i: nat)
    ensures i <= |events|
  {
    if events == [] || IsErrorEvent(events[0]) then 0 else 1 + ErrorIndex(events[1..])
  }

  /** A sequence without error events has no first error before its end. */
  lemma {:induction false} ErrorIndexOfCleanEvents(events: seq<Event>)
    requires forall j :: 0 <= j < |events| ==> !IsErrorEvent(events[j])
    ensures ErrorIndex(events) == |events|
  {
    if events != [] {
      ErrorIndexOfCleanEvents(events[1..]);
    }
  }

  /** ErrorIndex is the first error: an error when it is not the length,
      and preceded only by non-errors. */
  lemma {:induction false} ErrorIndexIsFirstError(events: seq<Event>)
    ensures ErrorIndex(events) < |events| ==> IsErrorEvent(events[ErrorIndex(events)])
    ensures forall j :: 0 <= j < ErrorIndex(events) ==> !IsErrorEvent(events[j])
  {
    if events != [] && !IsErrorEvent(events[0]) {
      ErrorIndexIsFirstError(events[1..]);
    }
  }

  /** The messages the turn loop writes for `events`, starting with the turn
      given by `turnWhite`. */
  function Relayed(turnWhite: bool, white: Conn, black: Conn, events: seq<Event>): seq<Write>
    decreases |events|
  {
    if events == [] || IsErrorEvent(events[0]) then []
    else if HoldsTurn(turnWhite, events[0]) then
      [Write(Peer(events[0], white, black), events[0].msg)] + Relayed(!turnWhite, white, black, events[1..])
    else
      Relayed(turnWhite, white, black, events[1..])
  }

  /** The value of `turnWhite` once the turn loop has taken `events`. */
  function TurnAfter(turnWhite: bool, events: seq<Event>): bool
    decreases |events|
  {
    if events == [] || IsErrorEvent(events[0]) then turnWhite
    else TurnAfter(if HoldsTurn(turnWhite, events[0]) then !turnWhite else turnWhite, events[1..])
  }

  /** The two announcements sent before the turn loop starts. */
  function StartWrites(white: Conn, black: Conn): seq<Write>
  {
    [Write(white, StartMessage("white")), Write(black, StartMessage("black"))]
  }

  /** playChess over one interleaving of the two channels. `writes` is every
      write in order, `consumed` the number of events taken, `stopped` whether
      the loop returned (it does so only at an error message; when the events
      run out the real loop would go on waiting). */
  method PlayChess(white: Conn, black: Conn, events: seq<Event>)
    returns (writes: seq<Write>, consumed: nat, stopped: bool)
    ensures writes == StartWrites(white, black) + Relayed(true, white, black, events)
    ensures consumed == if stopped then ErrorIndex(events) + 1 else |events|
    ensures stopped ==> consumed <= |events| && IsErrorEvent(events[consumed - 1])
    ensures !stopped ==> forall j :: 0 <= j < |events| ==> !IsErrorEvent(events[j])
  {
    var turnWhite := true;
    writes := [Write(white, StartMessage("white"))];
    writes := writes + [Write(black, StartMessage("black"))];
    ErrorIndexIsFirstError(events);
    var i := 0;
    while i < |events|
      invariant i <= ErrorIndex(events)
      invariant turnWhite == TurnAfter(true, events[..i])
      invariant writes + Relayed(turnWhite, white, black, events[i..])
                == StartWrites(white, black) + Relayed(true, white, black, events)
    {
      assert events[i..][1..] == events[i + 1..];
      if !IsErrorEvent(events[i]) {
        assert events[..i + 1] == events[..i] + [events[i]];
        assert [events[i]][1..] == [];
        ErrorIndexOfCleanEvents(events[..i]);
        RelayedAppend(true, white, black, events[..i], [events[i]]);
      }
      match events[i] {
        case FromWhite(message) =>
          if IsError(message) {
            return writes, i + 1, true;
          }
          if turnWhite {
            writes := writes + [Write(black, message)];
            turnWhite := false;
          }
        case FromBlack(message) =>
          if IsError(message) {
            return writes, i + 1, true;
          }
          if !turnWhite {
            writes := writes + [Write(white, message)];
            turnWhite := true;
          }
      }
      i := i + 1;
    }
    consumed, stopped := i, false;
  }

  // ---------------------------------------------------------------------
  // What the relay does, stated on Relayed and TurnAfter
  // ---------------------------------------------------------------------

  /** Taking an error-free prefix and then the rest is taking the whole. */
  lemma {:induction false} RelayedAppend(turnWhite: bool, white: Conn, black: Conn, a: seq<Event>, rest: seq<Event>)
    requires ErrorIndex(a) == |a|
    ensures Relayed(turnWhite, white, black, a + rest)
            == Relayed(turnWhite, white, black, a) + Relayed(TurnAfter(turnWhite, a), white, black, rest)
    ensures TurnAfter(turnWhite, a + rest) == TurnAfter(TurnAfter(turnWhite, a), rest)
    decreases |a|
  {
    if a == [] {
      assert a + rest == rest;
    } else {
      assert !IsErrorEvent(a[0]);
      assert (a + rest)[0] == a[0];
      assert (a + rest)[1..] == a[1..] + rest;
      var next := if HoldsTurn(turnWhite, a[0]) then !turnWhite else turnWhite;
      RelayedAppend(next, white, black, a[1..], rest);
    }
  }

  /** An in-turn message that is not an error, arriving at any point, is
      written unchanged to the other side and flips the turn. */
  lemma InTurnMessageForwarded(turnWhite: bool, white: Conn, black: Conn, a: seq<Event>, e: Event, rest: seq<Event>)
    requires ErrorIndex(a) == |a|
    requires !IsErrorEvent(e) && HoldsTurn(TurnAfter(turnWhite, a), e)
    ensures Relayed(turnWhite, white, black, a + [e] + rest)
            == Relayed(turnWhite, white, black, a) + [Write(Peer(e, white, black), e.msg)]
               + Relayed(!TurnAfter(turnWhite, a), white, black, rest)
    ensures TurnAfter(turnWhite, a + [e] + rest) == TurnAfter(!TurnAfter(turnWhite, a), rest)
  {
    assert a + [e] + rest == a + ([e] + rest);
    assert ([e] + rest)[1..] == rest;
    RelayedAppend(turnWhite, white, black, a, [e] + rest);
  }

  /** An out-of-turn message that is not an error, arriving at any point, is
      dropped: nothing is written and the turn stays where it was. */
  lemma OutOfTurnMessageDropped(turnWhite: bool, white: Conn, black: Conn, a: seq<Event>, e: Event, rest: seq<Event>)
    requires ErrorIndex(a) == |a|
    requires !IsErrorEvent(e) && !HoldsTurn(TurnAfter(turnWhite, a), e)
    ensures Relayed(turnWhite, white, black, a + [e] + rest)
            == Relayed(turnWhite, white, black, a) + Relayed(TurnAfter(turnWhite, a), white, black, rest)
    ensures TurnAfter(turnWhite, a + [e] + rest) == TurnAfter(TurnAfter(turnWhite, a), rest)
  {
    assert a + [e] + rest == a + ([e] + rest);
    assert ([e] + rest)[1..] == rest;
    RelayedAppend(turnWhite, white, black, a, [e] + rest);
  }

  /** Any run of out-of-turn messages (say black moving before white's first
      move) is dropped as a whole. */
  lemma {:induction false} OutOfTurnRunDropped(turnWhite: bool, white: Conn, black: Conn, a: seq<Event>, rest: seq<Event>)
    requires forall k :: 0 <= k < |a| ==> !HoldsTurn(turnWhite, a[k]) && !IsErrorEvent(a[k])
    ensures Relayed(turnWhite, white, black, a + rest) == Relayed(turnWhite, white, black, rest)
    ensures TurnAfter(turnWhite, a + rest) == TurnAfter(turnWhite, rest)
  {
    if a == [] {
      assert a + rest == rest;
    } else {
      assert (a + rest)[0] == a[0];
      assert (a + rest)[1..] == a[1..] + rest;
      OutOfTurnRunDropped(turnWhite, white, black, a[1..], rest);
    }
  }

  /** An error message from either side, whatever the turn, ends the relay:
      nothing that follows it is ever written. */
  lemma {:induction false} ErrorEndsRelay(turnWhite: bool, white: Conn, black: Conn, a: seq<Event>, e: Event, rest: seq<Event>)
    requires IsErrorEvent(e)
    ensures Relayed(turnWhite, white, black, a + [e] + rest) == Relayed(turnWhite, white, black, a)
    decreases |a|
  {
    if a == [] {
      assert a + [e] + rest == [e] + rest;
    } else {
      assert (a + [e] + rest)[0] == a[0];
      assert (a + [e] + rest)[1..] == a[1..] + [e] + rest;
      var next := if HoldsTurn(turnWhite, a[0]) then !turnWhite else turnWhite;
      ErrorEndsRelay(next, white, black, a[1..], e, rest);
    }
  }

  /** Only the events before the first error matter: the `consumed` events
      of PlayChess decide its whole output. */
  lemma RelayedUpToFirstError(turnWhite: bool, white: Conn, black: Conn, events: seq<Event>)
    ensures Relayed(turnWhite, white, black, events)
            == Relayed(turnWhite, white, black, events[..ErrorIndex(events)])
  {
    ErrorIndexIsFirstError(events);
    var i := ErrorIndex(events);
    if i < |events| {
      assert events == events[..i] + [events[i]] + events[i + 1..];
      ErrorEndsRelay(turnWhite, white, black, events[..i], events[i], events[i + 1..]);
    } else {
      assert events[..i] == events;
    }
  }

  /** The writes alternate: the first goes to the side not holding the
      initial turn, and every later one to the other side of the one before. */
  lemma {:induction false} RelayAlternates(turnWhite: bool, white: Conn, black: Conn, events: seq<Event>)
    ensures forall k :: 0 <= k < |Relayed(turnWhite, white, black, events)| ==>
              Relayed(turnWhite, white, black, events)[k].to
              == if (k % 2 == 0) == turnWhite then black else white
    decreases |events|
  {
    if events != [] && !IsErrorEvent(events[0]) {
      if HoldsTurn(turnWhite, events[0]) {
        RelayAlternates(!turnWhite, white, black, events[1..]);
        var tail := Relayed(!turnWhite, white, black, events[1..]);
        var r := Relayed(turnWhite, white, black, events);
        assert r == [Write(Peer(events[0], white, black), events[0].msg)] + tail;
        forall k | 0 < k < |r|
          ensures r[k].to == if (k % 2 == 0) == turnWhite then black else white
        {
          assert r[k] == tail[k - 1];
          assert ((k - 1) % 2 == 0) == (k % 2 != 0);
        }
      } else {
        RelayAlternates(turnWhite, white, black, events[1..]);
      }
    }
  }

  /** The turn flips exactly once per forwarded message. */
  lemma {:induction false} TurnFlipsPerWrite(turnWhite: bool, white: Conn, black: Conn, events: seq<Event>)
    ensures TurnAfter(turnWhite, events)
            == (turnWhite == (|Relayed(turnWhite, white, black, events)| % 2 == 0))
    decreases |events|
  {
    if events != [] && !IsErrorEvent(events[0]) {
      if HoldsTurn(turnWhite, events[0]) {
        TurnFlipsPerWrite(!turnWhite, white, black, events[1..]);
      } else {
        TurnFlipsPerWrite(turnWhite, white, black, events[1..]);
      }
    }
  }

  /** No error message is ever forwarded to a player. */
  lemma {:induction false} NoErrorForwarded(turnWhite: bool, white: Conn, black: Conn, events: seq<Event>)
    ensures forall k :: 0 <= k < |Relayed(turnWhite, white, black, events)| ==>
              !IsError(Relayed(turnWhite, white, black, events)[k].msg)
    decreases |events|
  {
    if events != [] && !IsErrorEvent(events[0]) {
      var next := if HoldsTurn(turnWhite, events[0]) then !turnWhite else turnWhite;
      NoErrorForwarded(next, white, black, events[1..]);
    }
  }

  /** The messages one side sent, in the order the relay took them. */
  function SentBy(events: seq<Event>, fromWhite: bool): seq<Message>
  {
    if events == [] then []
    else (if events[0].FromWhite? == fromWhite then [events[0].msg] else []) + SentBy(events[1..], fromWhite)
  }

  /** The messages written to one connection, in order. */
  function DeliveredTo(writes: seq<Write>, c: Conn): seq<Message>
  {
    if writes == [] then []
    else (if writes[0].to == c then [writes[0].msg] else []) + DeliveredTo(writes[1..], c)
  }

  /** `a` is `b` with some elements left out. */
  predicate IsSubsequence<T(==)>(a: seq<T>, b: seq<T>)
    decreases |b|
  {
    a == [] || (b != [] && ((a[0] == b[0] && IsSubsequence(a[1..], b[1..])) || IsSubsequence(a, b[1..])))
  }

  lemma SubsequenceCons<T>(x: T, a: seq<T>, b: seq<T>)
    requires IsSubsequence(a, b)
    ensures IsSubsequence([x] + a, [x] + b)
    ensures IsSubsequence(a, [x] + b)
  {
    assert ([x] + a)[1..] == a;
    assert ([x] + b)[1..] == b;
  }

  /** What each player receives is what the other one sent, in the same order,
      with the dropped messages left out. */
  lemma {:induction false} RelayKeepsSenderOrder(turnWhite: bool, white: Conn, black: Conn, events: seq<Event>)
    requires white != black
    ensures IsSubsequence(DeliveredTo(Relayed(turnWhite, white, black, events), black), SentBy(events, true))
    ensures IsSubsequence(DeliveredTo(Relayed(turnWhite, white, black, events), white), SentBy(events, false))
    decreases |events|
  {
    if events == [] || IsErrorEvent(events[0]) {
      assert Relayed(turnWhite, white, black, events) == [];
    } else {
      var e := events[0];
      var next := if HoldsTurn(turnWhite, e) then !turnWhite else turnWhite;
      RelayKeepsSenderOrder(next, white, black, events[1..]);
      var tail := Relayed(next, white, black, events[1..]);
      var r := Relayed(turnWhite, white, black, events);
      assert SentBy(events, e.FromWhite?) == [e.msg] + SentBy(events[1..], e.FromWhite?);
      assert SentBy(events, !e.FromWhite?) == SentBy(events[1..], !e.FromWhite?);
      if HoldsTurn(turnWhite, e) {
        var w := Write(Peer(e, white, black), e.msg);
        assert r == [w] + tail;
        assert ([w] + tail)[1..] == tail;
        assert DeliveredTo(r, Peer(e, white, black)) == [e.msg] + DeliveredTo(tail, Peer(e, white, black));
        SubsequenceCons(e.msg, DeliveredTo(tail, Peer(e, white, black)), SentBy(events[1..], e.FromWhite?));
        if e.FromWhite? {
          assert DeliveredTo(r, white) == DeliveredTo(tail, white);
        } else {
          assert DeliveredTo(r, black) == DeliveredTo(tail, black);
        }
      } else {
        assert r == tail;
        if e.FromWhite? {
          SubsequenceCons(e.msg, DeliveredTo(tail, black), SentBy(events[1..], true));
        } else {
          SubsequenceCons(e.msg, DeliveredTo(tail, white), SentBy(events[1..], false));
        }
      }
    }
  }

  // ---------------------------------------------------------------------
  // The reader (forwardFromWebsocketToChannel)
  // ---------------------------------------------------------------------

  /** The outcome of one ReadJSON call. */
  datatype ReadResult = ReadOk(msg: Message) | ReadFailed

  /** The position of the first failed read, or the length when none fails. */
  function FailureIndex(results: seq<ReadResult>): (i: nat)
    ensures i <= |results|
    ensures i < |results| ==> results[i].ReadFailed?
    ensures forall j :: 0 <= j < i ==> results[j].ReadOk?
  {
    if results == [] || results[0].ReadFailed? then 0 else 1 + FailureIndex(results[1..])
  }

  /** The reader over the outcomes of successive reads. `sent` is what it
      pushes onto the channel, `consumed` how many reads it made, `closed`
      whether it returned (and so closed its connection). It pushes every
      message read, in order; at the first failure it pushes exactly one
      error message and reads no further. */
  method ForwardFromWebsocketToChannel(results: seq<ReadResult>)
    returns (sent: seq<Message>, consumed: nat, closed: bool)
    ensures consumed == if closed then FailureIndex(results) + 1 else |results|
    ensures closed ==> consumed <= |results| && results[consumed - 1].ReadFailed?
    ensures !closed ==> forall j :: 0 <= j < |results| ==> results[j].ReadOk?
    ensures |sent| == FailureIndex(results) + (if closed then 1 else 0)
    ensures forall k :: 0 <= k < FailureIndex(results) ==> sent[k] == results[k].msg
    ensures closed ==> sent[|sent| - 1] == ErrorMessage
  {
    sent := [];
    var i := 0;
    while i < |results|
      invariant i <= FailureIndex(results)
      invariant |sent| == i
      invariant forall k :: 0 <= k < i ==> sent[k] == results[k].msg
    {
      match results[i] {
        case ReadFailed =>
          sent := sent + [ErrorMessage];
          return sent, i + 1, true;
        case ReadOk(message) =>
          sent := sent + [message];
      }
      i := i + 1;
    }
    consumed, closed := i, false;
  }
}
