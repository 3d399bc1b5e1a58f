/** The server's session table of server.go: accepted connections keyed by a
    uint64 client id, the idle sweep of the monitor, targeted `Send`, and the
    per-frame loop of `handleConn`.

    Time is an integer number of nanoseconds supplied by the caller. A
    connection is an opaque value. The user callbacks `OnNew`, `OnData` and
    `OnClose` are recorded, in call order, in the server's event log. */
module Sessions {
  import opened Base
  import opened Wire

  const Second: int := 1_000_000_000
  /** A session idle for longer than this is evicted (server.go:72). */
  const IdleTimeout: int := 10 * Second

  /** One call of a user callback. */
  datatype Event =
    | New(id: U64)
    | Data(id: U64, tag: U32, payload: seq<Byte>)
    | Close(id: U64)

  /** `AcceptClient` (server.go:23-26). */
  class AcceptClient<Conn> {
    const conn: Conn
    var lastSeen: int

    constructor (conn: Conn, now: int)
      ensures this.conn == conn && lastSeen == now
    {
      this.conn := conn;
      lastSeen := now;
    }
  }

  /** The eviction test of the monitor: strictly more than the timeout. */
  predicate Idle(lastSeen: int, now: int) {
    now - lastSeen > IdleTimeout
  }

  /** `id` is where a probe from `start` settles: upward with uint64
      wrap-around to the first id not in `used`. It differs from
      `Requests.FirstFreeFrom` only in the width (uint64, not uint32) and in
      not skipping 0, which is a valid client id. */
  ghost predicate FirstFreeFrom(used: set<U64>, start: U64, id: U64) {
    && id !in used
    && forall k: U64 {:trigger k in used} ::
         Ahead(start, k, U64Count) < Ahead(start, id, U64Count) ==> k in used
  }

  /** A probe whose starting id is free stops at once. */
  lemma FirstFreeAtStart(used: set<U64>, start: U64, id: U64)
    requires FirstFreeFrom(used, start, id)
    requires start !in used
    ensures id == start
  {
    assert Ahead(start, start, U64Count) == 0;
  }

  /** The OnClose calls for `ids`, in order. */
  function Closes(ids: seq<U64>): (es: seq<Event>)
    ensures |es| == |ids|
    ensures forall i :: 0 <= i < |ids| ==> es[i] == Close(ids[i])
  {
    if ids == [] then [] else Closes(ids[..|ids| - 1]) + [Close(ids[|ids| - 1])]
  }

  /** What the read loop of `handleConn` does with the bytes a connection
      delivers: the OnData calls, the bytes written back, how many frames
      were read before the first read error, and that error. */
  datatype Served = Served(events: seq<Event>, replies: seq<Byte>, frames: nat, err: Error)

  /** The loop of `handleConn` (server.go:135-147) as a function of the input.
      Each frame read calls OnData at most once and consumes at least a
      5-byte header. */
  function Serve(id: U64, input: seq<Byte>): (s: Served)
    ensures |s.events| <= s.frames
    ensures s.frames * HeaderSize <= |input|
    decreases |input|
  {
    var r := ReadMessage(input);
    if r.err.Some? then Served([], [], 0, r.err.value)
    else
      var next := Serve(id, input[r.consumed..]);
      var delivered := if r.payload.Some? then [Data(id, r.tag, r.payload.value)] else [];
      Served(delivered + next.events, r.reply + next.replies, next.frames + 1, next.err)
  }

  /** `s` preceded by some already-handled frames. */
  function Prepend(events: seq<Event>, replies: seq<Byte>, frames: nat, s: Served): Served {
    Served(events + s.events, replies + s.replies, frames + s.frames, s.err)
  }

  lemma PrependPrepend(e1: seq<Event>, r1: seq<Byte>, f1: nat, e2: seq<Event>, r2: seq<Byte>, f2: nat, s: Served)
    ensures Prepend(e1, r1, f1, Prepend(e2, r2, f2, s)) == Prepend(e1 + e2, r1 + r2, f1 + f2, s)
  {
    assert e1 + (e2 + s.events) == (e1 + e2) + s.events;
    assert r1 + (r2 + s.replies) == (r1 + r2) + s.replies;
  }

  /** The loop ends at the first read error. */
  lemma ServeStop(id: U64, input: seq<Byte>)
    requires ReadMessage(input).err.Some?
    ensures Serve(id, input) == Served([], [], 0, ReadMessage(input).err.value)
  {
  }

  /** One turn of the loop: a successful read, then the rest of the input. */
  lemma ServeStep(id: U64, input: seq<Byte>)
    requires ReadMessage(input).err.None?
    ensures var r := ReadMessage(input);
      Serve(id, input) == Prepend(
        if r.payload.Some? then [Data(id, r.tag, r.payload.value)] else [],
        r.reply, 1, Serve(id, input[r.consumed..]))
  {
  }

  /** The loop invariant of `ServeFrames` survives one successful read:
      from the state before the read (`pos`, ...) to the state after it
      (`pos'`, ...). */
  lemma ServeAdvance(id: U64, input: seq<Byte>, whole: Served,
                     pos: nat, delivered: seq<Event>, replies: seq<Byte>, frames: nat,
                     pos': nat, delivered': seq<Event>, replies': seq<Byte>, frames': nat)
    requires pos <= |input|
    requires whole == Prepend(delivered, replies, frames, Serve(id, input[pos..]))
    requires ReadMessage(input[pos..]).err.None?
    requires var r := ReadMessage(input[pos..]);
      && pos' == pos + r.consumed
      && delivered' == (if r.payload.Some? then delivered + [Data(id, r.tag, r.payload.value)] else delivered)
      && replies' == replies + r.reply
      && frames' == frames + 1
    ensures pos' <= |input|
    ensures whole == Prepend(delivered', replies', frames', Serve(id, input[pos'..]))
  {
    var rest := input[pos..];
    var r := ReadMessage(rest);
    var d := if r.payload.Some? then [Data(id, r.tag, r.payload.value)] else [];
    var tail := Serve(id, rest[r.consumed..]);
    ServeStep(id, rest);
    PrependPrepend(delivered, replies, frames, d, r.reply, 1, tail);
    assert delivered + d == delivered';
    assert rest[r.consumed..] == input[pos'..];
  }

  lemma AppendAssoc<T>(a: seq<T>, b: seq<T>, c: seq<T>)
    ensures a + b + c == a + (b + c)
  {
  }

  /** A frame a well-behaved peer sends: a Data frame, or a Ping or Pong with
      no payload (the peer sends them as `writeMessage(conn, type, 0, nil)`). */
  datatype Frame = DataMsg(tag: U32, payload: seq<Byte>) | PingMsg | PongMsg

  predicate WellFormed(f: Frame) {
    f.DataMsg? ==> |f.payload| < U32Count
  }

  function Encode(f: Frame): seq<Byte> {
    match f
    case DataMsg(tag, payload) => WriteMessage(DataType, tag, payload)
    case PingMsg => WriteMessage(PingType, 0, [])
    case PongMsg => WriteMessage(PongType, 0, [])
  }

  function EncodeAll(fs: seq<Frame>): seq<Byte> {
    if fs == [] then [] else Encode(fs[0]) + EncodeAll(fs[1..])
  }

  /** The OnData calls a frame sequence should produce. */
  function Deliveries(id: U64, fs: seq<Frame>): seq<Event> {
    if fs == [] then []
    else (if fs[0].DataMsg? then [Data(id, fs[0].tag, fs[0].payload)] else [])
         + Deliveries(id, fs[1..])
  }

  /** The Pongs a frame sequence should be answered with, one per Ping. */
  function Pongs(fs: seq<Frame>): seq<Byte> {
    if fs == [] then [] else (if fs[0].PingMsg? then PongFrame() else []) + Pongs(fs[1..])
  }

  /** A connection that carries N well-formed frames and then ends is read as
      exactly those N frames: every Data frame reaches OnData with its tag and
      payload, in order; Pings and Pongs never do; each Ping is answered with
      one Pong; the loop then stops on EOF. */
  lemma {:induction false} ServeEncoded(id: U64, fs: seq<Frame>)
    requires forall i :: 0 <= i < |fs| ==> WellFormed(fs[i])
    ensures Serve(id, EncodeAll(fs)) == Served(Deliveries(id, fs), Pongs(fs), |fs|, EOF)
  {
    if fs != [] {
      var input := EncodeAll(fs);
      var tail := EncodeAll(fs[1..]);
      assert input == Encode(fs[0]) + tail;
      ServeEncoded(id, fs[1..]);
      match fs[0]
      case DataMsg(tag, payload) =>
        DataRoundTrip(tag, payload, tail);
        assert input[|Encode(fs[0])|..] == tail;
      case PingMsg =>
        PingAnswered(input);
        assert input[HeaderSize..] == tail;
      case PongMsg =>
        PongSilent(input);
        assert input[HeaderSize..] == tail;
    }
  }

  class Server<Conn> {
    var clientId: U64
    var sessions: map<U64, AcceptClient<Conn>>
    /** The calls of OnNew, OnData and OnClose, in order. */
    var events: seq<Event>

    /** `NewServer` (server.go:29-33). */
    constructor ()
      ensures clientId == 0 && sessions == map[] && events == []
    {
      clientId := 0;
      sessions := map[];
      events := [];
    }

    /** The sessions the monitor would evict at time `now`. */
    function IdleIds(now: int): (ids: set<U64>)
      reads this, sessions.Values
      ensures ids <= sessions.Keys
    {
      set id | id in sessions && Idle(sessions[id].lastSeen, now)
    }

    /** `addClient` (server.go:101-122). The Go loop only terminates if some
        id is free, which is what the size bound guarantees. */
    method AddClient(conn: Conn, now: int) returns (id: U64, ac: AcceptClient<Conn>)
      requires |sessions| < U64Count
      modifies this
      ensures fresh(ac) && ac.conn == conn && ac.lastSeen == now
      ensures FirstFreeFrom(old(sessions).Keys, old(clientId), id)
      ensures sessions == old(sessions)[id := ac]
      ensures |sessions| == |old(sessions)| + 1
      ensures clientId == id
      ensures events == old(events) + [New(id)]
    {
      ghost var start := clientId;
      ghost var used: set<int> := sessions.Keys;
      FreeValueExists(used, 0, U64Count);
      ghost var target: U64 :| target !in sessions;
      while clientId in sessions
        invariant sessions == old(sessions) && events == old(events)
        invariant Ahead(start, clientId, U64Count) <= Ahead(start, target, U64Count)
        invariant forall k: U64 {:trigger k in sessions} ::
          Ahead(start, k, U64Count) < Ahead(start, clientId, U64Count) ==> k in sessions
        decreases Ahead(start, target, U64Count) - Ahead(start, clientId, U64Count)
      {
        if Ahead(start, clientId, U64Count) == Ahead(start, target, U64Count) {
          AheadInjective(start, clientId, target, U64Count);
        }
        AheadStep(start, clientId, U64Count);
        clientId := Inc64(clientId);
      }
      id := clientId;
      ac := new AcceptClient(conn, now);
      sessions := sessions[id := ac];
      events := events + [New(id)];
    }

    /** `addClient` as evidently intended: as `AddClient`, but `clientId` then
        moves one past the id just issued. `issued` is every id handed out so
        far. While all of them lie below `clientId` and every live session is
        one of them, the probe stops at `clientId` itself, so the new id was
        never issued before, and the same holds afterwards with the new id
        added. The bound on `clientId` keeps the counter from wrapping. */
    method AddClientFresh(conn: Conn, now: int, ghost issued: set<U64>)
      returns (id: U64, ac: AcceptClient<Conn>)
      requires clientId < U64Count - 1
      requires sessions.Keys <= issued
      requires forall k :: k in issued ==> k < clientId
      modifies this
      ensures fresh(ac) && ac.conn == conn && ac.lastSeen == now
      ensures id == old(clientId) && id !in issued
      ensures sessions == old(sessions)[id := ac]
      ensures events == old(events) + [New(id)]
      ensures clientId == id + 1
      ensures sessions.Keys <= issued + {id}
      ensures forall k :: k in issued + {id} ==> k < clientId
    {
      ghost var keys: set<int> := sessions.Keys;
      RangeFacts(0, clientId);
      assert keys <= Range(0, clientId);
      SubsetSize(keys, Range(0, clientId));
      id, ac := AddClient(conn, now);
      FirstFreeAtStart(old(sessions).Keys, old(clientId), id);
      clientId := Inc64(clientId);
    }

    /** `removeClient` (server.go:123-130): idempotent; OnClose fires only
        when an entry was removed. */
    method RemoveClient(id: U64)
      modifies this
      ensures sessions == old(sessions) - {id}
      ensures clientId == old(clientId)
      ensures events == old(events) + (if id in old(sessions) then [Close(id)] else [])
    {
      if id in sessions {
        sessions := sessions - {id};
        events := events + [Close(id)];
      }
    }

    /** One pass of the monitor goroutine (server.go:69-79): collect the idle
        ids, then remove each. Exactly the sessions idle for more than 10s are
        evicted, each with one OnClose, in the order collected. */
    method Sweep(now: int) returns (deleteList: seq<U64>)
      modifies this
      ensures forall id :: id in deleteList <==> id in old(IdleIds(now))
      ensures forall i, j :: 0 <= i < j < |deleteList| ==> deleteList[i] != deleteList[j]
      ensures sessions == old(sessions) - old(IdleIds(now))
      ensures events == old(events) + Closes(deleteList)
      ensures clientId == old(clientId)
    {
      var remaining := sessions.Keys;
      deleteList := [];
      while remaining != {}
        invariant remaining <= sessions.Keys
        invariant forall id :: id in deleteList <==>
          id in sessions && id !in remaining && Idle(sessions[id].lastSeen, now)
        invariant forall i, j :: 0 <= i < j < |deleteList| ==> deleteList[i] != deleteList[j]
        decreases remaining
      {
        var id :| id in remaining;
        if Idle(sessions[id].lastSeen, now) {
          deleteList := deleteList + [id];
        }
        remaining := remaining - {id};
      }
      assert forall id :: id in deleteList <==> id in IdleIds(now);
      var j := 0;
      while j < |deleteList|
        invariant 0 <= j <= |deleteList|
        invariant sessions == old(sessions) - (set i | 0 <= i < j :: deleteList[i])
        invariant events == old(events) + Closes(deleteList[..j])
        invariant clientId == old(clientId)
      {
        assert deleteList[..j + 1][..j] == deleteList[..j];
        RemoveClient(deleteList[j]);
        j := j + 1;
      }
      assert deleteList[..j] == deleteList;
      assert (set i | 0 <= i < j :: deleteList[i]) == old(IdleIds(now));
    }

    /** `Send` (server.go:151-158): one Data frame to the session's connection,
        which the peer reads back as this tag and payload; or
        `ErrorConnectIdInvalid` with 0 bytes when the id is unknown. */
    method Send(id: U64, tag: U32, data: seq<Byte>)
      returns (n: int, err: Option<Error>, written: Option<(Conn, seq<Byte>)>)
      ensures id !in sessions ==> n == 0 && err == Some(ConnectIdInvalid) && written == None
      ensures id in sessions ==>
        && err == None
        && written == Some((sessions[id].conn, WriteMessage(DataType, tag, data)))
        && n == |written.value.1|
      ensures id in sessions && |data| < U32Count ==>
        ReadMessage(written.value.1) == ReadResult(DataType, tag, Some(data), None, n, [])
    {
      if id in sessions {
        var frame := WriteMessage(DataType, tag, data);
        if |data| < U32Count {
          DataRoundTrip(tag, data, []);
          assert frame + [] == frame;
        }
        return |frame|, None, Some((sessions[id].conn, frame));
      }
      return 0, Some(ConnectIdInvalid), None;
    }

    /** What one successfully read frame does (server.go:141-145): refresh
        the session's `lastSeen` to `now`, then call OnData unless the
        payload is nil. */
    method HandleFrame(id: U64, cli: AcceptClient<Conn>, r: ReadResult, now: int)
      modifies cli, this`events
      ensures cli.lastSeen == now
      ensures r.payload.None? ==> events == old(events)
      ensures r.payload.Some? ==> events == old(events) + [Data(id, r.tag, r.payload.value)]
    {
      cli.lastSeen := now;
      if r.payload.None? {
        return;
      }
      events := events + [Data(id, r.tag, r.payload.value)];
    }

    /** One pass of the read loop of `handleConn` (server.go:136-146) at
        offset `pos` of the stream, at time `now`. `whole` is what the loop
        computes over the whole stream and (`delivered`, `replies`, `frames`)
        what it has computed before `pos`; `base` is `events` before the loop.
        A read error stops the loop and changes nothing; a successful read
        refreshes `lastSeen`, hands the payload to OnData unless it is nil,
        and leaves the same relation holding at the new offset. */
    method ServeTurn(id: U64, cli: AcceptClient<Conn>, input: seq<Byte>, pos: nat, now: int,
                     ghost whole: Served, ghost base: seq<Event>, ghost delivered: seq<Event>,
                     replies: seq<Byte>, frames: nat)
      returns (stop: Option<Error>, pos': nat, replies': seq<Byte>, frames': nat,
               ghost delivered': seq<Event>)
      requires pos <= |input|
      requires whole == Prepend(delivered, replies, frames, Serve(id, input[pos..]))
      requires events == base + delivered
      modifies cli, this`events
      ensures stop.Some? ==>
        && whole == Served(delivered, replies, frames, stop.value)
        && pos' == pos && replies' == replies && frames' == frames && delivered' == delivered
        && events == old(events) && cli.lastSeen == old(cli.lastSeen)
      ensures stop.None? ==>
        && pos < pos' <= |input| && frames' == frames + 1
        && whole == Prepend(delivered', replies', frames', Serve(id, input[pos'..]))
        && events == base + delivered' && cli.lastSeen == now
    {
      var r := ReadMessage(input[pos..]);
      if r.err.Some? {
        ServeStop(id, input[pos..]);
        assert delivered + [] == delivered && replies + [] == replies;
        return r.err, pos, replies, frames, delivered;
      }
      HandleFrame(id, cli, r, now);
      delivered' := delivered;
      if r.payload.Some? {
        AppendAssoc(base, delivered, [Data(id, r.tag, r.payload.value)]);
        delivered' := delivered + [Data(id, r.tag, r.payload.value)];
      }
      stop, pos', replies', frames' := None, pos + r.consumed, replies + r.reply, frames + 1;
      ServeAdvance(id, input, whole, pos, delivered, replies, frames, pos', delivered', replies', frames');
    }

    /** The read loop of `handleConn` (server.go:135-147) for session `id`,
        whose `AcceptClient` is `cli`. `clock(k)` is the time at which the
        k-th frame (from 0) finished reading. Each frame read refreshes
        `lastSeen`; frames with a nil payload are skipped; the others go to
        OnData; the first read error ends the loop. */
    method ServeFrames(id: U64, cli: AcceptClient<Conn>, input: seq<Byte>, clock: nat -> int)
      returns (frames: nat, replies: seq<Byte>, err: Error)
      modifies cli, this`events
      ensures var s := Serve(id, input);
        && events == old(events) + s.events
        && replies == s.replies && frames == s.frames && err == s.err
      ensures frames == 0 ==> cli.lastSeen == old(cli.lastSeen)
      ensures frames > 0 ==> cli.lastSeen == clock(frames - 1)
    {
      var pos := 0;
      frames, replies := 0, [];
      ghost var delivered: seq<Event> := [];
      ghost var whole := Serve(id, input);
      assert input[pos..] == input;
      while true
        invariant pos <= |input|
        invariant whole == Prepend(delivered, replies, frames, Serve(id, input[pos..]))
        invariant events == old(events) + delivered
        invariant frames == 0 ==> cli.lastSeen == old(cli.lastSeen)
        invariant frames > 0 ==> cli.lastSeen == clock(frames - 1)
        decreases |input| - pos
      {
        var stop;
        stop, pos, replies, frames, delivered :=
          ServeTurn(id, cli, input, pos, clock(frames), whole, old(events), delivered, replies, frames);
        if stop.Some? {
          err := stop.value;
          return;
        }
      }
    }

    /** `handleConn` (server.go:131-149): register the connection, serve its
        frames, and on the first read error remove it again. The table ends as
        it began (apart from `clientId`), and the callbacks fire as OnNew, the
        OnData calls, then exactly one OnClose. */
    method HandleConn(conn: Conn, now: int, input: seq<Byte>, clock: nat -> int)
      returns (id: U64, replies: seq<Byte>, err: Error)
      requires |sessions| < U64Count
      modifies this
      ensures FirstFreeFrom(old(sessions).Keys, old(clientId), id) && clientId == id
      ensures sessions == old(sessions)
      ensures var s := Serve(id, input);
        && events == old(events) + [New(id)] + s.events + [Close(id)]
        && replies == s.replies && err == s.err
    {
      var cli;
      id, cli := AddClient(conn, now);
      var frames;
      frames, replies, err := ServeFrames(id, cli, input, clock);
      RemoveClient(id);
      assert old(sessions)[id := cli] - {id} == old(sessions);
    }
  }

  /** Session `a` is evicted by the monitor after more than 10s of silence,
      but its connection stays open. As written, `clientId` still holds `a`,
      so the next connection is given `a` again; when the evicted
      connection's read loop then ends, its deferred `removeClient(a)` removes
      the new session and reports an OnClose for it. */
  method IdReusedAfterEviction<Conn>(first: Conn, second: Conn)
    returns (a: U64, b: U64, secondLive: bool, lastEvent: Event)
    ensures a == b
    ensures !secondLive
    ensures lastEvent == Close(b)
  {
    var s := new Server<Conn>();
    var ac, bc;
    a, ac := s.AddClient(first, 0);
    FirstFreeAtStart({}, 0, a);
    assert s.IdleIds(IdleTimeout + 1) == {a};
    var evicted := s.Sweep(IdleTimeout + 1);
    b, bc := s.AddClient(second, IdleTimeout + 1);
    FirstFreeAtStart({}, 0, b);
    s.RemoveClient(a);
    secondLive := b in s.sessions;
    lastEvent := s.events[|s.events| - 1];
  }

  /** The same run with `AddClientFresh`: the second connection gets a new
      id, and the evicted connection's deferred `removeClient` leaves its
      session alone. */
  method IdsDistinctAfterEviction<Conn>(first: Conn, second: Conn)
    returns (a: U64, b: U64, secondLive: bool, lastEvent: Event)
    ensures a != b
    ensures secondLive
    ensures lastEvent == New(b)
  {
    var s := new Server<Conn>();
    var ac, bc;
    a, ac := s.AddClientFresh(first, 0, {});
    assert s.IdleIds(IdleTimeout + 1) == {a};
    var evicted := s.Sweep(IdleTimeout + 1);
    b, bc := s.AddClientFresh(second, IdleTimeout + 1, {a});
    s.RemoveClient(a);
    secondLive := b in s.sessions;
    lastEvent := s.events[|s.events| - 1];
  }
}
