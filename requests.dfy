/** The request correlation table of request.go: a map from uint32 request id
    to the callback waiting for its reply, and the last id handed out. */
module Requests {
  import opened Base

  /** A reply message. The table reads only `requestId`; `body` stands for
      the rest of the message, which the callback receives untouched. */
  datatype Message = Message(requestId: U32, body: seq<int>)

  /** Every non-zero id the probe from `start` passed before reaching `x` is in `used`. */
  ghost predicate ProbedBelow(used: set<U32>, start: U32, x: U32) {
    forall k: U32 {:trigger k in used} ::
      k != 0 && Ahead(start, k, U32Count) < Ahead(start, x, U32Count) ==> k in used
  }

  /** `id` is the id a probe from `start` settles on: upward with uint32
      wrap-around, skipping 0, stopping at the first id not in `used`. The
      session table's `Sessions.FirstFreeFrom` is the same probe over uint64
      without the skipped 0. */
  ghost predicate FirstFreeFrom(used: set<U32>, start: U32, id: U32) {
    && id != 0
    && id !in used
    && ProbedBelow(used, start, id)
  }

  /** The probe result is unique: two first free ids from the same start agree. */
  lemma FirstFreeUnique(used: set<U32>, start: U32, a: U32, b: U32)
    requires FirstFreeFrom(used, start, a) && FirstFreeFrom(used, start, b)
    ensures a == b
  {
    AheadInjective(start, a, b, U32Count);
  }

  /** Some non-zero id is free whenever fewer than 2^32 - 1 ids are in use. */
  lemma FreeIdExists(used: set<U32>)
    requires 0 !in used && |used| < U32Count - 1
    ensures exists id: U32 :: id != 0 && id !in used
  {
    var ints: set<int> := used;
    FreeValueExists(ints, 1, U32Count);
    var k :| 1 <= k < U32Count && k !in ints;
    assert (k as U32) !in used;
  }

  /** One probe step past an id that is 0 or taken: the probe moves one
      further ahead, never past the free `target`, and passed only taken ids. */
  lemma ProbeAdvance(used: set<U32>, start: U32, x: U32, target: U32)
    requires ProbedBelow(used, start, x)
    requires x == 0 || x in used
    requires target != 0 && target !in used
    requires Ahead(start, x, U32Count) <= Ahead(start, target, U32Count)
    ensures Ahead(start, Inc32(x), U32Count) == Ahead(start, x, U32Count) + 1
    ensures Ahead(start, Inc32(x), U32Count) <= Ahead(start, target, U32Count)
    ensures ProbedBelow(used, start, Inc32(x))
  {
    if Ahead(start, x, U32Count) == Ahead(start, target, U32Count) {
      AheadInjective(start, x, target, U32Count);
    }
    AheadStep(start, x, U32Count);
  }

  class RequestManager<Callback> {
    var requestId: U32
    var requestMap: map<U32, Callback>

    /** Id 0 is never handed out, so it is never a key. */
    ghost predicate Valid()
      reads this
    {
      0 !in requestMap
    }

    /** `newRequestManager` (request.go:43-48). */
    constructor ()
      ensures Valid()
      ensures requestId == 0 && requestMap == map[]
    {
      requestId := 0;
      requestMap := map[];
    }

    /** `OnReply` (request.go:14-24): the callback invoked with `msg`, if any.
        The entry is looked up and not removed, so the table never changes. */
    method OnReply(msg: Message) returns (invoked: Option<Callback>)
      ensures msg.requestId in requestMap <==> invoked.Some?
      ensures msg.requestId in requestMap ==> invoked.value == requestMap[msg.requestId]
    {
      var id := msg.requestId;
      if id !in requestMap {
        return None;
      }
      invoked := Some(requestMap[id]);
    }

    /** `NextRequestId` (request.go:26-42). The Go loop only terminates if some
        non-zero id is free, which is what the size bound guarantees. */
    method NextRequestId(cb: Callback) returns (id: U32)
      requires Valid()
      requires |requestMap| < U32Count - 1
      modifies this
      ensures Valid()
      ensures FirstFreeFrom(old(requestMap).Keys, old(requestId), id)
      ensures requestMap == old(requestMap)[id := cb]
      ensures |requestMap| == |old(requestMap)| + 1
      ensures requestId == id
    {
      ghost var start := requestId;
      FreeIdExists(requestMap.Keys);
      ghost var target: U32 :| target != 0 && target !in requestMap;
      while true
        invariant requestMap == old(requestMap) && Valid()
        invariant Ahead(start, requestId, U32Count) <= Ahead(start, target, U32Count)
        invariant ProbedBelow(requestMap.Keys, start, requestId)
        decreases Ahead(start, target, U32Count) - Ahead(start, requestId, U32Count)
      {
        if requestId == 0 {
          ProbeAdvance(requestMap.Keys, start, requestId, target);
          requestId := Inc32(requestId);
        }
        if requestId !in requestMap {
          requestMap := requestMap[requestId := cb];
          return requestId;
        }
        ProbeAdvance(requestMap.Keys, start, requestId, target);
        requestId := Inc32(requestId);
      }
    }
  }

  /** A fresh manager issues 1 and then 2, and answers a reply to 1 with the
      first callback. */
  method FreshManagerIssuesOneThenTwo<Callback>(first: Callback, second: Callback)
    returns (a: U32, b: U32, answered: Option<Callback>)
    ensures a == 1 && b == 2 && answered == Some(first)
  {
    var m := new RequestManager<Callback>();
    a := m.NextRequestId(first);
    assert Ahead(0, 1, U32Count) == 1;
    assert forall k: U32 :: k != 0 ==> Ahead(0, k, U32Count) >= 1;
    FirstFreeUnique({}, 0, a, 1);
    assert m.requestMap.Keys == {1};
    b := m.NextRequestId(second);
    assert Ahead(1, 2, U32Count) == 1;
    assert forall k: U32 :: k != 0 && k != 1 ==> Ahead(1, k, U32Count) >= 1;
    FirstFreeUnique({1}, 1, b, 2);
    answered := m.OnReply(Message(1, []));
  }
}
