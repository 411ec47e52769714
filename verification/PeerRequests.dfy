/** Matching replies to requests on one connection, with requests nested inside the handling of
    unsolicited messages. */
module PeerRequests {
  import opened Paqus

  type Message(==, !new)

  datatype Envelope = Envelope(requestId: nat, responseTo: nat, message: Message)

  /** What one read of the incoming channel yields. */
  datatype Received = Arrived(envelope: Envelope) | Quiet | Hangup

  /** One look at the outside world: the clock, the shutdown flag, the request budget, and
      whether a write to the socket goes through. */
  datatype Reading = Reading(now: nat, shutdown: bool, withinBudget: bool, sent: bool)

  /** How the node goes on with an unsolicited message: finish, or ask the peer something first.
      A strict question passes its failure on; after any other, the node decides anew. */
  datatype Decision = Finish(ok: bool) | AskPeer(strict: bool)

  datatype Failure = Stopped | OverBudget | SendFailed | TimedOut | Disconnected | HandlingFailed

  const PERSISTENT_PEER_TIMEOUT: nat := 30

  /** A reply as it was received, with the request it names. */
  datatype Reply = Reply(to: nat, message: Message)

  function Lookup(pending: map<nat, Message>, id: nat): Option<Message> {
    if id in pending then Some(pending[id]) else None
  }

  /** The newest reply to `id` among those kept before and those received since. */
  function Newest(pending: map<nat, Message>, received: seq<Reply>, id: nat): Option<Message> {
    if received == [] then Lookup(pending, id)
    else if received[|received| - 1].to == id then Some(received[|received| - 1].message)
    else Newest(pending, received[..|received| - 1], id)
  }

  /** The replies among the items read from the channel, in order. */
  function Replies(items: seq<Received>): seq<Reply> {
    if items == [] then []
    else Replies(items[..|items| - 1]) + ReplyIn(items[|items| - 1])
  }

  function ReplyIn(item: Received): seq<Reply> {
    if item.Arrived? && item.envelope.responseTo != 0 then [Reply(item.envelope.responseTo, item.envelope.message)]
    else []
  }

  /** `rest` is what is left of `all` after reading from its front. */
  predicate LeftOf<T(==)>(all: seq<T>, rest: seq<T>) {
    |rest| <= |all| && rest == all[|all| - |rest|..]
  }

  /** The item read last before only `rest` was left. */
  function LastRead<T(==)>(all: seq<T>, rest: seq<T>): T
    requires LeftOf(all, rest) && |rest| < |all|
  {
    all[|all| - |rest| - 1]
  }

  /** The replies read between two states of the channel. */
  function Heard(all: seq<Received>, rest: seq<Received>): seq<Reply>
    requires LeftOf(all, rest)
  {
    Replies(all[..|all| - |rest|])
  }

  /** The item is an envelope that answers request `id` with `message`. */
  ghost predicate AnswersWith(item: Received, id: nat, message: Message) {
    item.Arrived? && item.envelope.responseTo == id != 0 && item.envelope.message == message
  }

  /** Heard are exactly the replies among the items read, each under the id it names. */
  lemma {:induction false} RepliesAre(items: seq<Received>, id: nat, message: Message)
    ensures Reply(id, message) in Replies(items) <==>
      exists i :: 0 <= i < |items| && AnswersWith(items[i], id, message)
  {
    if items != [] {
      var front, last := items[..|items| - 1], items[|items| - 1];
      RepliesAre(front, id, message);
      assert forall i :: 0 <= i < |front| ==> items[i] == front[i];
      if i :| 0 <= i < |front| && AnswersWith(front[i], id, message) {
        assert AnswersWith(items[i], id, message);
      }
      if i :| 0 <= i < |items| && AnswersWith(items[i], id, message) {
        if i < |front| { assert AnswersWith(front[i], id, message); }
      }
    }
  }

  lemma HeardOne(all: seq<Received>, rest: seq<Received>)
    requires LeftOf(all, rest) && rest != []
    ensures LeftOf(all, rest[1..])
    ensures Heard(all, rest[1..]) == Heard(all, rest) + ReplyIn(rest[0])
  {
    var n := |all| - |rest|;
    assert all[..n + 1][..n] == all[..n] && all[..n + 1][n] == rest[0];
  }

  lemma {:induction false} RepliesJoin(a: seq<Received>, b: seq<Received>)
    ensures Replies(a + b) == Replies(a) + Replies(b)
    decreases |b|
  {
    if b == [] {
      assert a + b == a;
    } else {
      assert (a + b)[..|a + b| - 1] == a + b[..|b| - 1];
      RepliesJoin(a, b[..|b| - 1]);
    }
  }

  lemma HeardChains(all: seq<Received>, middle: seq<Received>, rest: seq<Received>)
    requires LeftOf(all, middle) && LeftOf(middle, rest)
    ensures LeftOf(all, rest)
    ensures Heard(all, rest) == Heard(all, middle) + Heard(middle, rest)
  {
    var n, m := |all| - |middle|, |middle| - |rest|;
    assert all[..n + m] == all[..n] + middle[..m];
    RepliesJoin(all[..n], middle[..m]);
  }

  lemma {:induction false} NewestChains(p: map<nat, Message>, a: seq<Reply>, q: map<nat, Message>, b: seq<Reply>,
      id: nat)
    requires Lookup(q, id) == Newest(p, a, id)
    ensures Newest(q, b, id) == Newest(p, a + b, id)
    decreases |b|
  {
    if b == [] {
      assert a + b == a;
    } else {
      assert (a + b)[..|a + b| - 1] == a + b[..|b| - 1];
      NewestChains(p, a, q, b[..|b| - 1], id);
    }
  }

  /** Nothing newest means nothing kept and nothing received. */
  lemma {:induction false} NoneNewest(pending: map<nat, Message>, received: seq<Reply>, id: nat)
    requires Newest(pending, received, id).None?
    ensures id !in pending && forall i :: 0 <= i < |received| ==> received[i].to != id
  {
    if received != [] {
      NoneNewest(pending, received[..|received| - 1], id);
      assert forall i :: 0 <= i < |received| - 1 ==> received[i] == received[..|received| - 1][i];
    }
  }

  /** What is newest was kept before or received since under that very id. */
  lemma {:induction false} NewestCarriesId(pending: map<nat, Message>, received: seq<Reply>, id: nat)
    requires Newest(pending, received, id).Some?
    ensures
      var m := Newest(pending, received, id).value;
      (id in pending && pending[id] == m) || Reply(id, m) in received
  {
    if received != [] && received[|received| - 1].to != id {
      NewestCarriesId(pending, received[..|received| - 1], id);
    }
  }

  /** The newest reply is the last one received under the id, or else the one kept before. */
  lemma {:induction false} NewestIsLast(pending: map<nat, Message>, received: seq<Reply>, id: nat, i: nat)
    requires i <= |received| && (i < |received| ==> received[i].to == id)
    requires forall j :: i < j < |received| ==> received[j].to != id
    ensures i < |received| ==> Newest(pending, received, id) == Some(received[i].message)
    ensures i == |received| && (forall j :: 0 <= j < |received| ==> received[j].to != id) ==>
      Newest(pending, received, id) == Lookup(pending, id)
    decreases |received|
  {
    if received != [] {
      var front := received[..|received| - 1];
      if i < |front| {
        NewestIsLast(pending, front, id, i);
      } else if i == |received| && forall j :: 0 <= j < |received| ==> received[j].to != id {
        NewestIsLast(pending, front, id, |front|);
      }
    }
  }

  /** For every id outside `from..to`, what is kept now is the newest reply since the start. */
  ghost predicate KeptOutside(start: map<nat, Message>, received: seq<Reply>, now: map<nat, Message>, from: nat,
      to: nat)
  {
    forall k: nat :: k < from || k >= to ==> Lookup(now, k) == Newest(start, received, k)
  }

  lemma KeptOutsideChains(p: map<nat, Message>, a: seq<Reply>, q: map<nat, Message>, b: seq<Reply>,
      r: map<nat, Message>, from: nat, mid: nat, to: nat)
    requires from <= mid <= to
    requires KeptOutside(p, a, q, from, mid) && KeptOutside(q, b, r, mid, to)
    ensures KeptOutside(p, a + b, r, from, to)
  {
    forall k: nat | k < from || k >= to
      ensures Lookup(r, k) == Newest(p, a + b, k)
    {
      NewestChains(p, a, q, b, k);
    }
  }

  lemma ReplyKept(p: map<nat, Message>, a: seq<Reply>, q: map<nat, Message>, reply: Reply, from: nat, to: nat)
    requires KeptOutside(p, a, q, from, to)
    ensures KeptOutside(p, a + [reply], q[reply.to := reply.message], from, to)
    ensures Newest(p, a + [reply], reply.to) == Some(reply.message)
  {
    assert (a + [reply])[..|a + [reply]| - 1] == a;
    forall k: nat | k < from || k >= to
      ensures Lookup(q[reply.to := reply.message], k) == Newest(p, a + [reply], k)
    {
      assert Lookup(q, k) == Newest(p, a, k);
    }
  }

  lemma ReplyTaken(p: map<nat, Message>, a: seq<Reply>, q: map<nat, Message>, id: nat, to: nat)
    requires id < to && KeptOutside(p, a, q, id + 1, to)
    ensures KeptOutside(p, a, q - {id}, id, to)
  {
    forall k: nat | k < id || k >= to
      ensures Lookup(q - {id}, k) == Newest(p, a, k)
    {
      assert Lookup(q, k) == Newest(p, a, k);
    }
  }

  /** What a finished request says about replies with its own id: a success delivers the newest, a
      failure while waiting means there was none, and a failed nested exchange leaves it kept. */
  ghost predicate Answered(start: map<nat, Message>, received: seq<Reply>, now: map<nat, Message>, id: nat,
      result: Result<Message, Failure>)
  {
    var newest := Newest(start, received, id);
    match result
    case Ok(message) => newest == Some(message) && id !in now
    case Err(HandlingFailed) => Lookup(now, id) == newest
    case Err(_) => newest == None && id !in now
  }

  /** Every failure but that of a nested exchange has a visible cause. */
  ghost predicate Blamed(error: Failure, clock: seq<Reading>, left: seq<Reading>, channel: seq<Received>,
      rest: seq<Received>)
    requires LeftOf(clock, left) && LeftOf(channel, rest)
  {
    match error
    case Stopped => left == [] || (|left| < |clock| && LastRead(clock, left).shutdown)
    case TimedOut => |left| < |clock| && LastRead(clock, left).now >= clock[0].now + PERSISTENT_PEER_TIMEOUT
    case Disconnected => rest == [] || (|rest| < |channel| && LastRead(channel, rest).Hangup?)
    case OverBudget => clock != [] && !clock[0].withinBudget
    case SendFailed => clock != [] && !clock[0].sent
    case HandlingFailed => true
  }

  lemma NothingRead(start: map<nat, Message>, all: seq<Received>, from: nat, to: nat)
    ensures LeftOf(all, all) && Heard(all, all) == []
    ensures KeptOutside(start, Heard(all, all), start, from, to)
  {
    assert all[..0] == [];
  }

  lemma LeftItself<T>(all: seq<T>)
    ensures LeftOf(all, all)
  {
  }

  lemma LeftChains<T>(all: seq<T>, middle: seq<T>, rest: seq<T>)
    requires LeftOf(all, middle) && LeftOf(middle, rest)
    ensures LeftOf(all, rest)
    ensures |rest| < |middle| ==> LastRead(all, rest) == LastRead(middle, rest)
  {
  }

  lemma ReadOne<T>(all: seq<T>, rest: seq<T>)
    requires LeftOf(all, rest) && rest != []
    ensures LeftOf(all, rest[1..]) && |rest| <= |all| && LastRead(all, rest[1..]) == rest[0]
  {
  }

  lemma OwnKept(start: map<nat, Message>, received: seq<Reply>, now: map<nat, Message>, id: nat, to: nat)
    requires KeptOutside(start, received, now, id + 1, to)
    ensures Lookup(now, id) == Newest(start, received, id)
    ensures KeptOutside(start, received, now, id, to)
  {
  }

  lemma KeptNarrows(start: map<nat, Message>, received: seq<Reply>, now: map<nat, Message>, id: nat, message: Message,
      to: nat)
    requires id < to && KeptOutside(start, received, now[id := message], id + 1, to)
    ensures KeptOutside(start, received, now, id, to)
  {
    forall k: nat | k < id || k >= to
      ensures Lookup(now, k) == Newest(start, received, k)
    {
      assert Lookup(now[id := message], k) == Newest(start, received, k);
    }
  }

  class PeerConnection {
    var nextRequestId: nat
    var pendingResponses: map<nat, Message>
    var clock: seq<Reading>
    var channel: seq<Received>
    var decisions: seq<Decision>

    constructor (clock: seq<Reading>, channel: seq<Received>, decisions: seq<Decision>)
      ensures nextRequestId == 1 && pendingResponses == map[]
      ensures this.clock == clock && this.channel == channel && this.decisions == decisions
    {
      nextRequestId, pendingResponses := 1, map[];
      this.clock, this.channel, this.decisions := clock, channel, decisions;
    }

    /** Sends a request and waits for its reply. A success returns the newest reply carrying the
        request's own id. A failure has its cause outside: before sending, nothing is read; while
        waiting, no such reply had come; and when a nested exchange fails, a reply that came is
        still kept. Replies to all other requests, above all to those still waiting further out,
        are kept. */
    method Request() returns (result: Result<Message, Failure>)
      requires 1 <= nextRequestId
      modifies this
      ensures |clock| <= |old(clock)| && |decisions| <= |old(decisions)| && old(nextRequestId) <= nextRequestId
      ensures LeftOf(old(channel), channel) && LeftOf(old(clock), clock)
      ensures KeptOutside(old(pendingResponses), Heard(old(channel), channel), pendingResponses,
                old(nextRequestId), nextRequestId)
      ensures nextRequestId == old(nextRequestId) <==>
                old(clock) == [] || old(clock)[0].shutdown || !old(clock)[0].withinBudget
      ensures nextRequestId == old(nextRequestId) ==>
                && channel == old(channel) && pendingResponses == old(pendingResponses)
                && (result == Err(Stopped) || result == Err(OverBudget))
      ensures result == Err(OverBudget) <==> old(clock) != [] && !old(clock)[0].shutdown && !old(clock)[0].withinBudget
      ensures result == Err(SendFailed) <==> old(nextRequestId) < nextRequestId && !old(clock)[0].sent
      ensures result == Err(SendFailed) ==> channel == old(channel) && pendingResponses == old(pendingResponses)
      ensures old(nextRequestId) < nextRequestId && result != Err(SendFailed) ==>
                Answered(old(pendingResponses), Heard(old(channel), channel), pendingResponses,
                  old(nextRequestId), result)
      ensures result.Err? ==> Blamed(result.error, old(clock), clock, old(channel), channel)
      decreases |clock|, 1
    {
      ghost var begin, all, time := pendingResponses, channel, clock;
      NothingRead(begin, all, nextRequestId, nextRequestId);
      NothingRead(begin, all, nextRequestId, nextRequestId + 1);
      if clock == [] {
        return Err(Stopped);
      }
      var first := clock[0];
      clock := clock[1..];
      if first.shutdown {
        return Err(Stopped);
      }
      if !first.withinBudget {
        return Err(OverBudget);
      }
      var deadline := first.now + PERSISTENT_PEER_TIMEOUT;
      var id := nextRequestId;
      nextRequestId := nextRequestId + 1;
      if !first.sent {
        return Err(SendFailed);
      }
      result := AwaitReply(id, deadline);
      LeftChains(time, time[1..], clock);
    }

    /** Reads the channel until the reply to `id` is there. */
    method AwaitReply(id: nat, deadline: nat) returns (result: Result<Message, Failure>)
      requires 1 <= id && nextRequestId == id + 1
      modifies this
      ensures |clock| <= |old(clock)| && |decisions| <= |old(decisions)| && old(nextRequestId) <= nextRequestId
      ensures LeftOf(old(channel), channel) && LeftOf(old(clock), clock)
      ensures KeptOutside(old(pendingResponses), Heard(old(channel), channel), pendingResponses, id, nextRequestId)
      ensures Answered(old(pendingResponses), Heard(old(channel), channel), pendingResponses, id, result)
      ensures result.Err? ==> !result.error.OverBudget? && !result.error.SendFailed?
      ensures result == Err(Stopped) ==> clock == [] || (|clock| < |old(clock)| && LastRead(old(clock), clock).shutdown)
      ensures result == Err(TimedOut) ==> |clock| < |old(clock)| && LastRead(old(clock), clock).now >= deadline
      ensures result == Err(Disconnected) ==>
                channel == [] || (|channel| < |old(channel)| && LastRead(old(channel), channel).Hangup?)
      decreases |clock|, 0
    {
      hide LeftOf, KeptOutside, Heard, Newest, LastRead;
      ghost var begin, all, time := pendingResponses, channel, clock;
      NothingRead(begin, all, id + 1, nextRequestId);
      LeftItself(time);
      while true
        invariant |clock| <= |time| && |decisions| <= |old(decisions)| && id < nextRequestId
        invariant LeftOf(all, channel) && LeftOf(time, clock)
        invariant KeptOutside(begin, Heard(all, channel), pendingResponses, id + 1, nextRequestId)
        decreases |clock|
      {
        OwnKept(begin, Heard(all, channel), pendingResponses, id, nextRequestId);
        if id in pendingResponses {
          result := Ok(pendingResponses[id]);
          ReplyTaken(begin, Heard(all, channel), pendingResponses, id, nextRequestId);
          pendingResponses := pendingResponses - {id};
          return;
        }
        if clock == [] {
          return Err(Stopped);
        }
        var reading := clock[0];
        ReadOne(time, clock);
        clock := clock[1..];
        if reading.shutdown {
          return Err(Stopped);
        }
        if reading.now >= deadline {
          return Err(TimedOut);
        }
        if channel == [] {
          return Err(Disconnected);
        }
        var received := channel[0];
        HeardOne(all, channel);
        ReadOne(all, channel);
        ghost var heard := Heard(all, channel);
        assert heard + [] == heard;
        channel := channel[1..];
        match received {
          case Quiet =>
          case Hangup =>
            return Err(Disconnected);
          case Arrived(envelope) =>
            ghost var reply := Reply(envelope.responseTo, envelope.message);
            ReplyKept(begin, heard, pendingResponses, reply, id + 1, nextRequestId);
            if envelope.responseTo == id {
              KeptNarrows(begin, Heard(all, channel), pendingResponses, id, envelope.message, nextRequestId);
              return Ok(envelope.message);
            }
            if envelope.responseTo != 0 {
              pendingResponses := pendingResponses[envelope.responseTo := envelope.message];
              continue;
            }
            ghost var kept, before, ids, hours := pendingResponses, channel, nextRequestId, clock;
            var ok := HandleUnsolicited();
            HeardChains(all, before, channel);
            LeftChains(time, hours, clock);
            KeptOutsideChains(begin, Heard(all, before), kept, Heard(before, channel), pendingResponses,
              id + 1, ids, nextRequestId);
            OwnKept(begin, Heard(all, channel), pendingResponses, id, nextRequestId);
            if !ok {
              return Err(HandlingFailed);
            }
        }
      }
    }

    /** Handles an unsolicited message, possibly with requests of its own. Replies to requests
        that were already waiting are kept for them. */
    method HandleUnsolicited() returns (ok: bool)
      requires 1 <= nextRequestId
      modifies this
      ensures |clock| <= |old(clock)| && |decisions| <= |old(decisions)| && old(nextRequestId) <= nextRequestId
      ensures LeftOf(old(channel), channel) && LeftOf(old(clock), clock)
      ensures KeptOutside(old(pendingResponses), Heard(old(channel), channel), pendingResponses,
                old(nextRequestId), nextRequestId)
      decreases |clock|, 2
    {
      hide LeftOf, KeptOutside, Heard;
      ghost var begin, all, time := pendingResponses, channel, clock;
      NothingRead(begin, all, nextRequestId, nextRequestId);
      LeftItself(time);
      while decisions != []
        invariant |clock| <= |old(clock)| && |decisions| <= |old(decisions)| && old(nextRequestId) <= nextRequestId
        invariant LeftOf(all, channel) && LeftOf(time, clock)
        invariant KeptOutside(begin, Heard(all, channel), pendingResponses, old(nextRequestId), nextRequestId)
        decreases |decisions|
      {
        var decision := decisions[0];
        decisions := decisions[1..];
        match decision {
          case Finish(fine) =>
            return fine;
          case AskPeer(strict) =>
            ghost var kept, before, ids, hours := pendingResponses, channel, nextRequestId, clock;
            var reply := Request();
            HeardChains(all, before, channel);
            LeftChains(time, hours, clock);
            KeptOutsideChains(begin, Heard(all, before), kept, Heard(before, channel), pendingResponses,
              old(nextRequestId), ids, nextRequestId);
            if reply.Err? && strict {
              return false;
            }
        }
      }
      ok := false;
    }
  }
}
