// _send_recv of ingest/snmp_engine.py over a network described by what follows each datagram sent.
module Transport {
  import opened Results
  import opened Bytes
  import opened Message

  type Delay = r: real | r >= 0.0 witness 0.0

  // What the next recvfrom meets: a datagram after some waiting, or an OSError.
  datatype Event = Arrive(wait: Delay, data: bytes) | Fault

  // What one attempt meets: sendto raises, or the datagrams that then come in.
  datatype Attempt = Unsent | Sent(events: seq<Event>)

  // The n-th datagram sent, when it is sent and its octets decide what follows.
  type Network = (nat, real, bytes) -> Attempt

  // recvfrom(MAX_MESSAGE_SIZE) cuts longer datagrams.
  function Received(data: bytes): bytes {
    Slice(data, 0, MAX_MESSAGE_SIZE)
  }

  predicate Answers(e: Event, expected: int) {
    e.Arrive? && PeekMsgId(Received(e.data)) == Ok(expected)
  }

  // ---------- One attempt ----------

  // How long the attempt lasts and what it yields.
  datatype Heard = Heard(elapsed: real, reply: Option<bytes>)

  function Listen(events: seq<Event>, remaining: real, expected: int): (h: Heard)
    ensures 0.0 <= h.elapsed && (remaining >= 0.0 ==> h.elapsed <= remaining)
    decreases |events|
  {
    if remaining <= 0.0 then Heard(0.0, None)
    else if events == [] then Heard(remaining, None)
    else if events[0].Fault? then Heard(0.0, None)
    else if events[0].wait > remaining then Heard(remaining, None)
    else if Answers(events[0], expected) then Heard(events[0].wait, Some(Received(events[0].data)))
    else
      var rest := Listen(events[1..], remaining - events[0].wait, expected);
      Heard(events[0].wait + rest.elapsed, rest.reply)
  }

  // When event k comes in, measured from the start of the attempt.
  function ArrivalTime(events: seq<Event>, k: nat): real
    requires k < |events|
  {
    (if events[0].Arrive? then events[0].wait else 0.0) + (if k == 0 then 0.0 else ArrivalTime(events[1..], k - 1))
  }

  // Event k is a datagram received before the deadline: everything before it is a
  // datagram, and each arrives with time left.
  predicate InTime(events: seq<Event>, k: nat, timeout: real)
    requires k < |events|
  {
    && timeout > 0.0
    && (forall j :: 0 <= j <= k ==> events[j].Arrive?)
    && ArrivalTime(events, k) <= timeout
    && (k > 0 ==> ArrivalTime(events, k - 1) < timeout)
  }

  // The first in-time datagram that carries the expected msgID.
  predicate FirstAnswer(events: seq<Event>, k: nat, timeout: real, expected: int) {
    && k < |events| && InTime(events, k, timeout)
    && Answers(events[k], expected)
    && forall j :: 0 <= j < k ==> !Answers(events[j], expected)
  }

  lemma {:induction false} ArrivalTimeGrows(events: seq<Event>, j: nat, k: nat)
    requires j <= k < |events|
    ensures 0.0 <= ArrivalTime(events, j) <= ArrivalTime(events, k)
    decreases k
  {
    if k > 0 {
      ArrivalTimeGrows(events[1..], if j > 0 then j - 1 else 0, k - 1);
    }
  }

  lemma InTimeShift(events: seq<Event>, k: nat, timeout: real)
    requires k + 1 < |events| && events[0].Arrive?
    ensures InTime(events, k + 1, timeout) <==>
      (events[0].wait < timeout && InTime(events[1..], k, timeout - events[0].wait))
  {
    var rest := events[1..];
    assert ArrivalTime(events, k + 1) == events[0].wait + ArrivalTime(rest, k);
    if k > 0 {
      assert ArrivalTime(events, k) == events[0].wait + ArrivalTime(rest, k - 1);
      ArrivalTimeGrows(rest, 0, k - 1);
    } else {
      assert ArrivalTime(events, 0) == events[0].wait;
    }
    if InTime(events, k + 1, timeout) {
      ArrivalTimeGrows(events, 0, k);
      forall j | 0 <= j <= k
        ensures rest[j].Arrive?
      {
        assert events[j + 1].Arrive?;
      }
    }
  }

  lemma FirstAnswerShift(events: seq<Event>, k: nat, timeout: real, expected: int)
    requires events != [] && events[0].Arrive? && !Answers(events[0], expected)
    ensures FirstAnswer(events, k + 1, timeout, expected) <==>
      (events[0].wait < timeout && FirstAnswer(events[1..], k, timeout - events[0].wait, expected))
  {
    hide Answers;
    hide InTime;
    var rest := events[1..];
    if k + 1 < |events| {
      InTimeShift(events, k, timeout);
      if forall j :: 0 <= j < k ==> !Answers(rest[j], expected) {
        forall j | 0 <= j < k + 1
          ensures !Answers(events[j], expected)
        {
          assert j == 0 || events[j] == rest[j - 1];
        }
      } else {
        var j :| 0 <= j < k && Answers(rest[j], expected);
        assert events[j + 1] == rest[j];
      }
    }
  }

  // An attempt yields a datagram exactly when it is the first in-time answer, and lasts until then.
  lemma {:induction false} ListenMeaning(events: seq<Event>, timeout: real, expected: int)
    ensures forall k: nat :: FirstAnswer(events, k, timeout, expected) ==>
      Listen(events, timeout, expected) == Heard(ArrivalTime(events, k), Some(Received(events[k].data)))
    ensures Listen(events, timeout, expected).reply.Some? ==> exists k: nat :: FirstAnswer(events, k, timeout, expected)
    decreases |events|
  {
    if timeout > 0.0 && events != [] && events[0].Arrive? && events[0].wait <= timeout {
      ListenStep(events, timeout, expected);
    } else {
      forall k: nat
        ensures !FirstAnswer(events, k, timeout, expected)
      {
        if FirstAnswer(events, k, timeout, expected) {
          ArrivalTimeGrows(events, 0, k);
        }
      }
    }
  }

  lemma {:induction false} ListenStep(events: seq<Event>, timeout: real, expected: int)
    requires timeout > 0.0 && events != [] && events[0].Arrive? && events[0].wait <= timeout
    ensures forall k: nat :: FirstAnswer(events, k, timeout, expected) ==>
      Listen(events, timeout, expected) == Heard(ArrivalTime(events, k), Some(Received(events[k].data)))
    ensures Listen(events, timeout, expected).reply.Some? ==> exists k: nat :: FirstAnswer(events, k, timeout, expected)
    decreases |events|, 0
  {
    hide Answers;
    var rest, left := events[1..], timeout - events[0].wait;
    if Answers(events[0], expected) {
      assert FirstAnswer(events, 0, timeout, expected);
      forall k: nat | FirstAnswer(events, k, timeout, expected)
        ensures k == 0
      {
      }
    } else {
      ListenMeaning(rest, left, expected);
      forall k: nat | FirstAnswer(events, k, timeout, expected)
        ensures Listen(events, timeout, expected) == Heard(ArrivalTime(events, k), Some(Received(events[k].data)))
      {
        assert k > 0;
        FirstAnswerShift(events, k - 1, timeout, expected);
        assert events[k] == rest[k - 1];
      }
      if Listen(rest, left, expected).reply.Some? {
        var k: nat :| FirstAnswer(rest, k, left, expected);
        assert InTime(rest, k, left);
        FirstAnswerShift(events, k, timeout, expected);
      }
    }
  }

  // ---------- All attempts ----------

  datatype Outcome = Outcome(sends: nat, now: real, reply: Option<bytes>)

  function Transact(net: Network, sends: nat, now: real, message: bytes, expected: int, timeout: Delay,
                    attempts: nat): Outcome
    decreases attempts
  {
    if attempts == 0 then Outcome(sends, now, None)
    else
      match net(sends, now, message)
      case Unsent => Transact(net, sends, now, message, expected, timeout, attempts - 1)
      case Sent(events) =>
        var heard := Listen(events, timeout, expected);
        if heard.reply.Some? then Outcome(sends + 1, now + heard.elapsed, heard.reply)
        else Transact(net, sends + 1, now + heard.elapsed, message, expected, timeout, attempts - 1)
  }

  lemma {:induction false} TransactWithin(net: Network, sends: nat, now: real, message: bytes, expected: int,
                                          timeout: Delay, attempts: nat)
    ensures var o := Transact(net, sends, now, message, expected, timeout, attempts);
      && sends <= o.sends <= sends + attempts
      && now <= o.now <= now + Budget(timeout, attempts)
    decreases attempts
  {
    hide Listen;
    if attempts > 0 {
      match net(sends, now, message)
      case Unsent =>
        TransactWithin(net, sends, now, message, expected, timeout, attempts - 1);
      case Sent(events) =>
        var heard := Listen(events, timeout, expected);
        if heard.reply.None? {
          TransactWithin(net, sends + 1, now + heard.elapsed, message, expected, timeout, attempts - 1);
        }
    }
  }

  // At most one datagram per attempt, and at most `timeout` of waiting for each.
  lemma TransactBounds(net: Network, sends: nat, now: real, message: bytes, expected: int, timeout: Delay,
                       attempts: nat)
    ensures var o := Transact(net, sends, now, message, expected, timeout, attempts);
      && sends <= o.sends <= sends + attempts
      && now <= o.now <= now + timeout * attempts as real
  {
    hide Transact;
    TransactWithin(net, sends, now, message, expected, timeout, attempts);
    BudgetIsProduct(timeout, attempts);
    hide Budget;
  }

  // Attempt a, reached after the earlier ones found nothing: its number and start time.
  function Reach(net: Network, sends: nat, now: real, message: bytes, expected: int, timeout: Delay, a: nat): (nat,
                 real)
    decreases a
  {
    if a == 0 then (sends, now)
    else
      match net(sends, now, message)
      case Unsent => Reach(net, sends, now, message, expected, timeout, a - 1)
      case Sent(events) => Reach(net, sends + 1, now + Listen(events, timeout, expected).elapsed,
                                   message, expected, timeout, a - 1)
  }

  // What attempt a would yield.
  function AttemptReply(net: Network, sends: nat, now: real, message: bytes, expected: int, timeout: Delay,
                        a: nat): Option<bytes> {
    var at := Reach(net, sends, now, message, expected, timeout, a);
    match net(at.0, at.1, message)
    case Unsent => None
    case Sent(events) => Listen(events, timeout, expected).reply
  }

  // Attempt a yields the reply and no attempt before it yields any.
  predicate FirstReply(net: Network, sends: nat, now: real, message: bytes, expected: int, timeout: Delay, a: nat,
                       reply: Option<bytes>) {
    && AttemptReply(net, sends, now, message, expected, timeout, a) == reply
    && forall b: nat :: b < a ==> AttemptReply(net, sends, now, message, expected, timeout, b) == None
  }

  // The reply is that of the first attempt with an in-time answer; without one, there is none.
  lemma {:induction false} TransactMeaning(net: Network, sends: nat, now: real, message: bytes, expected: int,
                                           timeout: Delay, attempts: nat)
    ensures var reply := Transact(net, sends, now, message, expected, timeout, attempts).reply;
      if reply.None? then
        forall a: nat :: a < attempts ==> AttemptReply(net, sends, now, message, expected, timeout, a) == None
      else exists a: nat :: a < attempts && FirstReply(net, sends, now, message, expected, timeout, a, reply)
    decreases attempts
  {
    hide Listen;
    if attempts > 0 {
      var first := AttemptReply(net, sends, now, message, expected, timeout, 0);
      if first.None? {
        var next := Reach(net, sends, now, message, expected, timeout, 1);
        TransactMeaning(net, next.0, next.1, message, expected, timeout, attempts - 1);
        forall a: nat
          ensures AttemptReply(net, sends, now, message, expected, timeout, a + 1)
               == AttemptReply(net, next.0, next.1, message, expected, timeout, a)
        {
        }
        var reply := Transact(net, sends, now, message, expected, timeout, attempts).reply;
        assert reply == Transact(net, next.0, next.1, message, expected, timeout, attempts - 1).reply;
        if reply.None? {
          forall a: nat | a < attempts
            ensures AttemptReply(net, sends, now, message, expected, timeout, a) == None
          {
            if a > 0 {
              assert AttemptReply(net, next.0, next.1, message, expected, timeout, a - 1) == None;
            }
          }
        } else {
          var a: nat :| a < attempts - 1 && FirstReply(net, next.0, next.1, message, expected, timeout, a, reply);
          forall b: nat | b < a + 1
            ensures AttemptReply(net, sends, now, message, expected, timeout, b) == None
          {
            if b > 0 {
              assert AttemptReply(net, next.0, next.1, message, expected, timeout, b - 1) == None;
            }
          }
          assert FirstReply(net, sends, now, message, expected, timeout, a + 1, reply);
        }
      } else {
        assert FirstReply(net, sends, now, message, expected, timeout, 0, first);
      }
    }
  }

  // No attempt before attempt a yields a reply.
  predicate NoneBefore(net: Network, sends: nat, now: real, message: bytes, expected: int, timeout: Delay, a: nat) {
    forall b: nat :: b < a ==> AttemptReply(net, sends, now, message, expected, timeout, b) == None
  }

  // The longest that many waits can take.
  function Budget(timeout: Delay, rounds: nat): Delay {
    if rounds == 0 then 0.0 else timeout + Budget(timeout, rounds - 1)
  }

  lemma NextReach(net: Network, sends: nat, now: real, message: bytes, expected: int, timeout: Delay, a: nat)
    requires NoneBefore(net, sends, now, message, expected, timeout, a + 1)
    ensures var next := Reach(net, sends, now, message, expected, timeout, 1);
      && NoneBefore(net, next.0, next.1, message, expected, timeout, a)
      && Reach(net, next.0, next.1, message, expected, timeout, a)
         == Reach(net, sends, now, message, expected, timeout, a + 1)
      && (forall attempts: nat :: attempts > 0 ==>
            Transact(net, sends, now, message, expected, timeout, attempts)
            == Transact(net, next.0, next.1, message, expected, timeout, attempts - 1))
      && now <= next.1 <= now + timeout && sends <= next.0 <= sends + 1
  {
    hide Listen;
    var next := Reach(net, sends, now, message, expected, timeout, 1);
    assert AttemptReply(net, sends, now, message, expected, timeout, 0) == None;
    forall b: nat | b < a
      ensures AttemptReply(net, next.0, next.1, message, expected, timeout, b) == None
    {
      assert AttemptReply(net, sends, now, message, expected, timeout, b + 1) == None;
    }
  }

  // Once a attempts have found nothing, the rest is what attempts from there find.
  lemma {:induction false} TransactFrom(net: Network, sends: nat, now: real, message: bytes, expected: int,
                                        timeout: Delay, attempts: nat, a: nat)
    requires a <= attempts && NoneBefore(net, sends, now, message, expected, timeout, a)
    ensures var at := Reach(net, sends, now, message, expected, timeout, a);
      && Transact(net, sends, now, message, expected, timeout, attempts)
         == Transact(net, at.0, at.1, message, expected, timeout, attempts - a)
      && now <= at.1 <= now + Budget(timeout, a) && sends <= at.0 <= sends + a
    decreases a
  {
    if a > 0 {
      NextReach(net, sends, now, message, expected, timeout, a - 1);
      hide NoneBefore;
      hide Transact;
      var next := Reach(net, sends, now, message, expected, timeout, 1);
      TransactFrom(net, next.0, next.1, message, expected, timeout, attempts - 1, a - 1);
    }
  }

  lemma {:induction false} BudgetGrows(timeout: Delay, a: nat, b: nat)
    requires a <= b
    ensures Budget(timeout, a) <= Budget(timeout, b)
  {
    if a < b {
      BudgetGrows(timeout, a, b - 1);
    }
  }

  lemma {:induction false} BudgetIsProduct(timeout: Delay, rounds: nat)
    ensures Budget(timeout, rounds) == timeout * rounds as real
  {
    if rounds > 0 {
      BudgetIsProduct(timeout, rounds - 1);
      assert timeout * rounds as real == timeout + timeout * (rounds - 1) as real;
    }
  }

  // ---------- The loop of the source ----------

  // The socket, time.monotonic() and os.urandom() as the engine meets them.
  class Host {
    const net: Network
    const salts: nat -> Salt
    var now: real
    var sends: nat
    var draws: nat

    constructor (net: Network, salts: nat -> Salt)
      ensures this.net == net && this.salts == salts && sends == 0 && draws == 0
    {
      this.net := net;
      this.salts := salts;
      now := 0.0;
      sends := 0;
      draws := 0;
    }

    // os.urandom(8)
    method Urandom() returns (salt: Salt)
      modifies this`draws
      ensures draws == old(draws) + 1 && salt == salts(old(draws))
    {
      salt := salts(draws);
      draws := draws + 1;
    }

    method SendRecv(message: bytes, expected: int, timeout: Delay, retries: int) returns (r: Result<bytes>)
      modifies this`now, this`sends
      ensures var o := Transact(net, old(sends), old(now), message, expected, timeout,
                         if retries + 1 < 0 then 0 else retries + 1);
        && sends == o.sends && now == o.now
        && r == if o.reply.Some? then Ok(o.reply.value) else Err(SnmpError)
    {
      hide Listen;
      var left: nat := if retries + 1 < 0 then 0 else retries + 1;
      ghost var total := left;
      while left > 0
        invariant Transact(net, old(sends), old(now), message, expected, timeout, total)
               == Transact(net, sends, now, message, expected, timeout, left)
      {
        left := left - 1;
        var attempt := net(sends, now, message);
        if attempt.Unsent? {
          continue;
        }
        sends := sends + 1;
        var reply := Await(attempt.events, expected, timeout);
        if reply.Some? {
          return Ok(reply.value);
        }
      }
      return Err(SnmpError);
    }

    // The receive loop of one attempt: the socket timeout shrinks to what is left.
    method Await(events: seq<Event>, expected: int, timeout: Delay) returns (reply: Option<bytes>)
      modifies this`now
      ensures Heard(now - old(now), reply) == Listen(events, timeout, expected)
    {
      hide PeekMsgId;
      var deadline := now + timeout;
      var i := 0;
      while true
        invariant 0 <= i <= |events|
        invariant old(now) <= now
        invariant var rest := Listen(events[i..], deadline - now, expected);
          Listen(events, timeout, expected) == Heard(now - old(now) + rest.elapsed, rest.reply)
        decreases |events| - i
      {
        var remaining := deadline - now;
        if remaining <= 0.0 {
          return None;
        }
        if i == |events| {
          now := now + remaining;
          return None;
        }
        var event := events[i];
        assert events[i..][0] == event && events[i..][1..] == events[i + 1..];
        match event
        case Fault =>
          return None;
        case Arrive(wait, data) =>
          if wait > remaining {
            now := now + remaining;
            return None;
          }
          now := now + wait;
          var received := Received(data);
          if PeekMsgId(received) == Ok(expected) {
            return Some(received);
          }
          i := i + 1;
      }
    }
  }
}
