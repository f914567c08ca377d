/**
 * Finding the server: broadcast a probe up to eight times and take the
 * source of the first reply whose trimmed text is exactly the acknowledgement.
 * The socket is abstracted as what each attempt's receive produced.
 */
module Discovery {
  import opened Wrappers
  import opened Text

  /** A host address (`InetAddress`). */
  datatype Address = Address(host: string)

  /**
   * What one attempt's `receive` produced: a timeout, a datagram, or a
   * socket error other than a timeout (which Java lets escape the loop).
   */
  datatype Reply = Timeout | Packet(source: Address, payload: string) | SocketError

  const Attempts: nat := 8
  const Probe := "BUSCAR_SERVIDOR"
  const Ack := "SERVIDOR_AQUI"

  /** The reply to attempt `i`; attempts past the given replies time out. */
  function ReplyAt(replies: seq<Reply>, i: nat): Reply
  {
    if i < |replies| then replies[i] else Timeout
  }

  /** A reply that identifies the server. */
  predicate Accepts(r: Reply)
  {
    r.Packet? && Trim(r.payload) == Ack
  }

  /** Attempt `i` was answered by a timeout or by a datagram that is not the acknowledgement. */
  predicate Retries(replies: seq<Reply>, i: nat)
  {
    var r := ReplyAt(replies, i);
    r.Timeout? || (r.Packet? && !Accepts(r))
  }

  /** The server found (if any) and how many probes were sent. */
  datatype Outcome = Outcome(server: Option<Address>, probes: nat)

  /** `descubrirServidor` from attempt `i` on. */
  function DiscoverFrom(replies: seq<Reply>, i: nat): (r: Outcome)
    requires i <= Attempts
    decreases Attempts - i
    ensures r.probes <= Attempts - i
  {
    if i == Attempts then Outcome(None, 0)
    else
      var reply := ReplyAt(replies, i);
      if reply.SocketError? then Outcome(None, 1)
      else if Accepts(reply) then Outcome(Some(reply.source), 1)
      else
        var rest := DiscoverFrom(replies, i + 1);
        Outcome(rest.server, rest.probes + 1)
  }

  /** Attempt `k` is the first one from `i` on that gets the acknowledgement, after only retries. */
  predicate FirstAck(replies: seq<Reply>, i: nat, k: nat)
  {
    && i <= k < Attempts && Accepts(ReplyAt(replies, k))
    && forall j :: i <= j < k ==> Retries(replies, j)
  }

  /** A server found means some attempt got the acknowledgement after only retries. */
  lemma {:induction false} FoundHasFirstAck(replies: seq<Reply>, i: nat) returns (k: nat)
    requires i <= Attempts
    requires DiscoverFrom(replies, i).server.Some?
    ensures FirstAck(replies, i, k)
    decreases Attempts - i
  {
    if Accepts(ReplyAt(replies, i)) {
      k := i;
    } else {
      assert Retries(replies, i);
      k := FoundHasFirstAck(replies, i + 1);
    }
  }

  /**
   * A server found was the source of an accepted reply that came after only
   * retries, and the probes stopped at that reply.
   */
  lemma DiscoverFoundFirstAck(replies: seq<Reply>, i: nat)
    requires i <= Attempts
    requires DiscoverFrom(replies, i).server.Some?
    ensures exists k: nat ::
              && FirstAck(replies, i, k)
              && DiscoverFrom(replies, i) == Outcome(Some(ReplyAt(replies, k).source), k - i + 1)
  {
    var k := FoundHasFirstAck(replies, i);
    DiscoverTakesFirstAck(replies, i, k);
  }

  /** Conversely, an accepted reply after only retries is the server discovery returns. */
  lemma {:induction false} DiscoverTakesFirstAck(replies: seq<Reply>, i: nat, k: nat)
    requires FirstAck(replies, i, k)
    ensures DiscoverFrom(replies, i) == Outcome(Some(ReplyAt(replies, k).source), k - i + 1)
    decreases k - i
  {
    var reply := ReplyAt(replies, i);
    if i < k {
      assert Retries(replies, i);
      assert !reply.SocketError? && !Accepts(reply);
      DiscoverTakesFirstAck(replies, i + 1, k);
      var rest := DiscoverFrom(replies, i + 1);
      assert DiscoverFrom(replies, i) == Outcome(rest.server, rest.probes + 1);
    } else {
      assert Accepts(reply);
    }
  }

  /** When every attempt times out or gets a wrong answer, all eight probes go out and nothing is found. */
  lemma {:induction false} DiscoverGivesUp(replies: seq<Reply>, i: nat)
    requires i <= Attempts
    requires forall j :: i <= j < Attempts ==> Retries(replies, j)
    ensures DiscoverFrom(replies, i) == Outcome(None, Attempts - i)
    decreases Attempts - i
  {
    if i < Attempts {
      assert Retries(replies, i);
      DiscoverGivesUp(replies, i + 1);
    }
  }

  /**
   * The loop of `descubrirServidor`: send the probe, wait for one reply,
   * return its source if it is the acknowledgement; a socket error ends the
   * search with no server.
   */
  method Discover(replies: seq<Reply>) returns (server: Option<Address>, probes: nat)
    ensures Outcome(server, probes) == DiscoverFrom(replies, 0)
    ensures probes <= Attempts
  {
    probes := 0;
    var i: nat := 0;
    while i < Attempts
      invariant i <= Attempts && probes == i
      invariant DiscoverFrom(replies, 0) ==
        Outcome(DiscoverFrom(replies, i).server, i + DiscoverFrom(replies, i).probes)
    {
      probes := probes + 1;
      var reply := ReplyAt(replies, i);
      if reply.SocketError? {
        return None, probes;
      }
      if reply.Packet? && Trim(reply.payload) == Ack {
        return Some(reply.source), probes;
      }
      i := i + 1;
    }
    return None, probes;
  }
}
