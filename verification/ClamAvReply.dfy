/** The reply of the malware scanner, gathered from data events. */
module ClamAvReply {
  import opened Common
  import opened ClamAv

  /** How a scan's reply ends: too large, cut at its zero byte, or complete when the peer closes; or an error. */
  datatype Outcome = TooLarge | Terminated(text: Bytes) | Ended(text: Bytes) | Broken

  datatype Event = Data(chunk: Bytes) | End | Failure

  datatype Reader = Reader(response: Bytes, settled: Option<Outcome>)

  function IndexOfZero(s: Bytes): (i: nat)
    ensures i <= |s|
    ensures i < |s| ==> s[i] == 0
    ensures forall k :: 0 <= k < i ==> s[k] != 0
  {
    if s == [] || s[0] == 0 then 0 else 1 + IndexOfZero(s[1..])
  }

  function Finish(r: Reader, o: Outcome): Reader {
    if r.settled.Some? then r else r.(settled := Some(o))
  }

  function OnData(r: Reader, chunk: Bytes): Reader {
    var next := r.(response := r.response + chunk);
    var i := IndexOfZero(next.response);
    if |next.response| > MAX_RESPONSE then Finish(next, TooLarge)
    else if i < |next.response| then Finish(next, Terminated(next.response[..i]))
    else next
  }

  function On(r: Reader, e: Event): Reader {
    match e
    case Data(chunk) => OnData(r, chunk)
    case End => Finish(r, Ended(r.response))
    case Failure => Finish(r, Broken)
  }

  function ReadAll(r: Reader, events: seq<Event>): Reader
    decreases |events|
  {
    if events == [] then r else ReadAll(On(r, events[0]), events[1..])
  }

  /** Data events that carry `chunks`, then the end of the stream. */
  function Arrival(chunks: seq<Bytes>): seq<Event>
    decreases |chunks|
  {
    if chunks == [] then [End] else [Data(chunks[0])] + Arrival(chunks[1..])
  }

  function Receive(chunks: seq<Bytes>): Option<Outcome> {
    ReadAll(Reader([], None), Arrival(chunks)).settled
  }

  // ---------------------------------------------------------------- settled once

  lemma {:induction false} SettledStays(r: Reader, events: seq<Event>)
    requires r.settled.Some?
    ensures ReadAll(r, events).settled == r.settled
    decreases |events|
  {
    if events != [] { SettledStays(On(r, events[0]), events[1..]); }
  }

  lemma ReadOne(r: Reader, chunks: seq<Bytes>)
    requires chunks != []
    ensures ReadAll(r, Arrival(chunks)) == ReadAll(OnData(r, chunks[0]), Arrival(chunks[1..]))
  {
  }

  // ---------------------------------------------------------------- splitting

  /** What a reply of at most 16 KiB amounts to. */
  function Meaning(reply: Bytes): Outcome {
    var i := IndexOfZero(reply);
    if i < |reply| then Terminated(reply[..i]) else Ended(reply)
  }

  lemma ZeroInPrefix(a: Bytes, b: Bytes)
    ensures IndexOfZero(a) < |a| ==> IndexOfZero(a + b) == IndexOfZero(a)
  {
    if IndexOfZero(a) < |a| {
      var i, j := IndexOfZero(a), IndexOfZero(a + b);
      assert (a + b)[i] == 0;
      assert j <= i;
      assert (a + b)[j] == a[j];
    }
  }

  lemma {:induction false} SmallReply(sofar: Bytes, chunks: seq<Bytes>)
    requires |sofar + Concat(chunks)| <= MAX_RESPONSE && IndexOfZero(sofar) == |sofar|
    ensures ReadAll(Reader(sofar, None), Arrival(chunks)).settled == Some(Meaning(sofar + Concat(chunks)))
    decreases |chunks|
  {
    var r := Reader(sofar, None);
    if chunks == [] {
      assert sofar + Concat(chunks) == sofar;
      assert Arrival(chunks)[1..] == [];
      assert ReadAll(r, Arrival(chunks)) == On(r, End);
    } else {
      var next := sofar + chunks[0];
      assert sofar + Concat(chunks) == next + Concat(chunks[1..]);
      ReadOne(r, chunks);
      if IndexOfZero(next) < |next| {
        SettledStays(OnData(r, chunks[0]), Arrival(chunks[1..]));
        ZeroInPrefix(next, Concat(chunks[1..]));
        assert (next + Concat(chunks[1..]))[..IndexOfZero(next)] == next[..IndexOfZero(next)];
      } else {
        SmallReply(next, chunks[1..]);
      }
    }
  }

  /** A reply of at most 16 KiB means the same however it is split. */
  lemma SmallReplyAnySplit(chunks: seq<Bytes>)
    requires |Concat(chunks)| <= 16384
    ensures Receive(chunks) == Some(Meaning(Concat(chunks)))
  {
    SmallReply([], chunks);
    assert [] + Concat(chunks) == Concat(chunks);
  }

  lemma {:induction false} LargeReply(sofar: Bytes, chunks: seq<Bytes>)
    requires |sofar| <= MAX_RESPONSE < |sofar + Concat(chunks)|
    requires MAX_RESPONSE <= IndexOfZero(sofar + Concat(chunks))
    ensures ReadAll(Reader(sofar, None), Arrival(chunks)).settled == Some(TooLarge)
    decreases |chunks|
  {
    var r := Reader(sofar, None);
    var next := sofar + chunks[0];
    assert sofar + Concat(chunks) == next + Concat(chunks[1..]);
    ReadOne(r, chunks);
    if |next| > MAX_RESPONSE {
      SettledStays(OnData(r, chunks[0]), Arrival(chunks[1..]));
    } else {
      ZeroInPrefix(next, Concat(chunks[1..]));
      LargeReply(next, chunks[1..]);
    }
  }

  ghost predicate SplitIndependent(reply: Bytes) {
    forall a, b :: Concat(a) == reply && Concat(b) == reply ==> Receive(a) == Receive(b)
  }

  /** A first chunk that settles the reply decides the outcome. */
  lemma FirstChunkDecides(chunks: seq<Bytes>, o: Outcome)
    requires chunks != [] && OnData(Reader([], None), chunks[0]).settled == Some(o)
    ensures Receive(chunks) == Some(o)
  {
    ReadOne(Reader([], None), chunks);
    SettledStays(OnData(Reader([], None), chunks[0]), Arrival(chunks[1..]));
  }

  lemma ConcatTwo(a: Bytes, b: Bytes)
    ensures Concat([a]) == a && Concat([a, b]) == a + b
  {
    ConcatSnoc([], a);
    ConcatSnoc([a], b);
    assert [] + [a] == [a] && [a] + [b] == [a, b];
  }

  /** A larger reply with an early zero byte is read or refused depending on where it is split. */
  lemma SplitMatters(reply: Bytes)
    requires |reply| > MAX_RESPONSE && IndexOfZero(reply) < MAX_RESPONSE
    ensures var i := IndexOfZero(reply);
            && Concat([reply]) == reply && Concat([reply[..i + 1], reply[i + 1..]]) == reply
            && Receive([reply]) == Some(TooLarge) && Receive([reply[..i + 1], reply[i + 1..]]) == Some(Terminated(reply[..i]))
  {
    var i := IndexOfZero(reply);
    var head, tail := reply[..i + 1], reply[i + 1..];
    ConcatTwo(reply, []);
    ConcatTwo(head, tail);
    assert reply == head + tail;
    WholeIsTooLarge(reply);
    FirstChunkDecides([reply], TooLarge);
    HeadIsTerminated(reply, i);
    FirstChunkDecides([head, tail], Terminated(reply[..i]));
  }

  lemma WholeIsTooLarge(reply: Bytes)
    requires |reply| > MAX_RESPONSE
    ensures OnData(Reader([], None), reply).settled == Some(TooLarge)
  {
  }

  lemma HeadIsTerminated(reply: Bytes, i: nat)
    requires i < |reply| && i < MAX_RESPONSE && reply[i] == 0 && forall k :: 0 <= k < i ==> reply[k] != 0
    ensures OnData(Reader([], None), reply[..i + 1]).settled == Some(Terminated(reply[..i]))
  {
    var head := reply[..i + 1];
    assert [] + head == head && head[i] == 0;
    assert IndexOfZero(head) == i;
    assert head[..i] == reply[..i];
  }

  /** The outcome is independent of the split exactly for replies within the limit or without a zero byte in it. */
  lemma SplitIndependentExactlyWhen(reply: Bytes)
    ensures SplitIndependent(reply) <==> |reply| <= 16384 || 16384 <= IndexOfZero(reply)
  {
    if |reply| > MAX_RESPONSE && IndexOfZero(reply) < MAX_RESPONSE {
      SplitMatters(reply);
    } else {
      forall a | Concat(a) == reply
        ensures Receive(a) == if |reply| <= MAX_RESPONSE then Some(Meaning(reply)) else Some(TooLarge)
      {
        if |reply| <= MAX_RESPONSE {
          SmallReplyAnySplit(a);
        } else {
          assert [] + Concat(a) == reply;
          LargeReply([], a);
        }
      }
    }
  }

  // ---------------------------------------------------------------- the listener

  /** The handlers of `scanStream`, with the buffer and the settled flag changed in place. */
  class Listener {
    var response: Bytes
    var settled: Option<Outcome>

    ghost function State(): Reader
      reads this
    {
      Reader(response, settled)
    }

    constructor ()
      ensures State() == Reader([], None)
    {
      response, settled := [], None;
    }

    method Finish(o: Outcome)
      modifies this`settled
      ensures settled == if old(settled).Some? then old(settled) else Some(o)
    {
      if settled.Some? { return; }
      settled := Some(o);
    }

    method HandleData(chunk: Bytes)
      modifies this
      ensures State() == OnData(old(State()), chunk)
    {
      response := response + chunk;
      if |response| > MAX_RESPONSE {
        Finish(TooLarge);
        return;
      }
      var terminator := 0;
      while terminator < |response| && response[terminator] != 0
        invariant 0 <= terminator <= |response|
        invariant forall k :: 0 <= k < terminator ==> response[k] != 0
        invariant response == old(response) + chunk && settled == old(settled)
      {
        terminator := terminator + 1;
      }
      assert terminator == IndexOfZero(response);
      if terminator < |response| { Finish(Terminated(response[..terminator])); }
    }

    method Listen(events: seq<Event>)
      modifies this
      ensures State() == ReadAll(old(State()), events)
    {
      var i := 0;
      while i < |events|
        invariant 0 <= i <= |events|
        invariant ReadAll(State(), events[i..]) == ReadAll(old(State()), events)
      {
        match events[i] {
          case Data(chunk) => HandleData(chunk);
          case End => Finish(Ended(response));
          case Failure => Finish(Broken);
        }
        i := i + 1;
      }
    }
  }
}
