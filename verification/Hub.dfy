/** The live fan-out: what each subscriber sees of the broadcasts, over any run of the Hub (hub.go). */
module HubSpec {
  import opened Prelude
  import opened Channels

  /** One subscription: its channel, what has been received from it, how many broadcasts preceded it. */
  datatype Sub = Sub(chan: Chan, taken: seq<Event>, joined: nat) {

    function Offer(e: Event): Sub {
      this.(chan := chan.Offer(e))
    }

    function Close(): Sub {
      this.(chan := chan.Close())
    }

    function Receive(): Sub {
      if chan.buf == [] then this else this.(chan := chan.Rest(), taken := taken + [chan.buf[0]])
    }
  }

  /** Every subscription ever made, by id, and every event ever broadcast. */
  datatype HubState = HubState(subs: seq<Sub>, sent: seq<Event>)

  const EMPTY := HubState([], [])

  datatype Op = Subscribe(cap: nat) | Broadcast(e: Event) | Unsubscribe(id: nat) | Receive(id: nat)

  function Step(h: HubState, op: Op): HubState {
    match op
    case Subscribe(cap) => h.(subs := h.subs + [Sub(Chan(cap, [], false), [], |h.sent|)])
    case Broadcast(e) =>
      HubState(seq(|h.subs|, i requires 0 <= i < |h.subs| => h.subs[i].Offer(e)), h.sent + [e])
    case Unsubscribe(id) => if id < |h.subs| then h.(subs := h.subs[id := h.subs[id].Close()]) else h
    case Receive(id) => if id < |h.subs| then h.(subs := h.subs[id := h.subs[id].Receive()]) else h
  }

  function Run(ops: seq<Op>): HubState {
    if ops == [] then EMPTY else Step(Run(ops[..|ops| - 1]), ops[|ops| - 1])
  }

  /** What a subscriber received and still has buffered is a first part of the broadcasts since it joined. */
  ghost predicate Faithful(sub: Sub, sent: seq<Event>) {
    && sub.joined <= |sent|
    && sub.taken + sub.chan.buf <= sent[sub.joined..]
    && (!sub.chan.closed ==> sub.taken + sub.chan.buf == sent[sub.joined..])
    && |sub.chan.buf| <= sub.chan.cap
  }

  lemma OfferKeepsFaithful(sub: Sub, sent: seq<Event>, e: Event)
    requires Faithful(sub, sent)
    ensures Faithful(sub.Offer(e), sent + [e])
  {
    assert (sent + [e])[sub.joined..] == sent[sub.joined..] + [e];
    if !sub.chan.closed && |sub.chan.buf| < sub.chan.cap {
      assert sub.taken + (sub.chan.buf + [e]) == (sub.taken + sub.chan.buf) + [e];
    }
  }

  lemma ReceiveKeepsFaithful(sub: Sub, sent: seq<Event>)
    requires Faithful(sub, sent)
    ensures Faithful(sub.Receive(), sent)
  {
    assert sub.Receive().taken + sub.Receive().chan.buf == sub.taken + sub.chan.buf;
  }

  /**
   Over every run: an open subscriber has received or still has buffered exactly the broadcasts since
   it subscribed; a closed one, a first part of them.
   */
  lemma {:induction false} StreamInvariant(ops: seq<Op>)
    ensures forall i :: 0 <= i < |Run(ops).subs| ==> Faithful(Run(ops).subs[i], Run(ops).sent)
  {
    if ops != [] {
      var before, op := Run(ops[..|ops| - 1]), ops[|ops| - 1];
      StreamInvariant(ops[..|ops| - 1]);
      var after := Step(before, op);
      forall i | 0 <= i < |after.subs| ensures Faithful(after.subs[i], after.sent) {
        match op {
          case Broadcast(e) => OfferKeepsFaithful(before.subs[i], before.sent, e);
          case Receive(id) =>
            if i == id {
              ReceiveKeepsFaithful(before.subs[i], before.sent);
            }
          case _ =>
        }
      }
    }
  }

  /** At some point of the run it was cancelled, or a broadcast found its buffer full. */
  ghost predicate ShutOut(ops: seq<Op>, id: nat) {
    ops != [] &&
    var before, op := Run(ops[..|ops| - 1]), ops[|ops| - 1];
    || ShutOut(ops[..|ops| - 1], id)
    || (id < |before.subs| && op == Unsubscribe(id))
    || (id < |before.subs| && op.Broadcast? && |before.subs[id].chan.buf| >= before.subs[id].chan.cap)
  }

  /** A subscriber loses its place for these reasons only. */
  lemma {:induction false} ClosedExactly(ops: seq<Op>, id: nat)
    ensures id < |Run(ops).subs| && Run(ops).subs[id].chan.closed <==> ShutOut(ops, id)
  {
    if ops != [] {
      ClosedExactly(ops[..|ops| - 1], id);
    }
  }

  /** The run as subscriber `id` alone would cause it: others never receive, cancel or choose a size. */
  function Alone(ops: seq<Op>, id: nat): seq<Op> {
    if ops == [] then []
    else
      var n := |ops| - 1;
      var before := Alone(ops[..n], id);
      match ops[n]
      case Subscribe(cap) => before + [if |Run(ops[..n]).subs| == id then ops[n] else Subscribe(0)]
      case Broadcast(_) => before + [ops[n]]
      case Unsubscribe(j) => if j == id then before + [ops[n]] else before
      case Receive(j) => if j == id then before + [ops[n]] else before
  }

  /** One subscriber's fate never changes what another sees. */
  lemma {:induction false} Independence(ops: seq<Op>, id: nat)
    ensures |Run(ops).subs| == |Run(Alone(ops, id)).subs| && Run(ops).sent == Run(Alone(ops, id)).sent
    ensures id < |Run(ops).subs| ==> Run(ops).subs[id] == Run(Alone(ops, id)).subs[id]
  {
    if ops != [] {
      var n := |ops| - 1;
      Independence(ops[..n], id);
      var before, after := Alone(ops[..n], id), Alone(ops, id);
      if after != before {
        assert after[..|after| - 1] == before;
      }
    }
  }

  /** A slow subscriber loses its place and nothing else: once closed it sees no later broadcast. */
  lemma {:induction false} ClosedStaysClosed(ops: seq<Op>, more: seq<Op>, id: nat)
    requires id < |Run(ops).subs| && Run(ops).subs[id].chan.closed
    ensures id < |Run(ops + more).subs|
    ensures var a, b := Run(ops).subs[id], Run(ops + more).subs[id];
            b.chan.closed && b.taken + b.chan.buf == a.taken + a.chan.buf && b.joined == a.joined
    decreases |more|
  {
    if more == [] {
      assert ops + more == ops;
    } else {
      var n := |more| - 1;
      ClosedStaysClosed(ops, more[..n], id);
      assert (ops + more)[..|ops + more| - 1] == ops + more[..n];
      var b := Run(ops + more[..n]).subs[id];
      assert b.Receive().taken + b.Receive().chan.buf == b.taken + b.chan.buf;
    }
  }
}

/** The Hub itself: a map of registered subscriptions whose channels are filled and closed in place. */
module HubObjects {
  import opened Prelude
  import opened Channels
  import opened HubSpec

  class Channel {
    const cap: nat
    var buf: seq<Event>
    var closed: bool
    ghost const joined: nat
    ghost var taken: seq<Event>

    constructor (cap: nat, ghost joined: nat)
      ensures View() == Sub(Chan(cap, [], false), [], joined)
    {
      this.cap, buf, closed := cap, [], false;
      this.joined, taken := joined, [];
    }

    ghost function View(): Sub
      reads this
    {
      Sub(Chan(cap, buf, closed), taken, joined)
    }

    /** A send that never blocks. Sending on a closed channel panics. */
    method TrySend(e: Event) returns (ok: bool)
      requires !closed
      modifies this
      ensures ok == (|old(buf)| < cap)
      ensures View() == if ok then old(View()).Offer(e) else old(View())
    {
      ok := |buf| < cap;
      if ok {
        buf := buf + [e];
      }
    }

    /** Closing twice panics. */
    method Close()
      requires !closed
      modifies this
      ensures View() == old(View()).Close()
    {
      closed := true;
    }

    /** A buffered event comes out even after the channel is closed. */
    method Receive() returns (e: Option<Event>)
      modifies this
      ensures View() == old(View()).Receive()
      ensures e == if old(buf) == [] then None else Some(old(buf)[0])
    {
      if buf == [] {
        e := None;
      } else {
        e := Some(buf[0]);
        taken := taken + [buf[0]];
        buf := buf[1..];
      }
    }
  }

  class Hub {
    var subs: map<nat, Channel>
    var next: nat
    ghost var all: seq<Channel>
    ghost var sent: seq<Event>

    /** A subscription is registered exactly while its channel is open. */
    ghost predicate Valid()
      reads this, all
    {
      && |all| == next
      && (forall i, j :: 0 <= i < j < |all| ==> all[i] != all[j])
      && (forall id :: id in subs ==> id < next && subs[id] == all[id])
      && (forall id :: 0 <= id < next ==> (id in subs <==> !all[id].closed))
    }

    ghost function Abs(): HubState
      reads this, all
    {
      HubState(seq(|all|, i requires 0 <= i < |all| reads this, all => all[i].View()), sent)
    }

    constructor ()
      ensures Valid() && Abs() == EMPTY && all == []
    {
      subs, next := map[], 0;
      all, sent := [], [];
    }

    method Subscribe(bufSize: nat) returns (ch: Channel, id: nat)
      requires Valid()
      modifies this
      ensures Valid() && fresh(ch) && all == old(all) + [ch] && id == old(next)
      ensures ch.cap == bufSize && ch.buf == [] && !ch.closed
      ensures Abs() == Step(old(Abs()), HubSpec.Subscribe(bufSize))
    {
      id := next;
      next := next + 1;
      ch := new Channel(bufSize, |sent|);
      subs := subs[id := ch];
      all := all + [ch];
    }

    /** The closure Subscribe returns: closes the channel unless a drop already has. */
    method Cancel(id: nat)
      requires Valid() && id < next
      modifies this, all[id]
      ensures Valid() && all == old(all)
      ensures Abs() == Step(old(Abs()), Unsubscribe(id))
    {
      if id in subs {
        subs[id].Close();
        subs := subs - {id};
      }
      assert all[id].View() == old(all[id].View()).Close();
    }

    /** One turn of the broadcast loop: deliver, or drop the subscriber whose buffer is full. */
    method Deliver(id: nat, e: Event)
      requires Valid() && id in subs
      modifies this`subs, all[id]
      ensures Valid() && subs.Keys == old(subs.Keys) - (if all[id].closed then {id} else {})
      ensures forall j :: 0 <= j < next ==>
                all[j].View() == if j == id then old(all[j].View()).Offer(e) else old(all[j].View())
    {
      var sub := subs[id];
      var delivered := sub.TrySend(e);
      if !delivered {
        sub.Close();
        subs := subs - {id};
      }
    }

    method DeliverAll(e: Event)
      requires Valid()
      modifies this`subs, all
      ensures Valid()
      ensures forall id :: 0 <= id < next ==> all[id].View() == old(all[id].View()).Offer(e)
    {
      assert forall id :: 0 <= id < next && id !in subs ==> all[id].View().Offer(e) == all[id].View();
      hide Sub.Offer;
      var todo := subs.Keys;
      while todo != {}
        invariant Valid() && todo <= subs.Keys
        invariant forall id :: 0 <= id < next ==>
                    all[id].View() == if id in todo then old(all[id].View()) else old(all[id].View()).Offer(e)
      {
        var id :| id in todo;
        Deliver(id, e);
        todo := todo - {id};
      }
    }

    method Broadcast(e: Event)
      requires Valid()
      modifies this, all
      ensures Valid() && all == old(all)
      ensures Abs() == Step(old(Abs()), HubSpec.Broadcast(e))
    {
      sent := sent + [e];
      DeliverAll(e);
    }
  }
}
