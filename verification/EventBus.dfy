/** The live feed: every public event to every subscriber's bounded queue, oldest dropped first. */
module EventBus {

  const QUEUE_MAX := 256

  datatype Frame = Frame(seqNo: nat, event: string, data: string, dropped: nat)

  datatype Feed = Feed(queue: seq<Frame>, dropped: nat)

  const JOINED := Feed([], 0)

  function Stamped(f: Feed, seqNo: nat, event: string, data: string): Frame {
    Frame(seqNo, event, data, f.dropped)
  }

  function Pushed(f: Feed, seqNo: nat, event: string, data: string): Feed {
    var frame := Stamped(f, seqNo, event, data);
    if |f.queue| < QUEUE_MAX then f.(queue := f.queue + [frame])
    else Feed(f.queue[1..] + [frame], f.dropped + 1)
  }

  /** Two hundred and fifty-six may wait; one more pushes the oldest out, and is counted. */
  lemma TheOldestGives(f: Feed, seqNo: nat, event: string, data: string)
    requires |f.queue| <= 256
    ensures var g := Pushed(f, seqNo, event, data);
            && |g.queue| == (if |f.queue| < 256 then |f.queue| + 1 else 256)
            && g.queue[|g.queue| - 1] == Frame(seqNo, event, data, f.dropped)
            && (|f.queue| < 256 ==> g.queue[..|f.queue|] == f.queue && g.dropped == f.dropped)
            && (|f.queue| == 256 ==> g.queue[..255] == f.queue[1..] && g.dropped == f.dropped + 1)
  {
  }

  function Taken(f: Feed): Feed {
    if f.queue == [] then f else f.(queue := f.queue[1..])
  }

  // --------------------------------------------------------------------------
  // What one subscriber sees over its whole life.

  /** Since it joined: an event reached it, or its client asked for the next frame. */
  datatype Moment = Published(seqNo: nat, event: string, data: string) | Asked

  function After(moments: seq<Moment>): Feed {
    if moments == [] then JOINED
    else
      var f := After(moments[..|moments| - 1]);
      match moments[|moments| - 1]
      case Published(n, event, data) => Pushed(f, n, event, data)
      case Asked => Taken(f)
  }

  /** Every frame made for the subscriber, kept or not. */
  function Frames(moments: seq<Moment>): seq<Frame> {
    if moments == [] then []
    else
      var before := moments[..|moments| - 1];
      match moments[|moments| - 1]
      case Published(n, event, data) => Frames(before) + [Stamped(After(before), n, event, data)]
      case Asked => Frames(before)
  }

  /** What its client received, in order. */
  function Received(moments: seq<Moment>): seq<Frame> {
    if moments == [] then []
    else
      var before := moments[..|moments| - 1];
      Received(before) + if moments[|moments| - 1].Asked? && After(before).queue != [] then [After(before).queue[0]] else []
  }

  /** Publications that found as many waiting as the queue holds, counting only numbers. */
  function Overflows(moments: seq<Moment>): (r: (nat, nat))
    ensures r.0 <= QUEUE_MAX
  {
    if moments == [] then (0, 0)
    else
      var (waiting, lost) := Overflows(moments[..|moments| - 1]);
      if moments[|moments| - 1].Asked? then (if waiting > 0 then waiting - 1 else 0, lost)
      else if waiting < QUEUE_MAX then (waiting + 1, lost)
      else (waiting, lost + 1)
  }

  function Publications(moments: seq<Moment>): nat {
    if moments == [] then 0
    else Publications(moments[..|moments| - 1]) + if moments[|moments| - 1].Published? then 1 else 0
  }

  /** A feed and its bookkeeping: what was framed, received, published and counted as lost. */
  predicate Balanced(f: Feed, all: seq<Frame>, published: nat, received: nat, counted: (nat, nat)) {
    && |f.queue| <= QUEUE_MAX && |f.queue| <= |all|
    && f.queue == all[|all| - |f.queue|..]
    && |all| == published == received + |f.queue| + f.dropped
    && counted == (|f.queue|, f.dropped)
  }

  /** The queue is the last frames in order, nothing is unaccounted for, and the counter is the count of overflows. */
  predicate Accounted(moments: seq<Moment>) {
    Balanced(After(moments), Frames(moments), Publications(moments), |Received(moments)|, Overflows(moments))
  }

  lemma PushBalanced(f: Feed, all: seq<Frame>, published: nat, received: nat, counted: (nat, nat), n: nat, event: string, data: string)
    requires Balanced(f, all, published, received, counted)
    ensures Balanced(Pushed(f, n, event, data), all + [Stamped(f, n, event, data)], published + 1, received,
                     if counted.0 < QUEUE_MAX then (counted.0 + 1, counted.1) else (counted.0, counted.1 + 1))
  {
  }

  lemma TakeBalanced(f: Feed, all: seq<Frame>, published: nat, received: nat, counted: (nat, nat))
    requires Balanced(f, all, published, received, counted)
    ensures Balanced(Taken(f), all, published, received + if f.queue != [] then 1 else 0,
                     (if counted.0 > 0 then counted.0 - 1 else 0, counted.1))
  {
  }

  lemma {:induction false} EveryFeedIsAccounted(moments: seq<Moment>)
    ensures Accounted(moments)
  {
    hide Balanced, Pushed, Taken, Stamped;
    if moments != [] {
      var before, last := moments[..|moments| - 1], moments[|moments| - 1];
      EveryFeedIsAccounted(before);
      var f := After(before);
      if last.Published? {
        PushBalanced(f, Frames(before), Publications(before), |Received(before)|, Overflows(before), last.seqNo, last.event, last.data);
      } else {
        TakeBalanced(f, Frames(before), Publications(before), |Received(before)|, Overflows(before));
      }
    } else {
      NothingYet();
    }
  }

  lemma NothingYet()
    ensures Accounted([])
  {
  }

  /** A frame carries the number of overflows before its own publication. */
  lemma {:induction false} FramesCarryTheLossSoFar(before: seq<Moment>, m: Moment, later: seq<Moment>)
    requires m.Published?
    ensures var i, all := Publications(before), Frames(before + [m] + later);
            i < |all| && all[i] == Frame(m.seqNo, m.event, m.data, Overflows(before).1)
    decreases |later|
  {
    var moments := before + [m] + later;
    EveryFeedIsAccounted(before);
    if later == [] {
      assert moments[..|moments| - 1] == before && moments[|moments| - 1] == m;
    } else {
      FramesCarryTheLossSoFar(before, m, later[..|later| - 1]);
      assert moments[..|moments| - 1] == before + [m] + later[..|later| - 1];
    }
  }

  /** The next frame received is the one after all received and all lost: the client can tell what it missed. */
  lemma NextIsAfterReceivedAndLost(moments: seq<Moment>)
    requires After(moments).queue != []
    ensures var f, all := After(moments), Frames(moments);
            && |Received(moments)| + f.dropped < |all|
            && f.queue[0] == all[|Received(moments)| + f.dropped]
  {
    EveryFeedIsAccounted(moments);
  }

  /** Until the queue has overflowed once, the client receives every frame, in order. */
  lemma {:induction false} NothingLostNothingMissing(moments: seq<Moment>)
    requires Overflows(moments).1 == 0
    ensures Frames(moments) == Received(moments) + After(moments).queue
  {
    if moments != [] {
      var before, last := moments[..|moments| - 1], moments[|moments| - 1];
      assert moments == before + [last];
      OverflowsMatch(before);
      assert Overflows(before).1 == 0;
      OneMoreMoment(before, last);
      OneMoreReceived(before, last);
      hide Overflows, After, Frames, Received;
      NothingLostNothingMissing(before);
      var queue := After(before).queue;
      if last.Asked? && queue != [] {
        assert queue == [queue[0]] + queue[1..];
      }
    }
  }

  lemma OneMoreReceived(moments: seq<Moment>, m: Moment)
    ensures var queue := After(moments).queue;
            Received(moments + [m]) == Received(moments) + if m.Asked? && queue != [] then [queue[0]] else []
  {
    assert (moments + [m])[..|moments|] == moments;
    hide After;
  }

  lemma OverflowsMatch(moments: seq<Moment>)
    ensures Overflows(moments) == (|After(moments).queue|, After(moments).dropped)
  {
  }

  lemma OneMoreMoment(moments: seq<Moment>, m: Moment)
    ensures var f := After(moments);
            match m
            case Published(n, event, data) =>
              && After(moments + [m]) == Pushed(f, n, event, data)
              && Frames(moments + [m]) == Frames(moments) + [Stamped(f, n, event, data)]
            case Asked => After(moments + [m]) == Taken(f) && Frames(moments + [m]) == Frames(moments)
  {
    assert (moments + [m])[..|moments|] == moments;
  }

  /** Numbered one after another, from the one after `joined`. */
  predicate Consecutive(frames: seq<Frame>, joined: nat) {
    forall i :: 0 <= i < |frames| ==> frames[i].seqNo == joined + 1 + i
  }

  // --------------------------------------------------------------------------

  /** A connected client; `moments` is its life so far and `joined` the bus's number when it joined. */
  class Subscriber {
    var queue: seq<Frame>
    var dropped: nat
    ghost var moments: seq<Moment>
    ghost const joined: nat

    function View(): Feed
      reads this
    {
      Feed(queue, dropped)
    }

    /** The queue and the counter are what its life makes of them. */
    ghost predicate Valid()
      reads this
    {
      View() == After(moments)
    }

    constructor (ghost at: nat)
      ensures Valid() && moments == [] && View() == JOINED && joined == at
    {
      queue, dropped, moments, joined := [], 0, [], at;
    }

    method Next() returns (frame: Frame)
      requires Valid() && queue != []
      modifies this
      ensures Valid() && moments == old(moments) + [Asked]
      ensures View() == Taken(old(View())) && frame == old(queue)[0]
      ensures Frames(moments) == old(Frames(moments))
    {
      frame := queue[0];
      queue := queue[1..];
      OneMoreMoment(moments, Asked);
      moments := moments + [Asked];
    }
  }

  class EventBus {
    const public: set<string>
    var subscribers: set<Subscriber>
    var seqNo: nat

    /** Every subscriber was sent every number since it joined, in order, and nothing else. */
    ghost predicate Valid()
      reads this, subscribers
    {
      forall s :: s in subscribers ==> Served(s, seqNo)
    }

    constructor (events: set<string>)
      ensures Valid() && public == events && subscribers == {} && seqNo == 0
    {
      public, subscribers, seqNo := events, {}, 0;
    }

    /** A public event reaches every subscriber as it then stood, under one number; any other reaches none. */
    method Publish(event: string, data: string) returns (delivered: nat)
      requires Valid()
      modifies this`seqNo, subscribers
      ensures Valid() && subscribers == old(subscribers)
      ensures event !in public ==>
        && delivered == 0 && seqNo == old(seqNo)
        && forall s :: s in subscribers ==> s.View() == old(s.View()) && s.moments == old(s.moments)
      ensures event in public ==>
        && delivered == |subscribers| && seqNo == old(seqNo) + 1
        && forall s :: s in subscribers ==>
             && s.View() == Pushed(old(s.View()), seqNo, event, data)
             && s.moments == old(s.moments) + [Published(seqNo, event, data)]
    {
      if event !in public {
        return 0;
      }
      seqNo := seqNo + 1;
      delivered := 0;
      var todo := subscribers;
      while todo != {}
        invariant seqNo == old(seqNo) + 1 && todo <= subscribers && delivered == |subscribers| - |todo|
        invariant forall s :: s in todo ==> s.View() == old(s.View()) && s.moments == old(s.moments)
        invariant forall s :: s in subscribers - todo ==>
          && s.View() == Pushed(old(s.View()), seqNo, event, data)
          && s.moments == old(s.moments) + [Published(seqNo, event, data)]
        decreases |todo|
      {
        var sub :| sub in todo;
        todo := todo - {sub};
        var frame := Frame(seqNo, event, data, sub.dropped);
        if |sub.queue| < QUEUE_MAX {
          sub.queue := sub.queue + [frame];
        } else {
          sub.queue := sub.queue[1..];
          sub.queue := sub.queue + [frame];
          sub.dropped := sub.dropped + 1;
        }
        sub.moments := sub.moments + [Published(seqNo, event, data)];
        delivered := delivered + 1;
      }
      forall s | s in subscribers ensures Served(s, seqNo) {
        OneMoreMoment(old(s.moments), Published(seqNo, event, data));
      }
    }

    method Subscribe() returns (sub: Subscriber)
      requires Valid()
      modifies this`subscribers
      ensures Valid() && fresh(sub) && sub.View() == JOINED && sub.joined == seqNo && subscribers == old(subscribers) + {sub}
    {
      sub := new Subscriber(seqNo);
      subscribers := subscribers + {sub};
    }

    method Unsubscribe(sub: Subscriber)
      requires Valid()
      modifies this`subscribers
      ensures Valid() && subscribers == old(subscribers) - {sub}
    {
      subscribers := subscribers - {sub};
    }
  }

  /** The frames made for a subscriber carry every number of the bus since it joined. */
  ghost predicate Served(s: Subscriber, seqNo: nat)
    reads s
  {
    s.Valid() && Consecutive(Frames(s.moments), s.joined) && s.joined + |Frames(s.moments)| == seqNo
  }

  /** So what was proved of a life holds of each subscriber of a bus, by its own fields and numbers. */
  lemma ServedSubscriber(s: Subscriber, seqNo: nat)
    requires Served(s, seqNo)
    ensures |s.queue| <= QUEUE_MAX && seqNo - s.joined == |Received(s.moments)| + |s.queue| + s.dropped
    ensures forall i :: 0 <= i < |s.queue| ==> s.queue[i].seqNo == seqNo - |s.queue| + 1 + i
    ensures forall i :: 0 <= i < |s.queue| ==> s.queue[i].dropped <= s.dropped
  {
    EveryFeedIsAccounted(s.moments);
    DroppedOnlyGrows(s.moments);
  }

  lemma {:induction false} DroppedOnlyGrows(moments: seq<Moment>)
    ensures forall i :: 0 <= i < |Frames(moments)| ==> Frames(moments)[i].dropped <= After(moments).dropped
  {
    if moments != [] {
      DroppedOnlyGrows(moments[..|moments| - 1]);
    }
  }
}
