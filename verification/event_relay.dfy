/**
  Fan-out of scan events to bounded per-client queues inside one process. Everything between
  two awaits is one step, so subscribing, delivering a message, taking an event and leaving
  interleave as whole steps.
*/
module EventRelay {

  const MAX_QUEUED_EVENTS: nat := 16

  // ------------------------------------------------------------------ channel names

  const PREFIX: string := "scan:"
  const SUFFIX: string := ":events"

  function ScanEventsChannel(scanRunId: string): string { PREFIX + scanRunId + SUFFIX }

  /** What slicing off the two ends leaves; nothing when they overlap. */
  function ScanRunIdFromChannel(channel: string): string {
    if |channel| < 12 then "" else channel[5..|channel| - 7]
  }

  /** The names the relay's pattern subscription `scan:*:events` can deliver. */
  predicate MatchesPattern(channel: string) {
    |channel| >= 12 && channel[..5] == PREFIX && channel[|channel| - 7..] == SUFFIX
  }

  /** Names and ids are in bijection on exactly the channels the relay listens to. */
  lemma ChannelRoundTrip(scanRunId: string, channel: string)
    ensures ScanRunIdFromChannel(ScanEventsChannel(scanRunId)) == scanRunId
    ensures MatchesPattern(ScanEventsChannel(scanRunId))
    ensures ScanEventsChannel(ScanRunIdFromChannel(channel)) == channel <==> MatchesPattern(channel)
  {
    var built := ScanEventsChannel(scanRunId);
    assert built[5..|built| - 7] == scanRunId && built[..5] == PREFIX && built[|built| - 7..] == SUFFIX;
    var rebuilt := ScanEventsChannel(ScanRunIdFromChannel(channel));
    assert rebuilt[..5] == PREFIX && rebuilt[|rebuilt| - 7..] == SUFFIX;
    if MatchesPattern(channel) {
      assert channel == channel[..5] + channel[5..|channel| - 7] + channel[|channel| - 7..];
    }
  }

  // ------------------------------------------------------------------ the relay

  class Queue {
    var items: seq<string>

    constructor ()
      ensures items == []
    {
      items := [];
    }

    method PutNoWait(data: string) returns (ok: bool)
      modifies this
      ensures ok <==> |old(items)| < 16
      ensures items == Offered(old(items), data)
    {
      ok := |items| < MAX_QUEUED_EVENTS;
      if ok { items := items + [data]; }
    }

    method Get() returns (data: string)
      requires items != []
      modifies this
      ensures [data] + items == old(items)
    {
      data := items[0];
      items := items[1..];
    }
  }

  /** A full queue drops the arrival. */
  function Offered(items: seq<string>, data: string): seq<string> {
    if |items| < MAX_QUEUED_EVENTS then items + [data] else items
  }

  function Bucket<Q>(subscribers: map<string, set<Q>>, scan: string): set<Q> {
    if scan in subscribers then subscribers[scan] else {}
  }

  function Joined<Q>(subscribers: map<string, set<Q>>, scan: string, queue: Q): map<string, set<Q>> {
    subscribers[scan := Bucket(subscribers, scan) + {queue}]
  }

  /** The last client to leave takes the key with it. */
  function Left<Q>(subscribers: map<string, set<Q>>, scan: string, queue: Q): map<string, set<Q>> {
    if scan !in subscribers then subscribers
    else if subscribers[scan] - {queue} == {} then subscribers - {scan}
    else subscribers[scan := subscribers[scan] - {queue}]
  }

  /** A scan is a key only while somebody watches it. */
  predicate NoEmptyBucket<Q(!new)>(subscribers: map<string, set<Q>>) {
    forall scan | scan in subscribers :: subscribers[scan] != {}
  }

  /** Leaving undoes joining: a connection that comes and goes leaves no trace. */
  lemma LeavingUndoesJoining<Q(!new)>(subscribers: map<string, set<Q>>, scan: string, queue: Q)
    requires NoEmptyBucket(subscribers)
    ensures Left(Joined(subscribers, scan, queue), scan, queue) == subscribers <==> queue !in Bucket(subscribers, scan)
  {
    var bucket := Bucket(subscribers, scan);
    if queue in bucket {
      assert queue !in Bucket(Left(Joined(subscribers, scan, queue), scan, queue), scan);
    } else {
      assert bucket + {queue} - {queue} == bucket;
    }
  }

  class ScanEventRelay {
    var subscribers: map<string, set<Queue>>

    constructor ()
      ensures subscribers == map[]
    {
      subscribers := map[];
    }

    method Subscribe(scanRunId: string) returns (queue: Queue)
      modifies this
      ensures fresh(queue) && queue.items == []
      ensures subscribers == Joined(old(subscribers), scanRunId, queue)
      ensures forall scan ::
                Bucket(subscribers, scan) == Bucket(old(subscribers), scan) + if scan == scanRunId then {queue} else {}
    {
      queue := new Queue();
      if scanRunId !in subscribers { subscribers := subscribers[scanRunId := {}]; }
      subscribers := subscribers[scanRunId := subscribers[scanRunId] + {queue}];
    }

    /** The teardown of a subscription, run however the client went away. */
    method Unsubscribe(scanRunId: string, queue: Queue)
      modifies this
      ensures subscribers == Left(old(subscribers), scanRunId, queue)
      ensures forall scan ::
                Bucket(subscribers, scan) == Bucket(old(subscribers), scan) - if scan == scanRunId then {queue} else {}
      ensures scanRunId in subscribers <==> Bucket(old(subscribers), scanRunId) - {queue} != {}
    {
      if scanRunId in subscribers {
        var bucket := subscribers[scanRunId] - {queue};
        subscribers := subscribers[scanRunId := bucket];
        if bucket == {} { subscribers := subscribers - {scanRunId}; }
      }
    }

    /** One message: offered once to every queue of its scan, and to no other. */
    method Deliver(channel: string, data: string)
      modifies Bucket(subscribers, ScanRunIdFromChannel(channel))
      ensures forall queue | queue in Bucket(subscribers, ScanRunIdFromChannel(channel)) ::
                queue.items == Offered(old(queue.items), data)
    {
      var scanRunId := ScanRunIdFromChannel(channel);
      var todo := if scanRunId in subscribers then subscribers[scanRunId] else {};
      ghost var bucket := todo;
      while todo != {}
        invariant todo <= bucket
        invariant forall queue | queue in todo :: queue.items == old(queue.items)
        invariant forall queue | queue in bucket - todo :: queue.items == Offered(old(queue.items), data)
        decreases todo
      {
        var queue :| queue in todo;
        var _ := queue.PutNoWait(data);
        todo := todo - {queue};
      }
    }
  }

  // ------------------------------------------------------------------ any interleaving

  /** `taken` is what the client has received so far; `live` which scan each client watches. */
  datatype Client = Client(items: seq<string>, taken: seq<string>)
  datatype State = State(subscribers: map<string, set<nat>>, clients: map<nat, Client>, live: map<nat, string>)

  datatype Event =
    | Subscribe(queue: nat, scan: string)
    | Unsubscribe(queue: nat)
    | Message(channel: string, data: string)
    | Consume(queue: nat)

  predicate Enabled(s: State, e: Event) {
    match e
    case Subscribe(queue, _) => queue !in s.clients
    case Unsubscribe(queue) => queue in s.live
    case Message(_, _) => true
    case Consume(queue) => queue in s.live && queue in s.clients && s.clients[queue].items != []
  }

  function Step(s: State, e: Event): State
    requires Enabled(s, e)
  {
    match e
    case Subscribe(queue, scan) =>
      State(Joined(s.subscribers, scan, queue), s.clients[queue := Client([], [])], s.live[queue := scan])
    case Unsubscribe(queue) => State(Left(s.subscribers, s.live[queue], queue), s.clients, s.live - {queue})
    case Message(channel, data) =>
      s.(clients := map queue | queue in s.clients ::
           if queue in Bucket(s.subscribers, ScanRunIdFromChannel(channel))
           then s.clients[queue].(items := Offered(s.clients[queue].items, data)) else s.clients[queue])
    case Consume(queue) =>
      var client := s.clients[queue];
      s.(clients := s.clients[queue := Client(client.items[1..], client.taken + [client.items[0]])])
  }

  predicate Initial(s: State) { s == State(map[], map[], map[]) }

  predicate IsTrace(states: seq<State>, events: seq<Event>) {
    && |states| == |events| + 1 && Initial(states[0])
    && forall i | 0 <= i < |events| :: Enabled(states[i], events[i]) && states[i + 1] == Step(states[i], events[i])
  }

  predicate Watches(s: State, queue: nat, scan: string) { queue in s.live && s.live[queue] == scan }

  ghost predicate Inv(s: State) {
    && (forall scan: string, queue: nat :: queue in Bucket(s.subscribers, scan) <==> Watches(s, queue, scan))
    && (forall scan | scan in s.subscribers :: s.subscribers[scan] != {})
    && (forall queue | queue in s.live :: queue in s.clients)
    && (forall queue | queue in s.clients :: |s.clients[queue].items| <= MAX_QUEUED_EVENTS)
  }

  lemma StepKeepsInv(s: State, e: Event)
    requires Inv(s) && Enabled(s, e)
    ensures Inv(Step(s, e))
  {
    var t := Step(s, e);
    if e.Unsubscribe? {
      forall scan: string, queue: nat ensures queue in Bucket(t.subscribers, scan) <==> Watches(t, queue, scan) {
        assert queue in Bucket(s.subscribers, scan) <==> Watches(s, queue, scan);
        assert e.queue in Bucket(s.subscribers, s.live[e.queue]) <==> Watches(s, e.queue, s.live[e.queue]);
      }
    } else if e.Subscribe? {
      forall scan: string, queue: nat ensures queue in Bucket(t.subscribers, scan) <==> Watches(t, queue, scan) {
        assert queue in Bucket(s.subscribers, scan) <==> Watches(s, queue, scan);
      }
    } else {
      assert t.subscribers == s.subscribers && t.live == s.live;
      forall scan: string, queue: nat ensures queue in Bucket(t.subscribers, scan) <==> Watches(t, queue, scan) {
        assert queue in Bucket(s.subscribers, scan) <==> Watches(s, queue, scan);
      }
    }
  }

  lemma {:induction false} TraceKeepsInv(states: seq<State>, events: seq<Event>, n: nat)
    requires IsTrace(states, events) && n < |states|
    ensures Inv(states[n])
  {
    if n > 0 {
      TraceKeepsInv(states, events, n - 1);
      StepKeepsInv(states[n - 1], events[n - 1]);
    }
  }

  /** The map's keys are exactly the scans somebody watches, and no queue ever exceeds its bound. */
  lemma KeysAreWatchedScans(states: seq<State>, events: seq<Event>, n: nat)
    requires IsTrace(states, events) && n < |states|
    ensures var s := states[n];
            && (forall scan: string :: scan in s.subscribers <==> exists queue: nat :: Watches(s, queue, scan))
            && (forall queue | queue in s.clients :: |s.clients[queue].items| <= 16)
  {
    TraceKeepsInv(states, events, n);
    var s := states[n];
    forall scan: string ensures scan in s.subscribers <==> exists queue: nat :: Watches(s, queue, scan) {
      if scan in s.subscribers {
        var queue :| queue in s.subscribers[scan];
        assert queue in Bucket(s.subscribers, scan);
      }
      if queue: nat :| Watches(s, queue, scan) { assert queue in Bucket(s.subscribers, scan); }
    }
  }

  // ------------------------------------------------------------------ what one client gets

  predicate MessageFor(e: Event, scan: string) { e.Message? && ScanRunIdFromChannel(e.channel) == scan }

  /** What was published for the scan in steps `m` up to `n`. */
  function Published(events: seq<Event>, m: nat, n: nat, scan: string): seq<string>
    requires m <= n <= |events|
  {
    if m == n then []
    else Published(events, m, n - 1, scan) + if MessageFor(events[n - 1], scan) then [events[n - 1].data] else []
  }

  function Received(s: State, queue: nat): seq<string> {
    if queue in s.clients then s.clients[queue].taken + s.clients[queue].items else []
  }

  predicate IsSubsequence(a: seq<string>, b: seq<string>) {
    if a == [] then true
    else if b == [] then false
    else if a[|a| - 1] == b[|b| - 1] && IsSubsequence(a[..|a| - 1], b[..|b| - 1]) then true
    else IsSubsequence(a, b[..|b| - 1])
  }

  /** The client subscribed in step `m` and is still there. */
  predicate SubscribedSince(states: seq<State>, events: seq<Event>, m: nat, n: nat, queue: nat, scan: string)
    requires |states| == |events| + 1
  {
    && m < n <= |events| && events[m] == Subscribe(queue, scan)
    && forall i | m < i < n :: events[i] != Unsubscribe(queue)
  }

  lemma {:induction false} StillWatching(states: seq<State>, events: seq<Event>, m: nat, n: nat, queue: nat,
                                         scan: string)
    requires IsTrace(states, events) && SubscribedSince(states, events, m, n, queue, scan)
    ensures Watches(states[n], queue, scan) && queue in states[n].clients
    decreases n
  {
    TraceKeepsInv(states, events, n - 1);
    if m + 1 < n { StillWatching(states, events, m, n - 1, queue, scan); }
  }

  /** The arrival in step `i` found the client's queue full. */
  predicate FoundFull(states: seq<State>, events: seq<Event>, i: nat, queue: nat, scan: string)
    requires |states| == |events| + 1 && i < |events|
  {
    MessageFor(events[i], scan) && queue in states[i].clients && |states[i].clients[queue].items| >= 16
  }

  /** One step from one client's view. */
  lemma ReceivedStep(s: State, e: Event, queue: nat, scan: string)
    requires Inv(s) && Enabled(s, e) && Watches(s, queue, scan) && e != Unsubscribe(queue)
    ensures Received(Step(s, e), queue)
         == if MessageFor(e, scan) && |s.clients[queue].items| < 16 then Received(s, queue) + [e.data]
            else Received(s, queue)
  {
    if e.Message? {
      var messageFor := ScanRunIdFromChannel(e.channel);
      assert queue in Bucket(s.subscribers, messageFor) <==> Watches(s, queue, messageFor);
    } else if e.Consume? && e.queue == queue {
      var client := s.clients[queue];
      assert client.taken + [client.items[0]] + client.items[1..] == client.taken + client.items;
    }
  }

  lemma LongerSubsequence(got: seq<string>, sent: seq<string>, data: string)
    requires IsSubsequence(got, sent) && |got| <= |sent|
    ensures IsSubsequence(got + [data], sent + [data]) && IsSubsequence(got, sent + [data])
    ensures got + [data] == sent + [data] <==> got == sent
    ensures got != sent + [data]
  {
    assert (sent + [data])[..|sent|] == sent && (got + [data])[..|got|] == got;
  }

  lemma PublishedStep(events: seq<Event>, m: nat, n: nat, scan: string)
    requires m < n <= |events|
    ensures Published(events, m, n, scan)
         == if MessageFor(events[n - 1], scan) then Published(events, m, n - 1, scan) + [events[n - 1].data]
            else Published(events, m, n - 1, scan)
  {
  }

  ghost predicate NeverFull(states: seq<State>, events: seq<Event>, m: nat, n: nat, queue: nat, scan: string)
    requires |states| == |events| + 1 && n <= |events|
  {
    forall i: nat | m < i < n :: !FoundFull(states, events, i, queue, scan)
  }

  lemma NeverFullStep(states: seq<State>, events: seq<Event>, m: nat, n: nat, queue: nat, scan: string)
    requires |states| == |events| + 1 && m + 1 < n <= |events|
    ensures NeverFull(states, events, m, n, queue, scan)
       <==> NeverFull(states, events, m, n - 1, queue, scan) && !FoundFull(states, events, n - 1, queue, scan)
  {
  }

  /**
    A client receives an in-order subsequence of what was published for its scan since it
    subscribed, and all of it if and only if no arrival ever found its queue full.
  */
  lemma {:induction false} ClientReceivesSubsequence(states: seq<State>, events: seq<Event>, m: nat, n: nat, queue: nat,
                                                     scan: string)
    requires IsTrace(states, events) && SubscribedSince(states, events, m, n, queue, scan)
    ensures IsSubsequence(Received(states[n], queue), Published(events, m + 1, n, scan))
    ensures |Received(states[n], queue)| <= |Published(events, m + 1, n, scan)|
    ensures Received(states[n], queue) == Published(events, m + 1, n, scan)
       <==> NeverFull(states, events, m, n, queue, scan)
    decreases n
  {
    hide Step, Enabled, Inv, Published, Received, NeverFull, IsSubsequence, FoundFull, Watches;
    if m + 1 == n {
      NothingYet(states, events, m, queue, scan);
    } else {
      ClientReceivesSubsequence(states, events, m, n - 1, queue, scan);
      StillWatching(states, events, m, n - 1, queue, scan);
      TraceKeepsInv(states, events, n - 1);
      ReceivedStep(states[n - 1], events[n - 1], queue, scan);
      PublishedStep(events, m + 1, n, scan);
      NeverFullStep(states, events, m, n, queue, scan);
      FullMeans(states, events, n - 1, queue, scan);
      if MessageFor(events[n - 1], scan) {
        LongerSubsequence(Received(states[n - 1], queue), Published(events, m + 1, n - 1, scan), events[n - 1].data);
      }
    }
  }

  lemma FullMeans(states: seq<State>, events: seq<Event>, i: nat, queue: nat, scan: string)
    requires |states| == |events| + 1 && i < |events| && queue in states[i].clients
    ensures FoundFull(states, events, i, queue, scan)
       <==> MessageFor(events[i], scan) && |states[i].clients[queue].items| >= 16
  {
  }

  lemma NothingYet(states: seq<State>, events: seq<Event>, m: nat, queue: nat, scan: string)
    requires IsTrace(states, events) && m < |events| && events[m] == Subscribe(queue, scan)
    ensures Received(states[m + 1], queue) == [] == Published(events, m + 1, m + 1, scan)
    ensures IsSubsequence([], []) && NeverFull(states, events, m, m + 1, queue, scan)
  {
    assert states[m + 1] == Step(states[m], events[m]);
  }
}
