/** Failed sends: a bounded number of re-enqueues, then parking, then replay when the channel opens. */
module Retry {
  import opened Keys
  import opened Records
  import opened Database

  /** An `InternalMessage<PeerMessage>`; `body` stands for the message's type, sender and content. */
  datatype Message = Message(tag: string, receiver: string, body: string, timestamp: nat, retryCount: nat)

  const MAX_RETRIES: nat := 3

  /** The JSON form has no retry count: a message read back from the store starts at zero. */
  function Stored(m: Message): Message {
    m.(retryCount := 0)
  }

  datatype Network = Network(queue: seq<Message>, parked: map<string, Message>, delivered: seq<Message>)

  // ---- the handlers ----

  function RetryMessage(n: Network, m: Message): Network {
    if m.retryCount >= MAX_RETRIES then n.(parked := (n.parked - {m.tag})[m.tag := Stored(m)])
    else n.(queue := n.queue + [m.(retryCount := m.retryCount + 1)])
  }

  /** `on_send_peer_message` on the head of the queue: no connection, a closed channel, or delivery. */
  function SendNext(n: Network, connected: bool, open: bool): Network {
    if |n.queue| == 0 then n
    else
      var m, rest := n.queue[0], n.(queue := n.queue[1..]);
      if connected && open then rest.(delivered := rest.delivered + [m]) else RetryMessage(rest, m)
  }

  function Replayed(parked: map<string, Message>, peer: string): seq<Message> {
    ReplayOf(Scan(parked), peer)
  }

  function ReplayOf(messages: seq<Message>, peer: string): seq<Message> {
    Bumped(Filter(messages, ToPeer(peer)))
  }

  function ToPeer(peer: string): Message -> bool {
    (m: Message) => m.receiver == peer
  }

  function Bumped(messages: seq<Message>): seq<Message> {
    seq(|messages|, i requires 0 <= i < |messages| => messages[i].(retryCount := messages[i].retryCount + 1))
  }

  function Tags(messages: seq<Message>): set<string> {
    set m | m in messages :: m.tag
  }

  /** `on_datachannel_open`, taken as one step. */
  function OpenChannel(n: Network, peer: string): Network {
    var replayed := Replayed(n.parked, peer);
    n.(queue := n.queue + replayed, parked := n.parked - Tags(replayed))
  }

  /** Send attempts left to a message whose receiver stays unreachable, the parking one included. */
  function Attempts(m: Message): (k: nat)
    ensures k > 0
    ensures m.retryCount <= MAX_RETRIES ==> k == MAX_RETRIES + 1 - m.retryCount
  {
    if m.retryCount >= MAX_RETRIES then 1 else MAX_RETRIES + 1 - m.retryCount
  }

  function TotalAttempts(queue: seq<Message>): nat {
    if |queue| == 0 then 0 else Attempts(queue[0]) + TotalAttempts(queue[1..])
  }

  lemma {:induction false} TotalAttemptsConcat(a: seq<Message>, b: seq<Message>)
    ensures TotalAttempts(a + b) == TotalAttempts(a) + TotalAttempts(b)
  {
    if |a| == 0 {
      assert a + b == b;
    } else {
      TotalAttemptsConcat(a[1..], b);
      assert (a + b)[1..] == a[1..] + b;
    }
  }

  /** Every failed attempt uses up exactly one. */
  lemma FailureUsesOne(n: Network)
    requires |n.queue| > 0
    ensures TotalAttempts(SendNext(n, false, false).queue) == TotalAttempts(n.queue) - 1
  {
    var m := n.queue[0];
    if m.retryCount < MAX_RETRIES {
      var again := m.(retryCount := m.retryCount + 1);
      TotalAttemptsConcat(n.queue[1..], [again]);
      assert TotalAttempts([again]) == Attempts(again) by { assert [again][1..] == []; }
    }
  }

  /** Sending until the queue is empty while no receiver can be reached: the end, and the attempts made. */
  function Drain(n: Network): (Network, nat)
    decreases TotalAttempts(n.queue)
  {
    if |n.queue| == 0 then (n, 0)
    else
      FailureUsesOne(n);
      var (end, attempts) := Drain(SendNext(n, false, false));
      (end, attempts + 1)
  }

  class RetryHandler {
    var queue: seq<Message>
    const store: Store<Message>
    var delivered: seq<Message>

    ghost function State(): Network
      reads this, store
    {
      Network(queue, store.db, delivered)
    }

    constructor (store: Store<Message>)
      ensures this.store == store && queue == [] && delivered == []
    {
      this.store := store;
      queue, delivered := [], [];
    }

    method Retry(m: Message)
      modifies this`queue, store
      ensures State() == RetryMessage(old(State()), m)
    {
      if m.retryCount >= 3 {
        var _ := store.Remove(m.tag);
        var reset := m.(retryCount := 0);
        var _ := store.Put(reset.tag, Stored(reset));
      } else {
        queue := queue + [m.(retryCount := m.retryCount + 1)];
      }
    }

    /** `connected` and `open` are the transport's answers for this message's receiver. */
    method OnSendPeerMessage(connected: bool, open: bool)
      requires |queue| > 0
      modifies this, store
      ensures State() == SendNext(old(State()), connected, open)
    {
      var m := queue[0];
      queue := queue[1..];
      if !connected {
        Retry(m);
        return;
      }
      if open {
        delivered := delivered + [m];
      } else {
        Retry(m);
      }
    }

    /** A send fails with no connection or on a closed channel; either way the queue drains. */
    method DrainUnreachable() returns (attempts: nat)
      modifies this, store
      ensures (State(), attempts) == Drain(old(State()))
    {
      attempts := 0;
      while |queue| > 0
        invariant Drain(old(State())) == (Drain(State()).0, attempts + Drain(State()).1)
        decreases TotalAttempts(queue)
      {
        FailureUsesOne(State());
        if * {
          OnSendPeerMessage(false, false);
        } else {
          OnSendPeerMessage(true, false);
        }
        attempts := attempts + 1;
      }
    }

    method OnDatachannelOpen(peer: string)
      modifies this`queue, store
      ensures State() == OpenChannel(old(State()), peer)
    {
      var values := store.Data();
      for i := 0 to |values|
        invariant queue == old(queue) + ReplayOf(values[..i], peer)
        invariant store.db == old(store.db) - Tags(ReplayOf(values[..i], peer))
      {
        ReplayNext(values, i, peer);
        if values[i].receiver == peer {
          var m := values[i].(retryCount := values[i].retryCount + 1);
          queue := queue + [m];
          var _ := store.Remove(m.tag);
        }
      }
      assert values[..|values|] == values;
    }
  }

  lemma ReplayNext(values: seq<Message>, i: nat, peer: string)
    requires i < |values|
    ensures var before, m := ReplayOf(values[..i], peer), values[i].(retryCount := values[i].retryCount + 1);
            if m.receiver == peer
            then ReplayOf(values[..i + 1], peer) == before + [m]
                 && Tags(ReplayOf(values[..i + 1], peer)) == Tags(before) + {m.tag}
            else ReplayOf(values[..i + 1], peer) == before
  {
    FilterNext(values, i, ToPeer(peer));
    var kept := Filter(values[..i], ToPeer(peer));
    assert Bumped(kept + [values[i]]) == Bumped(kept) + [values[i].(retryCount := values[i].retryCount + 1)];
  }

  // ---- draining ----

  ghost predicate DistinctTags(messages: seq<Message>) {
    forall i, j :: 0 <= i < j < |messages| ==> messages[i].tag != messages[j].tag
  }

  /** The store once every queued message has been parked over what was there. */
  ghost predicate ParkedAll(before: map<string, Message>, queue: seq<Message>, after: map<string, Message>) {
    && after.Keys == before.Keys + Tags(queue)
    && (forall k :: k in before && k !in Tags(queue) ==> after[k] == before[k])
    && (forall m :: m in queue ==> after[m.tag] == Stored(m))
  }

  /**
   * With nobody reachable the queue drains after exactly the sum of the attempts left, nothing is
   * delivered, and every message ends parked, with its count forgotten.
   */
  lemma {:induction false} DrainParksAll(n: Network)
    requires DistinctTags(n.queue)
    ensures var (end, attempts) := Drain(n);
            && attempts == TotalAttempts(n.queue)
            && end.queue == []
            && end.delivered == n.delivered
            && ParkedAll(n.parked, n.queue, end.parked)
    decreases TotalAttempts(n.queue)
  {
    if |n.queue| > 0 {
      var next := SendNext(n, false, false);
      FailureUsesOne(n);
      AttemptKeepsDistinct(n);
      DrainParksAll(next);
      ParkedStep(n, Drain(n).0.parked);
    }
  }

  lemma AttemptKeepsDistinct(n: Network)
    requires |n.queue| > 0 && DistinctTags(n.queue)
    ensures DistinctTags(SendNext(n, false, false).queue)
  {
  }

  lemma ParkedStep(n: Network, after: map<string, Message>)
    requires |n.queue| > 0 && DistinctTags(n.queue)
    requires var next := SendNext(n, false, false); ParkedAll(next.parked, next.queue, after)
    ensures ParkedAll(n.parked, n.queue, after)
  {
    var m, rest := n.queue[0], n.queue[1..];
    HeadTags(n.queue);
    if m.retryCount < MAX_RETRIES {
      RequeuedIsParked(n.parked, m, rest, m.(retryCount := m.retryCount + 1), n.queue, after);
    } else {
      ParkedFirst(n.parked, m, rest, n.queue, after);
    }
  }

  lemma RequeuedIsParked(
    parked: map<string, Message>, m: Message, rest: seq<Message>, again: Message, queue: seq<Message>,
    after: map<string, Message>)
    requires again.tag == m.tag && Stored(again) == Stored(m)
    requires queue == [m] + rest && ParkedAll(parked, rest + [again], after)
    ensures ParkedAll(parked, queue, after)
  {
    MoveToEnd(rest, again);
    HeadTags(queue);
    assert queue[1..] == rest;
    assert again == (rest + [again])[|rest|];
    forall q | q in rest ensures q in rest + [again] { }
  }

  lemma ParkedFirst(
    parked: map<string, Message>, m: Message, rest: seq<Message>, queue: seq<Message>, after: map<string, Message>)
    requires queue == [m] + rest && m.tag !in Tags(rest)
    requires ParkedAll((parked - {m.tag})[m.tag := Stored(m)], rest, after)
    ensures ParkedAll(parked, queue, after)
  {
    HeadTags(queue);
    assert queue[1..] == rest;
  }

  lemma HeadTags(queue: seq<Message>)
    requires |queue| > 0
    ensures Tags(queue) == {queue[0].tag} + Tags(queue[1..])
    ensures Contents(queue) == {Stored(queue[0])} + Contents(queue[1..])
    ensures forall m :: m in queue <==> m == queue[0] || m in queue[1..]
    ensures DistinctTags(queue) ==> queue[0].tag !in Tags(queue[1..])
  {
    assert queue == [queue[0]] + queue[1..];
  }

  // ---- conservation over runs ----

  datatype Event =
    | MessageSent(message: Message)
    | Attempted(connected: bool, open: bool)
    | ChannelOpened(peer: string)

  function Step(n: Network, e: Event): Network {
    match e
    case MessageSent(m) => n.(queue := n.queue + [m])
    case Attempted(connected, open) => SendNext(n, connected, open)
    case ChannelOpened(peer) => OpenChannel(n, peer)
  }

  function Run(n: Network, events: seq<Event>): Network {
    if |events| == 0 then n else Step(Run(n, events[..|events| - 1]), events[|events| - 1])
  }

  function Contents(messages: seq<Message>): set<Message> {
    set m | m in messages :: Stored(m)
  }

  /** Every message, wherever it is, without its retry count. */
  function Everything(n: Network): set<Message> {
    Contents(n.queue) + n.parked.Values + Contents(n.delivered)
  }

  function AllTags(n: Network): set<string> {
    Tags(n.queue) + n.parked.Keys + Tags(n.delivered)
  }

  ghost predicate KeyedByTag(parked: map<string, Message>) {
    forall k :: k in parked ==> parked[k].tag == k && parked[k].retryCount == 0
  }

  /** Each tag is in one place, once, and no queued count has passed the limit. */
  ghost predicate Separated(n: Network) {
    && DistinctTags(n.queue)
    && DistinctTags(n.delivered)
    && KeyedByTag(n.parked)
    && Tags(n.queue) !! n.parked.Keys
    && Tags(n.queue) !! Tags(n.delivered)
    && n.parked.Keys !! Tags(n.delivered)
    && forall m :: m in n.queue ==> m.retryCount <= MAX_RETRIES
  }

  ghost predicate FreshlyTagged(n: Network, e: Event) {
    e.MessageSent? ==> e.message.retryCount == 0 && e.message.tag !in AllTags(n)
  }

  ghost predicate FreshRun(n: Network, events: seq<Event>) {
    |events| == 0
    || (var k := |events| - 1; FreshRun(n, events[..k]) && FreshlyTagged(Run(n, events[..k]), events[k]))
  }

  function SentBy(e: Event): set<Message> {
    if e.MessageSent? then {e.message} else {}
  }

  function SentIn(events: seq<Event>): set<Message> {
    set e | e in events && e.MessageSent? :: e.message
  }

  lemma EnqueueKeepsSeparated(n: Network, m: Message)
    requires Separated(n) && m.retryCount <= MAX_RETRIES && m.tag !in AllTags(n)
    ensures var n' := n.(queue := n.queue + [m]);
            Separated(n') && Everything(n') == Everything(n) + {Stored(m)}
  {
    MoveToEnd(n.queue, m);
  }

  lemma DeliverKeepsSeparated(n: Network, m: Message)
    requires Separated(n) && m.tag !in AllTags(n)
    ensures var n' := n.(delivered := n.delivered + [m]);
            Separated(n') && Everything(n') == Everything(n) + {Stored(m)}
  {
    MoveToEnd(n.delivered, m);
  }

  lemma ParkKeepsSeparated(n: Network, m: Message)
    requires Separated(n) && m.tag !in AllTags(n)
    ensures var n' := n.(parked := (n.parked - {m.tag})[m.tag := Stored(m)]);
            Separated(n') && Everything(n') == Everything(n) + {Stored(m)}
  {
    assert n.parked - {m.tag} == n.parked;
    ValuesGrow(n.parked, m.tag, Stored(m));
  }

  lemma TakeHead(n: Network)
    requires Separated(n) && |n.queue| > 0
    ensures var rest := n.(queue := n.queue[1..]);
            && Separated(rest)
            && n.queue[0].tag !in AllTags(rest)
            && Everything(n) == Everything(rest) + {Stored(n.queue[0])}
  {
    HeadTags(n.queue);
  }

  lemma AttemptKeepsSeparated(n: Network, connected: bool, open: bool)
    requires Separated(n)
    ensures Separated(SendNext(n, connected, open))
    ensures Everything(SendNext(n, connected, open)) == Everything(n)
  {
    if |n.queue| > 0 {
      var m, rest := n.queue[0], n.(queue := n.queue[1..]);
      TakeHead(n);
      if connected && open {
        DeliverKeepsSeparated(rest, m);
      } else {
        RetryKeepsSeparated(rest, m);
      }
    }
  }

  lemma RetryKeepsSeparated(n: Network, m: Message)
    requires Separated(n) && m.tag !in AllTags(n)
    ensures Separated(RetryMessage(n, m)) && Everything(RetryMessage(n, m)) == Everything(n) + {Stored(m)}
  {
    if m.retryCount >= MAX_RETRIES {
      ParkKeepsSeparated(n, m);
    } else {
      EnqueueKeepsSeparated(n, m.(retryCount := m.retryCount + 1));
    }
  }

  lemma MoveToEnd(messages: seq<Message>, m: Message)
    ensures Tags(messages + [m]) == Tags(messages) + {m.tag}
    ensures Contents(messages + [m]) == Contents(messages) + {Stored(m)}
    ensures DistinctTags(messages) && m.tag !in Tags(messages) ==> DistinctTags(messages + [m])
  {
  }

  lemma ValuesGrow(m: map<string, Message>, k: string, v: Message)
    requires k !in m
    ensures m[k := v].Values == m.Values + {v}
  {
    assert m[k := v][k] == v;
    assert forall j :: j in m ==> m[k := v][j] == m[j];
  }

  lemma PeerPart(parked: map<string, Message>, peer: string)
    requires KeyedByTag(parked)
    ensures var part := Where(parked, ToPeer(peer));
            forall k :: k in part ==> part[k].tag == k && part[k].retryCount == 0 && part[k].receiver == peer
  {
  }

  lemma ReplayedAt(parked: map<string, Message>, peer: string)
    requires KeyedByTag(parked)
    ensures var part, replayed := Where(parked, ToPeer(peer)), Replayed(parked, peer);
            var ks := Sorted(part.Keys);
            && |replayed| == |ks|
            && forall i :: 0 <= i < |ks| ==>
                 && ks[i] in part
                 && replayed[i] == part[ks[i]].(retryCount := 1)
                 && replayed[i].tag == ks[i]
                 && Stored(replayed[i]) == part[ks[i]]
                 && part[ks[i]].receiver == peer
  {
    var part := Where(parked, ToPeer(peer));
    var ks := Sorted(part.Keys);
    FilterScan(parked, ToPeer(peer));
    SortedKeys(part.Keys);
    PeerPart(parked, peer);
    assert Replayed(parked, peer) == Bumped(ValuesAt(part, ks));
    forall i | 0 <= i < |ks| ensures ks[i] in part { }
  }

  lemma ReplayIsDistinct(parked: map<string, Message>, peer: string)
    requires KeyedByTag(parked)
    ensures DistinctTags(Replayed(parked, peer))
  {
    var ks := Sorted(Where(parked, ToPeer(peer)).Keys);
    SortedKeys(Where(parked, ToPeer(peer)).Keys);
    ReplayedAt(parked, peer);
    forall i, j | 0 <= i < j < |ks| ensures ks[i] != ks[j] { LessAsymmetric(ks[i], ks[j]); }
  }

  lemma ReplayTags(parked: map<string, Message>, peer: string)
    requires KeyedByTag(parked)
    ensures Tags(Replayed(parked, peer)) == Where(parked, ToPeer(peer)).Keys
  {
    var part, replayed := Where(parked, ToPeer(peer)), Replayed(parked, peer);
    var ks := Sorted(part.Keys);
    SortedKeys(part.Keys);
    ReplayedAt(parked, peer);
    forall k | k in part ensures k in Tags(replayed) {
      var i :| 0 <= i < |ks| && ks[i] == k;
      assert replayed[i] in replayed;
    }
  }

  lemma ReplayContents(parked: map<string, Message>, peer: string)
    requires KeyedByTag(parked)
    ensures Contents(Replayed(parked, peer)) == Where(parked, ToPeer(peer)).Values
  {
    var part, replayed := Where(parked, ToPeer(peer)), Replayed(parked, peer);
    var ks := Sorted(part.Keys);
    SortedKeys(part.Keys);
    ReplayedAt(parked, peer);
    forall k | k in part ensures part[k] in Contents(replayed) {
      var i :| 0 <= i < |ks| && ks[i] == k;
      assert replayed[i] in replayed;
    }
  }

  /** The replay holds exactly the peer's parked messages, each once and with its count at one. */
  lemma ReplayIsPeers(parked: map<string, Message>, peer: string)
    requires KeyedByTag(parked)
    ensures var replayed := Replayed(parked, peer);
            && DistinctTags(replayed)
            && Tags(replayed) == Where(parked, ToPeer(peer)).Keys
            && Contents(replayed) == Where(parked, ToPeer(peer)).Values
            && (forall m :: m in replayed ==> m.retryCount == 1 && m.receiver == peer)
  {
    ReplayIsDistinct(parked, peer);
    ReplayTags(parked, peer);
    ReplayContents(parked, peer);
    ReplayedAt(parked, peer);
  }

  lemma AppendDistinct(a: seq<Message>, b: seq<Message>)
    requires DistinctTags(a) && DistinctTags(b) && Tags(a) !! Tags(b)
    ensures DistinctTags(a + b)
    ensures Tags(a + b) == Tags(a) + Tags(b)
    ensures Contents(a + b) == Contents(a) + Contents(b)
  {
    forall i, j | 0 <= i < |a| && 0 <= j < |b| ensures a[i].tag != b[j].tag {
      assert a[i].tag in Tags(a) && b[j].tag in Tags(b);
    }
  }

  lemma OpenKeepsSeparated(n: Network, peer: string)
    requires Separated(n)
    ensures Separated(OpenChannel(n, peer))
    ensures Everything(OpenChannel(n, peer)) == Everything(n)
    ensures forall k :: k in OpenChannel(n, peer).parked <==> k in n.parked && n.parked[k].receiver != peer
  {
    var part := Where(n.parked, ToPeer(peer));
    ReplayIsPeers(n.parked, peer);
    AppendDistinct(n.queue, Replayed(n.parked, peer));
    SplitValues(n.parked, ToPeer(peer));
  }

  lemma SplitValues(m: map<string, Message>, p: Message -> bool)
    ensures m.Values == Where(m, p).Values + (m - Where(m, p).Keys).Values
  {
    var part, rest := Where(m, p), m - Where(m, p).Keys;
    forall k | k in m ensures m[k] in part.Values + rest.Values {
      if p(m[k]) { assert part[k] == m[k]; } else { assert rest[k] == m[k]; }
    }
  }

  lemma StepKeepsSeparated(n: Network, e: Event)
    requires Separated(n) && FreshlyTagged(n, e)
    ensures Separated(Step(n, e))
    ensures Everything(Step(n, e)) == Everything(n) + SentBy(e)
  {
    match e
    case MessageSent(m) => EnqueueKeepsSeparated(n, m);
    case Attempted(connected, open) => AttemptKeepsSeparated(n, connected, open);
    case ChannelOpened(peer) => OpenKeepsSeparated(n, peer);
  }

  /** No message is lost, duplicated or altered between queue, store and delivery, in any freshly tagged run. */
  lemma {:induction false} RunConservesMessages(n: Network, events: seq<Event>)
    requires Separated(n) && FreshRun(n, events)
    ensures Separated(Run(n, events))
    ensures Everything(Run(n, events)) == Everything(n) + SentIn(events)
  {
    if |events| > 0 {
      var k := |events| - 1;
      RunConservesMessages(n, events[..k]);
      StepKeepsSeparated(Run(n, events[..k]), events[k]);
      SentLast(events);
    }
  }

  lemma SentLast(events: seq<Event>)
    requires |events| > 0
    ensures SentIn(events) == SentIn(events[..|events| - 1]) + SentBy(events[|events| - 1])
  {
    assert events == events[..|events| - 1] + [events[|events| - 1]];
  }

  /** And at any point of it an outage costs exactly 4 - c attempts for each queued count c. */
  lemma OutageAfterRun(n: Network, events: seq<Event>)
    requires Separated(n) && FreshRun(n, events)
    ensures var l := Run(n, events);
            var (end, attempts) := Drain(l);
            && (forall m :: m in l.queue ==> Attempts(m) == 4 - m.retryCount)
            && attempts == TotalAttempts(l.queue)
            && end.queue == [] && end.delivered == l.delivered
            && ParkedAll(l.parked, l.queue, end.parked)
  {
    RunConservesMessages(n, events);
    DrainParksAll(Run(n, events));
  }

  // ---- where the messages go ----

  lemma RunNext(n: Network, events: seq<Event>, e: Event)
    ensures Run(n, events + [e]) == Step(Run(n, events), e)
  {
    assert (events + [e])[..|events|] == events;
  }

  lemma {:induction false} RunConcat(n: Network, before: seq<Event>, after: seq<Event>)
    ensures Run(n, before + after) == Run(Run(n, before), after)
  {
    if |after| == 0 {
      assert before + after == before;
    } else {
      var init, e := after[..|after| - 1], after[|after| - 1];
      RunConcat(n, before, init);
      RunNext(n, before + init, e);
      ConcatLast(before, after);
    }
  }

  ghost predicate AllSucceed(events: seq<Event>) {
    forall e :: e in events ==> e.Attempted? && e.connected && e.open
  }

  /** Successful sends deliver the queue from its head, in order and as queued, and touch nothing else. */
  lemma {:induction false} SendsDeliver(n: Network, events: seq<Event>)
    requires AllSucceed(events) && |events| <= |n.queue|
    ensures Run(n, events) == Network(n.queue[|events|..], n.parked, n.delivered + n.queue[..|events|])
  {
    if |events| > 0 {
      var k := |events| - 1;
      SendsDeliver(n, events[..k]);
      assert events[k] in events;
      assert n.queue[..k + 1] == n.queue[..k] + [n.queue[k]];
      assert n.queue[k..][1..] == n.queue[k + 1..];
    }
  }

  ghost predicate AllFail(events: seq<Event>) {
    forall e :: e in events ==> e.Attempted? && !(e.connected && e.open)
  }

  /** Failed sends put the messages back behind the queue, in order, each with its count one higher. */
  lemma {:induction false} FailuresRequeue(n: Network, events: seq<Event>)
    requires AllFail(events) && |events| <= |n.queue|
    requires forall i :: 0 <= i < |events| ==> n.queue[i].retryCount < MAX_RETRIES
    ensures Run(n, events) == Network(n.queue[|events|..] + Bumped(n.queue[..|events|]), n.parked, n.delivered)
  {
    if |events| > 0 {
      var k := |events| - 1;
      FailuresRequeue(n, events[..k]);
      assert events[k] in events;
      assert Bumped(n.queue[..k + 1]) == Bumped(n.queue[..k]) + [n.queue[k].(retryCount := n.queue[k].retryCount + 1)];
      assert (n.queue[k..] + Bumped(n.queue[..k]))[1..] == n.queue[k + 1..] + Bumped(n.queue[..k]);
    }
  }

  lemma OpenThenSend(n: Network, peer: string, sends: seq<Event>)
    requires AllSucceed(sends) && |sends| == |OpenChannel(n, peer).queue|
    ensures Run(n, [ChannelOpened(peer)] + sends)
         == Network([], OpenChannel(n, peer).parked, n.delivered + (n.queue + Replayed(n.parked, peer)))
  {
    var ready := OpenChannel(n, peer);
    RunConcat(n, [ChannelOpened(peer)], sends);
    RunNext(n, [], ChannelOpened(peer));
    assert [] + [ChannelOpened(peer)] == [ChannelOpened(peer)];
    SendsDeliver(ready, sends);
    assert ready.queue[..|sends|] == ready.queue && ready.queue[|sends|..] == [];
  }

  /**
   * When a peer's channel opens and every send succeeds, what was queued and then what was parked for
   * the peer is delivered, in key order; the messages parked for others stay as they are.
   */
  lemma OpenedPeerIsServed(n: Network, peer: string, sends: seq<Event>)
    requires Separated(n) && AllSucceed(sends) && |sends| == |OpenChannel(n, peer).queue|
    ensures var end := Run(n, [ChannelOpened(peer)] + sends);
            && end.queue == []
            && end.delivered == n.delivered + (n.queue + Replayed(n.parked, peer))
            && (forall k :: k in n.parked && n.parked[k].receiver == peer ==> n.parked[k] in Contents(end.delivered))
            && (forall k :: k in end.parked <==> k in n.parked && n.parked[k].receiver != peer)
            && Keeps(end.parked, n.parked)
  {
    OpenThenSend(n, peer, sends);
    assert forall k :: k in OpenChannel(n, peer).parked <==> k in n.parked && n.parked[k].receiver != peer by {
      OpenKeepsSeparated(n, peer);
    }
    forall k | k in n.parked && n.parked[k].receiver == peer
      ensures n.parked[k] in Contents(n.delivered + (n.queue + Replayed(n.parked, peer)))
    {
      ReplayHas(n, peer, k);
    }
  }

  lemma ReplayHas(n: Network, peer: string, k: string)
    requires KeyedByTag(n.parked) && k in n.parked && n.parked[k].receiver == peer
    ensures n.parked[k] in Contents(n.delivered + (n.queue + Replayed(n.parked, peer)))
  {
    ReplayContents(n.parked, peer);
    assert Where(n.parked, ToPeer(peer))[k] == n.parked[k];
    assert n.parked[k] in Contents(Replayed(n.parked, peer));
    var m :| m in Replayed(n.parked, peer) && Stored(m) == n.parked[k];
    assert m in n.delivered + (n.queue + Replayed(n.parked, peer));
  }
}
