/** The event queue: requests, their promises, and the replies that resolve them. */
module Events {
  import opened Records

  /** An internal message (outgoing), a string notification, or any other event, with its tag. */
  datatype Event =
    | InternalMessage(tag: string, body: string)
    | StringNotification(tag: string, content: string)
    | OtherEvent(tag: string, body: string)

  /** The key a processed event resolves under: content for a string notification, no key for an internal message. */
  function Key(e: Event): Option<string> {
    match e
    case InternalMessage(_, _) => None
    case StringNotification(_, content) => Some(content)
    case OtherEvent(tag, _) => Some(tag)
  }

  datatype Resolution = Resolution(promise: nat, event: Event)

  /** Promises are numbered in the order they are created. */
  datatype Dispatcher = Dispatcher(
    queue: seq<Event>,
    promises: map<string, nat>,
    created: nat,
    resolved: seq<Resolution>,
    dispatched: seq<Event>)

  /** `emplace` keeps a promise that is already pending under the tag; the new one is dropped. */
  function AddPromise(d: Dispatcher, tag: string): Dispatcher {
    d.(promises := if tag in d.promises then d.promises else d.promises[tag := d.created], created := d.created + 1)
  }

  function SetResult(d: Dispatcher, tag: string, e: Event): Dispatcher {
    if tag in d.promises
    then d.(promises := d.promises - {tag}, resolved := d.resolved + [Resolution(d.promises[tag], e)])
    else d
  }

  function Enqueue(d: Dispatcher, e: Event): Dispatcher {
    d.(queue := d.queue + [e])
  }

  function Submit(d: Dispatcher, e: Event): Dispatcher {
    Enqueue(AddPromise(d, e.tag), e)
  }

  function ProcessOne(d: Dispatcher): Dispatcher {
    if |d.queue| == 0 then d
    else
      var e, rest := d.queue[0], d.(queue := d.queue[1..]);
      var settled := if Key(e).Some? then SetResult(rest, Key(e).value, e) else rest;
      settled.(dispatched := settled.dispatched + [e])
  }

  class PromiseStore {
    var promises: map<string, nat>
    var created: nat
    var resolved: seq<Resolution>

    constructor ()
      ensures promises == map[] && created == 0 && resolved == []
    {
      promises, created, resolved := map[], 0, [];
    }

    method Add(tag: string) returns (promise: nat)
      modifies this
      ensures promise == old(created) && created == promise + 1
      ensures promises == if tag in old(promises) then old(promises) else old(promises)[tag := promise]
      ensures resolved == old(resolved)
    {
      promise := created;
      created := created + 1;
      if tag !in promises { promises := promises[tag := promise]; }
    }

    /** Answers false when it resolved a promise and true when there was none. */
    method SetResult(tag: string, e: Event) returns (missing: bool)
      modifies this
      ensures missing <==> tag !in old(promises)
      ensures promises == old(promises) - {tag} && created == old(created)
      ensures resolved == if missing then old(resolved) else old(resolved) + [Resolution(old(promises)[tag], e)]
    {
      if tag in promises {
        resolved := resolved + [Resolution(promises[tag], e)];
        promises := promises - {tag};
        return false;
      }
      return true;
    }
  }

  class EventQueue {
    const store: PromiseStore
    var queue: seq<Event>
    var dispatched: seq<Event>

    ghost function State(): Dispatcher
      reads this, store
    {
      Dispatcher(queue, store.promises, store.created, store.resolved, dispatched)
    }

    constructor ()
      ensures State() == Dispatcher([], map[], 0, [], [])
      ensures fresh(store)
    {
      store := new PromiseStore();
      queue, dispatched := [], [];
    }

    method EnqueueEvent(e: Event)
      modifies this
      ensures State() == Enqueue(old(State()), e)
    {
      queue := queue + [e];
    }

    method CreateAwaitable(tag: string) returns (promise: nat)
      modifies store
      ensures State() == AddPromise(old(State()), tag) && promise == old(State()).created
    {
      promise := store.Add(tag);
    }

    method SubmitEvent(e: Event) returns (promise: nat)
      modifies this, store
      ensures State() == Submit(old(State()), e) && promise == old(State()).created
    {
      promise := store.Add(e.tag);
      queue := queue + [e];
    }

    method Process() returns (taken: bool)
      modifies this, store
      ensures taken <==> |old(queue)| > 0
      ensures State() == ProcessOne(old(State()))
    {
      if |queue| == 0 { return false; }
      var e := queue[0];
      queue := queue[1..];
      match e {
        case InternalMessage(_, _) =>
        case StringNotification(_, content) =>
          var missing := store.SetResult(content, e);
          assert missing ==> store.promises == old(store.promises);
        case OtherEvent(tag, _) =>
          var missing := store.SetResult(tag, e);
          assert missing ==> store.promises == old(store.promises);
      }
      dispatched := dispatched + [e];
      return true;
    }
  }

  // ---- runs ----

  datatype Call =
    | SubmitCall(event: Event)
    | EnqueueCall(event: Event)
    | AwaitCall(tag: string)
    | ProcessCall

  function Step(d: Dispatcher, c: Call): Dispatcher {
    match c
    case SubmitCall(e) => Submit(d, e)
    case EnqueueCall(e) => Enqueue(d, e)
    case AwaitCall(tag) => AddPromise(d, tag)
    case ProcessCall => ProcessOne(d)
  }

  function Run(d: Dispatcher, calls: seq<Call>): Dispatcher {
    if |calls| == 0 then d else Step(Run(d, calls[..|calls| - 1]), calls[|calls| - 1])
  }

  /** Promise numbers are used once: pending under one tag, or resolved once, and all were created. */
  ghost predicate Numbered(d: Dispatcher) {
    && (forall t :: t in d.promises ==> d.promises[t] < d.created)
    && (forall t, u :: t in d.promises && u in d.promises && t != u ==> d.promises[t] != d.promises[u])
    && (forall i :: 0 <= i < |d.resolved| ==> d.resolved[i].promise < d.created)
    && (forall i, j :: 0 <= i < j < |d.resolved| ==> d.resolved[i].promise != d.resolved[j].promise)
    && (forall i, t :: 0 <= i < |d.resolved| && t in d.promises ==> d.resolved[i].promise != d.promises[t])
  }

  lemma SetResultKeepsNumbered(d: Dispatcher, tag: string, e: Event)
    requires Numbered(d)
    ensures Numbered(SetResult(d, tag, e))
  {
  }

  lemma AddKeepsNumbered(d: Dispatcher, tag: string)
    requires Numbered(d)
    ensures Numbered(AddPromise(d, tag))
  {
  }

  lemma StepKeepsNumbered(d: Dispatcher, c: Call)
    requires Numbered(d)
    ensures Numbered(Step(d, c))
  {
    match c
    case SubmitCall(e) => AddKeepsNumbered(d, e.tag);
    case AwaitCall(tag) => AddKeepsNumbered(d, tag);
    case EnqueueCall(_) =>
    case ProcessCall =>
      if |d.queue| > 0 && Key(d.queue[0]).Some? {
        SetResultKeepsNumbered(d.(queue := d.queue[1..]), Key(d.queue[0]).value, d.queue[0]);
      }
  }

  /** In every run, whatever the tags, each promise is resolved at most once. */
  lemma {:induction false} ResolvedAtMostOnce(d: Dispatcher, calls: seq<Call>)
    requires Numbered(d)
    ensures Numbered(Run(d, calls))
  {
    if |calls| > 0 {
      ResolvedAtMostOnce(d, calls[..|calls| - 1]);
      StepKeepsNumbered(Run(d, calls[..|calls| - 1]), calls[|calls| - 1]);
    }
  }

  /** The events a run has dispatched, in order. */
  function Dispatched(d: Dispatcher, calls: seq<Call>): seq<Event> {
    if |calls| == 0 then []
    else
      var before := Run(d, calls[..|calls| - 1]);
      Dispatched(d, calls[..|calls| - 1]) + DispatchedBy(before, calls[|calls| - 1])
  }

  function DispatchedBy(d: Dispatcher, c: Call): seq<Event> {
    if c.ProcessCall? && |d.queue| > 0 then [d.queue[0]] else []
  }

  /** A reply under the tag: no internal message; a string notification by its content, any other by its tag. */
  predicate Answers(e: Event, tag: string) {
    !e.InternalMessage? && tag == if e.StringNotification? then e.content else e.tag
  }

  function FirstAnswer(events: seq<Event>, tag: string): Option<Event> {
    if |events| == 0 then None
    else if Answers(events[0], tag) then Some(events[0])
    else FirstAnswer(events[1..], tag)
  }

  lemma {:induction false} FirstAnswerNext(events: seq<Event>, e: Event, tag: string)
    ensures FirstAnswer(events + [e], tag)
         == if FirstAnswer(events, tag).Some? then FirstAnswer(events, tag)
            else if Answers(e, tag) then Some(e) else None
  {
    if |events| > 0 {
      FirstAnswerNext(events[1..], e, tag);
      assert (events + [e])[1..] == events[1..] + [e];
    } else {
      assert (events + [e])[1..] == [];
    }
  }

  ghost predicate IsPending(d: Dispatcher, promise: nat, tag: string) {
    tag in d.promises && d.promises[tag] == promise
  }

  /** Resolved once, by `e`, and pending nowhere. */
  ghost predicate IsResolvedBy(d: Dispatcher, promise: nat, e: Event) {
    && Resolution(promise, e) in d.resolved
    && (forall r :: r in d.resolved && r.promise == promise ==> r.event == e)
    && promise !in d.promises.Values
  }

  ghost predicate IsUnresolved(d: Dispatcher, promise: nat) {
    forall r :: r in d.resolved ==> r.promise != promise
  }

  /** What became of a promise pending under `tag`, given the first matching event since. */
  ghost predicate Settles(d: Dispatcher, promise: nat, tag: string, first: Option<Event>) {
    match first
    case None => IsPending(d, promise, tag) && IsUnresolved(d, promise)
    case Some(e) => IsResolvedBy(d, promise, e)
  }

  lemma ProcessSettles(d: Dispatcher, promise: nat, tag: string, first: Option<Event>)
    requires Numbered(d) && |d.queue| > 0 && promise < d.created
    requires Settles(d, promise, tag, first)
    ensures Settles(ProcessOne(d), promise, tag,
                    if first.Some? then first else if Answers(d.queue[0], tag) then Some(d.queue[0]) else None)
  {
    var e, d' := d.queue[0], ProcessOne(d);
    if Key(e).Some? && Key(e).value in d.promises {
      assert d'.resolved == d.resolved + [Resolution(d.promises[Key(e).value], e)];
    }
  }

  /**
   * The fate of a pending promise in every run: it stays pending and unresolved until the first reply
   * dispatched under its tag, and is resolved by exactly that one.
   */
  lemma {:induction false} ResolvedByFirstReply(d: Dispatcher, calls: seq<Call>, promise: nat, tag: string)
    requires Numbered(d) && IsPending(d, promise, tag)
    ensures Settles(Run(d, calls), promise, tag, FirstAnswer(Dispatched(d, calls), tag))
  {
    if |calls| == 0 {
      assert FirstAnswer([], tag) == None;
    } else {
      var init, c := calls[..|calls| - 1], calls[|calls| - 1];
      var before := Run(d, init);
      ResolvedByFirstReply(d, init, promise, tag);
      ResolvedAtMostOnce(d, init);
      CreatedGrows(d, init);
      StepSettles(before, c, promise, tag, Dispatched(d, init));
    }
  }

  lemma StepSettles(d: Dispatcher, c: Call, promise: nat, tag: string, seen: seq<Event>)
    requires Numbered(d) && promise < d.created
    requires Settles(d, promise, tag, FirstAnswer(seen, tag))
    ensures Settles(Step(d, c), promise, tag, FirstAnswer(seen + DispatchedBy(d, c), tag))
  {
    if c.ProcessCall? && |d.queue| > 0 {
      FirstAnswerNext(seen, d.queue[0], tag);
      ProcessSettles(d, promise, tag, FirstAnswer(seen, tag));
    } else {
      assert seen + DispatchedBy(d, c) == seen;
    }
  }

  lemma {:induction false} CreatedGrows(d: Dispatcher, calls: seq<Call>)
    ensures Run(d, calls).created >= d.created
  {
    if |calls| > 0 { CreatedGrows(d, calls[..|calls| - 1]); }
  }

  /** A submitted request becomes pending exactly when no other promise waits under its tag. */
  lemma SubmittedIsPendingIff(d: Dispatcher, e: Event)
    requires Numbered(d)
    ensures Numbered(Submit(d, e))
    ensures IsPending(Submit(d, e), d.created, e.tag) <==> e.tag !in d.promises
  {
    StepKeepsNumbered(d, SubmitCall(e));
  }

  /** One submitted under a taken tag is dropped: no run ever resolves it. */
  lemma {:induction false} DroppedIsNeverResolved(d: Dispatcher, e: Event, calls: seq<Call>)
    requires Numbered(d) && e.tag in d.promises
    ensures var d' := Run(Submit(d, e), calls);
            d'.created > d.created && d.created !in d'.promises.Values && IsUnresolved(d', d.created)
  {
    if |calls| > 0 {
      var init := calls[..|calls| - 1];
      DroppedIsNeverResolved(d, e, init);
    }
  }

  /** What a run resolves, it resolves by replies it dispatched; an internal message resolves nothing. */
  lemma {:induction false} ResolvedByReplies(d: Dispatcher, calls: seq<Call>)
    ensures d.resolved <= Run(d, calls).resolved
    ensures forall i :: |d.resolved| <= i < |Run(d, calls).resolved| ==>
              !Run(d, calls).resolved[i].event.InternalMessage?
              && Run(d, calls).resolved[i].event in Dispatched(d, calls)
  {
    if |calls| > 0 { ResolvedByReplies(d, calls[..|calls| - 1]); }
  }

  /** Every event taken from the queue reaches the listeners, internal messages included. */
  lemma {:induction false} DispatchIsRecorded(d: Dispatcher, calls: seq<Call>)
    ensures Run(d, calls).dispatched == d.dispatched + Dispatched(d, calls)
  {
    if |calls| > 0 { DispatchIsRecorded(d, calls[..|calls| - 1]); }
  }

  /** Events are dispatched in the order they were queued. */
  function QueuedBy(c: Call): seq<Event> {
    match c
    case SubmitCall(e) => [e]
    case EnqueueCall(e) => [e]
    case _ => []
  }

  function QueuedIn(calls: seq<Call>): seq<Event> {
    if |calls| == 0 then [] else QueuedIn(calls[..|calls| - 1]) + QueuedBy(calls[|calls| - 1])
  }

  lemma {:induction false} DispatchIsFifo(d: Dispatcher, calls: seq<Call>)
    ensures d.queue + QueuedIn(calls) == Dispatched(d, calls) + Run(d, calls).queue
  {
    if |calls| > 0 {
      var init, c := calls[..|calls| - 1], calls[|calls| - 1];
      var before := Run(d, init);
      DispatchIsFifo(d, init);
      StepFifo(before, c);
      Interchange(d.queue, QueuedIn(init), Dispatched(d, init), before.queue,
                  QueuedBy(c), DispatchedBy(before, c), Step(before, c).queue);
    }
  }

  lemma StepFifo(d: Dispatcher, c: Call)
    ensures d.queue + QueuedBy(c) == DispatchedBy(d, c) + Step(d, c).queue
  {
    if c.ProcessCall? && |d.queue| > 0 { assert d.queue == [d.queue[0]] + d.queue[1..]; }
  }

  // ---- `event_of_type` ----

  datatype Listening = Waiting(count: int) | Heard(event: Event)

  /** The listener's callback: count down on a match, and answer with the event at hand once at zero. */
  function Notify(l: Listening, e: Event, matches: Event -> bool): Listening {
    match l
    case Heard(_) => l
    case Waiting(count) =>
      var left := if matches(e) then count - 1 else count;
      if left <= 0 then Heard(e) else Waiting(left)
  }

  function NotifyAll(l: Listening, events: seq<Event>, matches: Event -> bool): Listening {
    if |events| == 0 then l
    else Notify(NotifyAll(l, events[..|events| - 1], matches), events[|events| - 1], matches)
  }

  /** Asked for at least one event, the listener hears exactly the count-th match, however many follow. */
  lemma {:induction false} HearsTheCountth(count: int, events: seq<Event>, matches: Event -> bool)
    requires count >= 1
    ensures |Filter(events, matches)| >= count ==>
              NotifyAll(Waiting(count), events, matches) == Heard(Filter(events, matches)[count - 1])
    ensures |Filter(events, matches)| < count ==>
              NotifyAll(Waiting(count), events, matches) == Waiting(count - |Filter(events, matches)|)
  {
    if |events| > 0 { HearsTheCountth(count, events[..|events| - 1], matches); }
  }

  /** Asked for none, it answers with the first event of the type, whether that matches or not. */
  lemma {:induction false} CountZeroHearsAnything(count: int, events: seq<Event>, matches: Event -> bool)
    requires count <= 0 && |events| > 0
    ensures NotifyAll(Waiting(count), events, matches) == Heard(events[0])
  {
    if |events| == 1 {
      assert events[..0] == [];
    } else {
      CountZeroHearsAnything(count, events[..|events| - 1], matches);
    }
  }
}
