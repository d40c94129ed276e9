/** internal/task/queue.go: the work queue that triggers syncs.

    The worker drops an element whose timestamp is older than the start of the last successful
    sync, and re-adds the key of a failed sync with a new timestamp.  Neither loses a request:
    at every point of every run, each accepted request is still pending, is being worked on by a
    sync that started after it, or was followed by the start of a successful sync.

    Enqueueing happens at any time, also between the worker's own steps, so the worker's loop is
    cut into the steps at which other calls can come in between.
 */
module TaskQueue {
  import opened Types

  datatype Element = Element(key: string, timestamp: int)

  /** A call of enqueue that was accepted, and when. */
  datatype Request = Request(key: string, at: int)

  /** What the worker is doing: waiting, holding an element, or syncing it since a certain time. */
  datatype Work = Idle | Fetched(item: Element) | Syncing(item: Element, started: int)

  /** The work queue (queue, dirty, delayed), the worker, and what has happened so far. */
  datatype State = State(
    queue: seq<Element>, dirty: set<Element>, delayed: set<Element>, work: Work, lastSync: int,
    clock: int, requests: set<Request>, successes: set<int>)

  const InitialState := State([], {}, {}, Idle, 0, 0, {}, {})

  const Day := 24 * 60 * 60 * 1_000_000_000

  /** Any order of these is a run; now is the clock reading each of them takes. */
  datatype Action =
    | Enqueue(key: Option<string>, skippable: bool, now: int)
    | Fetch
    | Start(now: int)
    | Finish(ok: bool, now: int)
    | Release(element: Element)

  // ---------------------------------------------------------------- the client-go work queue

  predicate InFlight(s: State, e: Element) { !s.work.Idle? && s.work.item == e }

  /** workqueue Add: one entry per distinct element; an element being processed waits for Done. */
  function Add(s: State, e: Element): State {
    if e in s.dirty then s
    else if InFlight(s, e) then s.(dirty := s.dirty + {e})
    else s.(dirty := s.dirty + {e}, queue := s.queue + [e])
  }

  /** workqueue Done. */
  function Done(s: State): State
    requires !s.work.Idle?
  {
    if s.work.item in s.dirty then s.(queue := s.queue + [s.work.item], work := Idle)
    else s.(work := Idle)
  }

  // ---------------------------------------------------------------- the queue's own steps

  function Timestamp(skippable: bool, now: int): int {
    if skippable then now else now + Day
  }

  function Step(s: State, a: Action): State {
    match a
    case Enqueue(key, skippable, now) =>
      if key.None? then s.(clock := now) else
      var s' := Add(s.(clock := now), Element(key.value, Timestamp(skippable, now)));
      s'.(requests := s.requests + {Request(key.value, now)})
    case Fetch =>
      if s.work.Idle? && s.queue != []
      then s.(queue := s.queue[1..], dirty := s.dirty - {s.queue[0]}, work := Fetched(s.queue[0]))
      else s
    case Start(now) =>
      if !s.work.Fetched? then s.(clock := now)
      else if s.lastSync > s.work.item.timestamp then Done(s.(clock := now))
      else s.(clock := now, work := Syncing(s.work.item, now))
    case Finish(ok, now) =>
      if !s.work.Syncing? then s.(clock := now)
      else if ok then
        Done(s.(clock := now, lastSync := s.work.started, successes := s.successes + {s.work.started}))
      else
        Done(s.(clock := now, delayed := s.delayed + {Element(s.work.item.key, now)}))
    case Release(e) =>
      if e in s.delayed then Add(s.(delayed := s.delayed - {e}), e) else s
  }

  /** The clock never runs backwards. */
  predicate Timely(s: State, a: Action) {
    (a.Enqueue? || a.Start? || a.Finish?) ==> s.clock <= a.now
  }

  ghost predicate TimelyRun(s: State, actions: seq<Action>)
    decreases actions
  {
    actions == [] || (Timely(s, actions[0]) && TimelyRun(Step(s, actions[0]), actions[1..]))
  }

  function Run(s: State, actions: seq<Action>): State
    decreases actions
  {
    if actions == [] then s else Run(Step(s, actions[0]), actions[1..])
  }

  // ---------------------------------------------------------------- the code

  class Queue {
    var queue: seq<Element>
    var dirty: set<Element>
    var delayed: set<Element>
    var work: Work
    var lastSync: int
    ghost var clock: int
    ghost var requests: set<Request>
    ghost var successes: set<int>

    ghost function Current(): State
      reads this
    {
      State(queue, dirty, delayed, work, lastSync, clock, requests, successes)
    }

    constructor ()
      ensures Current() == InitialState
    {
      queue, dirty, delayed, work, lastSync := [], {}, {}, Idle, 0;
      clock, requests, successes := 0, {}, {};
    }

    method AddElement(e: Element)
      modifies this`queue, this`dirty
      ensures Current() == Add(old(Current()), e)
    {
      if e in dirty {
        return;
      }
      dirty := dirty + {e};
      if work != Idle && work.item == e {
        return;
      }
      queue := queue + [e];
    }

    method DoneElement()
      requires !work.Idle?
      modifies this`queue, this`work
      ensures Current() == Done(old(Current()))
    {
      if work.item in dirty {
        queue := queue + [work.item];
      }
      work := Idle;
    }

    /** enqueue; the key is absent when the key function fails. */
    method EnqueueObject(key: Option<string>, skippable: bool, now: int)
      modifies this
      ensures Current() == Step(old(Current()), Enqueue(key, skippable, now))
    {
      clock := now;
      var ts := now;
      if !skippable {
        ts := now + Day;
      }
      if key.None? {
        return;
      }
      AddElement(Element(key.value, ts));
      requests := requests + {Request(key.value, now)};
    }

    /** worker: queue.Get. */
    method FetchElement()
      modifies this
      ensures Current() == Step(old(Current()), Fetch)
    {
      if work.Idle? && queue != [] {
        var item := queue[0];
        queue, dirty, work := queue[1..], dirty - {item}, Fetched(item);
      }
    }

    /** worker: the timestamp check, which drops the element or starts a sync. */
    method StartSync(now: int)
      modifies this
      ensures Current() == Step(old(Current()), Start(now))
    {
      clock := now;
      if !work.Fetched? {
        return;
      }
      if lastSync > work.item.timestamp {
        DoneElement();
        return;
      }
      work := Syncing(work.item, now);
    }

    /** worker: after sync has returned. */
    method FinishSync(ok: bool, now: int)
      modifies this
      ensures Current() == Step(old(Current()), Finish(ok, now))
    {
      clock := now;
      if !work.Syncing? {
        return;
      }
      if !ok {
        delayed := delayed + {Element(work.item.key, now)};
      } else {
        lastSync := work.started;
        successes := successes + {work.started};
      }
      DoneElement();
    }

    /** A rate-limited element becomes due. */
    method ReleaseElement(e: Element)
      modifies this
      ensures Current() == Step(old(Current()), Release(e))
    {
      if e in delayed {
        delayed := delayed - {e};
        AddElement(e);
      }
    }
  }

  // ---------------------------------------------------------------- no request is lost

  predicate Carries(e: Element, r: Request) { e.key == r.key && e.timestamp >= r.at }

  ghost predicate Pending(s: State, r: Request) {
    exists e :: e in s.dirty + s.delayed && Carries(e, r)
  }

  /** The worker holds an element for r and has not started its sync before r came in. */
  ghost predicate BeingServed(s: State, r: Request) {
    !s.work.Idle? && Carries(s.work.item, r) && (s.work.Syncing? ==> r.at <= s.work.started)
  }

  ghost predicate Served(s: State, r: Request) {
    exists t :: t in s.successes && r.at <= t
  }

  ghost predicate Safe(s: State, r: Request) {
    Pending(s, r) || BeingServed(s, r) || Served(s, r)
  }

  /** The queue holds each waiting element once, and every waiting element except the one in flight. */
  ghost predicate WellQueued(s: State) {
    && (forall i, j :: 0 <= i < j < |s.queue| ==> s.queue[i] != s.queue[j])
    && (forall e :: e in s.queue <==> e in s.dirty && !InFlight(s, e))
  }

  /** Times are in order: no request or sync start lies in the future, and lastSync is the last success. */
  ghost predicate InOrder(s: State) {
    && 0 <= s.lastSync <= s.clock
    && (s.lastSync == 0 || s.lastSync in s.successes)
    && (forall t :: t in s.successes ==> t <= s.lastSync)
    && (s.work.Syncing? ==> s.lastSync <= s.work.started <= s.clock)
    && (forall r :: r in s.requests ==> 0 <= r.at <= s.clock)
  }

  ghost predicate Invariant(s: State) {
    && WellQueued(s)
    && InOrder(s)
    && forall r :: r in s.requests ==> Safe(s, r)
  }

  lemma AddKeepsQueue(s: State, e: Element)
    requires WellQueued(s)
    ensures WellQueued(Add(s, e)) && Add(s, e).dirty == s.dirty + {e}
  {
  }

  lemma DoneKeepsQueue(s: State)
    requires WellQueued(s) && !s.work.Idle?
    ensures WellQueued(Done(s)) && Done(s).dirty == s.dirty
  {
  }

  lemma StepKeepsQueue(s: State, a: Action)
    requires WellQueued(s)
    ensures WellQueued(Step(s, a))
  {
    match a
    case Enqueue(key, skippable, now) =>
      if key.Some? {
        AddKeepsQueue(s.(clock := now), Element(key.value, Timestamp(skippable, now)));
      }
    case Fetch =>
      if s.work.Idle? && s.queue != [] {
        assert s.queue[0] in s.queue;
        var s' := Step(s, a);
        forall e ensures e in s'.queue <==> e in s'.dirty && !InFlight(s', e) {
          assert e in s.queue <==> e == s.queue[0] || e in s'.queue;
        }
      }
    case Start(now) =>
      if s.work.Fetched? && s.lastSync > s.work.item.timestamp {
        DoneKeepsQueue(s.(clock := now));
      }
    case Finish(ok, now) =>
      if s.work.Syncing? {
        DoneKeepsQueue(s.(clock := now, lastSync := s.work.started, successes := s.successes + {s.work.started}));
        DoneKeepsQueue(s.(clock := now, delayed := s.delayed + {Element(s.work.item.key, now)}));
      }
    case Release(e) =>
      if e in s.delayed {
        AddKeepsQueue(s.(delayed := s.delayed - {e}), e);
      }
  }

  lemma StepKeepsOrder(s: State, a: Action)
    requires InOrder(s) && Timely(s, a)
    ensures InOrder(Step(s, a))
    ensures s.lastSync <= Step(s, a).lastSync
  {
  }

  /** Each request that was safe stays safe, for the reason that fits the step. */
  lemma StepKeepsSafe(s: State, a: Action, r: Request)
    requires WellQueued(s) && InOrder(s) && Timely(s, a)
    requires r in s.requests && Safe(s, r)
    ensures Safe(Step(s, a), r)
  {
    var s' := Step(s, a);
    if BeingServed(s, r) {
      if a.Start? && s.work.Fetched? && s.lastSync > s.work.item.timestamp {
        assert s.lastSync in s'.successes;
      } else if a.Finish? && s.work.Syncing? {
        if a.ok {
          assert s.work.started in s'.successes;
        } else {
          assert Element(s.work.item.key, a.now) in s'.dirty + s'.delayed;
        }
      }
    } else if Served(s, r) {
      var t :| t in s.successes && r.at <= t;
      assert t in s'.successes;
    } else {
      var e :| e in s.dirty + s.delayed && Carries(e, r);
      if e in s'.dirty + s'.delayed {
        assert Pending(s', r);
      }
    }
  }

  lemma StepKeepsInvariant(s: State, a: Action)
    requires Invariant(s) && Timely(s, a)
    ensures Invariant(Step(s, a))
  {
    StepKeepsQueue(s, a);
    StepKeepsOrder(s, a);
    var s' := Step(s, a);
    forall r | r in s'.requests ensures Safe(s', r) {
      if r in s.requests {
        StepKeepsSafe(s, a, r);
      } else {
        assert Element(r.key, Timestamp(a.skippable, a.now)) in s'.dirty + s'.delayed;
      }
    }
  }

  lemma {:induction false} RunKeepsInvariant(s: State, actions: seq<Action>)
    requires Invariant(s) && TimelyRun(s, actions)
    ensures Invariant(Run(s, actions))
    ensures s.lastSync <= Run(s, actions).lastSync
    decreases actions
  {
    if actions == [] {
    } else {
      StepKeepsOrder(s, actions[0]);
      StepKeepsInvariant(s, actions[0]);
      RunKeepsInvariant(Step(s, actions[0]), actions[1..]);
    }
  }

  /** At every point of every run from the empty queue. */
  lemma {:induction false} NoRequestIsLost(actions: seq<Action>, r: Request)
    requires TimelyRun(InitialState, actions)
    requires r in Run(InitialState, actions).requests
    ensures Safe(Run(InitialState, actions), r)
  {
    RunKeepsInvariant(InitialState, actions);
  }

  /** When the queue has run dry, a successful sync has started since every request. */
  lemma {:induction false} DrainedMeansServed(actions: seq<Action>, r: Request)
    requires TimelyRun(InitialState, actions)
    requires
      var s := Run(InitialState, actions);
      s.work.Idle? && s.queue == [] && s.delayed == {} && r in s.requests
    ensures r.at <= Run(InitialState, actions).lastSync
  {
    RunKeepsInvariant(InitialState, actions);
    var s := Run(InitialState, actions);
    assert s.dirty == {} by {
      assert forall e :: e in s.dirty ==> e in s.queue;
    }
    assert Served(s, r);
    var t :| t in s.successes && r.at <= t;
  }
}
