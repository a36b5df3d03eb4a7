/**
 * The worker service's topic dispatcher (Consumer): one reader per topic feeding a bounded job
 * queue, a handler table keyed by topic, the workers that route each job to its handler, and the
 * shutdown that drains the queue and then closes the readers.
 *
 * Goroutines are not modelled: a reader loop runs over a finite sequence of read results, and a
 * single worker drains the queue.  Handlers are opaque ids; whether a handler call fails is given
 * by a parameter, because a failure is only logged.
 */
module KafkaConsumer {
  import opened Optional
  import opened Events

  /** Capacity of the jobs channel. */
  const QueueCapacity: nat := 1000
  /** Number of worker goroutines Start launches. */
  const KafkaWorkers: nat := 10

  type Bytes = seq<bv8>

  /** Stands for one registered MessageProcessor. */
  type HandlerId = nat

  datatype KafkaMessage = KafkaMessage(topic: string, value: Bytes)

  /** One invocation of a handler on a message value. */
  datatype Call = Call(handler: HandlerId, value: Bytes)

  datatype ReadError = Canceled | DeadlineExceeded | GroupClosed | OtherError
  datatype ReadResult = Read(value: Bytes) | Failed(err: ReadError)

  /** What a reader loop does with one ReadMessage result. */
  datatype Action = Stop | Retry | Enqueue(value: Bytes)

  /** Cancellation, deadline and a closed group stop the reader; any other error retries; a message is enqueued. */
  function Classify(r: ReadResult): (a: Action)
    ensures a.Stop? <==> r.Failed? && r.err != OtherError
    ensures a.Retry? <==> r == Failed(OtherError)
    ensures a.Enqueue? <==> r.Read?
    ensures a.Enqueue? ==> a.value == r.value
  {
    match r
    case Read(v) => Enqueue(v)
    case Failed(e) => if e == OtherError then Retry else Stop
  }

  /** Position of the first read result that stops the reader, or |rs| if none does. */
  function StopIndex(rs: seq<ReadResult>): (k: nat)
    ensures k <= |rs|
    ensures forall j :: 0 <= j < k ==> !Classify(rs[j]).Stop?
    ensures k < |rs| ==> Classify(rs[k]).Stop?
    decreases |rs|
  {
    if rs == [] then 0
    else if Classify(rs[0]).Stop? then 0
    else 1 + StopIndex(rs[1..])
  }

  /** The jobs a reader for topic t enqueues from the read results rs, in order. */
  function Fetched(t: string, rs: seq<ReadResult>): seq<KafkaMessage>
    decreases |rs|
  {
    if rs == [] then []
    else
      var last := rs[|rs| - 1];
      Fetched(t, rs[..|rs| - 1]) + (if last.Read? then [KafkaMessage(t, last.value)] else [])
  }

  /** Reading more results only appends to what a reader has enqueued. */
  lemma {:induction false} FetchedPrefix(t: string, rs: seq<ReadResult>, a: nat, b: nat)
    requires a <= b <= |rs|
    ensures |Fetched(t, rs[..a])| <= |Fetched(t, rs[..b])|
    ensures Fetched(t, rs[..b])[..|Fetched(t, rs[..a])|] == Fetched(t, rs[..a])
    decreases b - a
  {
    if a < b {
      FetchedPrefix(t, rs, a, b - 1);
      assert rs[..b][..b - 1] == rs[..b - 1];
      var x := Fetched(t, rs[..a]);
      var y := Fetched(t, rs[..b - 1]);
      assert Fetched(t, rs[..b])[..|y|] == y;
      assert Fetched(t, rs[..b])[..|y|][..|x|] == x;
    }
  }

  /** A reader for t enqueues a job exactly when it read that value, and every job carries topic t. */
  lemma {:induction false} FetchedMembers(t: string, rs: seq<ReadResult>, m: KafkaMessage)
    ensures m in Fetched(t, rs) <==> m.topic == t && exists j :: 0 <= j < |rs| && rs[j] == Read(m.value)
    decreases |rs|
  {
    if rs != [] {
      var init := rs[..|rs| - 1];
      FetchedMembers(t, init, m);
      if m.topic == t && exists j :: 0 <= j < |rs| && rs[j] == Read(m.value) {
        var j :| 0 <= j < |rs| && rs[j] == Read(m.value);
        if j < |rs| - 1 {
          assert init[j] == rs[j];
        }
      }
      if exists j :: 0 <= j < |init| && init[j] == Read(m.value) {
        var j :| 0 <= j < |init| && init[j] == Read(m.value);
        assert rs[j] == init[j];
      }
    }
  }

  /** The handler calls a worker makes for jobs js: one per job whose topic has a handler, in order. */
  function Routed(h: map<string, HandlerId>, js: seq<KafkaMessage>): seq<Call>
    decreases |js|
  {
    if js == [] then []
    else
      var last := js[|js| - 1];
      Routed(h, js[..|js| - 1]) + (if last.topic in h then [Call(h[last.topic], last.value)] else [])
  }

  /** A call is made exactly for a job whose topic is registered, with that topic's handler and the job's value. */
  lemma {:induction false} RoutedMembers(h: map<string, HandlerId>, js: seq<KafkaMessage>, c: Call)
    ensures c in Routed(h, js) <==> exists j :: 0 <= j < |js| && js[j].topic in h && c == Call(h[js[j].topic], js[j].value)
    decreases |js|
  {
    if js != [] {
      var init := js[..|js| - 1];
      RoutedMembers(h, init, c);
      if exists j :: 0 <= j < |js| && js[j].topic in h && c == Call(h[js[j].topic], js[j].value) {
        var j :| 0 <= j < |js| && js[j].topic in h && c == Call(h[js[j].topic], js[j].value);
        if j < |js| - 1 {
          assert init[j] == js[j];
        }
      }
      if exists j :: 0 <= j < |init| && init[j].topic in h && c == Call(h[init[j].topic], init[j].value) {
        var j :| 0 <= j < |init| && init[j].topic in h && c == Call(h[init[j].topic], init[j].value);
        assert js[j] == init[j];
      }
    }
  }

  /** When every job's topic is registered, there is exactly one call per job, job by job. */
  lemma {:induction false} RoutedAllRegistered(h: map<string, HandlerId>, js: seq<KafkaMessage>)
    requires forall j :: 0 <= j < |js| ==> js[j].topic in h
    ensures |Routed(h, js)| == |js|
    ensures forall j :: 0 <= j < |js| ==> Routed(h, js)[j] == Call(h[js[j].topic], js[j].value)
    decreases |js|
  {
    if js != [] {
      var init := js[..|js| - 1];
      RoutedAllRegistered(h, init);
      forall j | 0 <= j < |js| ensures Routed(h, js)[j] == Call(h[js[j].topic], js[j].value) {
        if j < |init| {
          assert init[j] == js[j];
        }
      }
    }
  }

  /** Jobs whose topics have no handler are skipped: no call at all. */
  lemma {:induction false} RoutedNoneRegistered(h: map<string, HandlerId>, js: seq<KafkaMessage>)
    requires forall j :: 0 <= j < |js| ==> js[j].topic !in h
    ensures Routed(h, js) == []
    decreases |js|
  {
    if js != [] {
      var init := js[..|js| - 1];
      assert forall j :: 0 <= j < |init| ==> init[j].topic !in h by {
        forall j | 0 <= j < |init| ensures init[j].topic !in h {
          assert init[j] == js[j];
        }
      }
      RoutedNoneRegistered(h, init);
    }
  }

  /** The call a worker makes for one job: none when its topic has no handler. */
  function Step(h: map<string, HandlerId>, m: KafkaMessage): (cs: seq<Call>)
    ensures |cs| <= 1
    ensures cs != [] <==> m.topic in h
    ensures cs != [] ==> cs[0] == Call(h[m.topic], m.value)
  {
    if m.topic in h then [Call(h[m.topic], m.value)] else []
  }

  /** Routing one more job extends the calls by that job's call and the failures by its failure. */
  lemma RouteStep(h: map<string, HandlerId>, js: seq<KafkaMessage>, k: nat, fails: Call -> bool)
    requires k < |js|
    ensures Routed(h, js[..k + 1]) == Routed(h, js[..k]) + Step(h, js[k])
    ensures Failures(Routed(h, js[..k]) + Step(h, js[k]), fails)
      == Failures(Routed(h, js[..k]), fails) + (if Step(h, js[k]) != [] && fails(Step(h, js[k])[0]) then Step(h, js[k]) else [])
  {
    assert js[..k + 1][..k] == js[..k];
    var done := Routed(h, js[..k]);
    if js[k].topic in h {
      var c := Call(h[js[k].topic], js[k].value);
      assert (done + [c])[..|done|] == done;
    } else {
      assert done + [] == done;
    }
  }

  /** The calls among cs whose handler returned an error: these are only logged. */
  function Failures(cs: seq<Call>, fails: Call -> bool): seq<Call>
    decreases |cs|
  {
    if cs == [] then []
    else
      var last := cs[|cs| - 1];
      Failures(cs[..|cs| - 1], fails) + (if fails(last) then [last] else [])
  }

  /** Position of the first reader whose Close returns an error, or |errs| if none does. */
  function FirstError(errs: seq<bool>): (k: nat)
    ensures k <= |errs|
    ensures forall j :: 0 <= j < k ==> !errs[j]
    ensures k < |errs| ==> errs[k]
    decreases |errs|
  {
    if errs == [] then 0
    else if errs[0] then 0
    else 1 + FirstError(errs[1..])
  }

  /** The indices 0 .. n-1, in order. */
  function Ids(n: nat): (s: seq<nat>)
    ensures |s| == n && forall i :: 0 <= i < n ==> s[i] == i
  {
    seq(n, i requires 0 <= i < n => i)
  }

  class Consumer {
    /** The topic of each reader, in creation order. */
    const readers: seq<string>
    const numWorkers: nat
    const capacity: nat
    var handlers: map<string, HandlerId>
    /** Jobs read and not yet taken by a worker, oldest first. */
    var jobs: seq<KafkaMessage>
    /** False once Close has closed the jobs channel. */
    var open: bool
    var started: bool
    /** The wait group's counter: workers launched and not yet done. */
    var wg: nat
    ghost var workerIds: seq<nat>
    /** Indices of the readers Close has called Close on. */
    ghost var closeAttempts: seq<nat>
    ghost var calls: seq<Call>
    ghost var errors: seq<Call>

    ghost predicate Valid()
      reads this
    {
      && |readers| == 3 && capacity == QueueCapacity && numWorkers == KafkaWorkers
      && |jobs| <= capacity
      && (!started ==> jobs == [] && wg == 0)
    }

    /** NewConsumer: one reader per topic (email, logs, message), no handlers, an empty queue of capacity 1000. */
    constructor ()
      ensures Valid()
      ensures readers == [EmailTopic, LogsTopic, MessageTopic]
      ensures handlers == map[] && numWorkers == KafkaWorkers && capacity == QueueCapacity
      ensures jobs == [] && open && !started && wg == 0 && workerIds == [] && closeAttempts == []
      ensures calls == [] && errors == []
    {
      var topics := [EmailTopic, LogsTopic, MessageTopic];
      var rs: seq<string> := [];
      for i := 0 to |topics|
        invariant rs == topics[..i]
      {
        rs := rs + [topics[i]];
      }
      readers := rs;
      handlers := map[];
      numWorkers := KafkaWorkers;
      capacity := QueueCapacity;
      jobs := [];
      open := true;
      started := false;
      wg := 0;
      workerIds := [];
      closeAttempts := [];
      calls := [];
      errors := [];
    }

    /** The handler for topic becomes h, replacing any earlier one; other topics keep theirs. */
    method RegisterHandler(topic: string, h: HandlerId)
      modifies this`handlers
      ensures handlers == old(handlers)[topic := h]
    {
      handlers := handlers[topic := h];
    }

    /** Start launches numWorkers workers, each counted in the wait group, then the readers. */
    method Start()
      requires Valid()
      modifies this`wg, this`workerIds, this`started
      ensures Valid() && started
      ensures wg == old(wg) + numWorkers
      ensures workerIds == old(workerIds) + Ids(numWorkers)
    {
      var i := 0;
      while i < numWorkers
        invariant 0 <= i <= numWorkers
        invariant wg == old(wg) + i
        invariant workerIds == old(workerIds) + Ids(i)
      {
        wg := wg + 1;
        assert Ids(i + 1) == Ids(i) + [i];
        workerIds := workerIds + [i];
        i := i + 1;
      }
      started := true;
    }

    /**
     * The loop of reader i over the results rs of its ReadMessage calls: it stops at the first
     * cancellation, deadline or closed-group error, retries on any other error without enqueuing,
     * and enqueues every message it reads.  The source blocks when the queue is full; with no
     * concurrent worker to unblock it, the caller must leave room for what the loop enqueues.
     */
    method ReaderLoop(i: nat, rs: seq<ReadResult>) returns (stopped: bool)
      requires Valid() && started && open && i < |readers|
      requires |jobs| + |Fetched(readers[i], rs[..StopIndex(rs)])| <= capacity
      modifies this`jobs
      ensures Valid()
      ensures jobs == old(jobs) + Fetched(readers[i], rs[..StopIndex(rs)])
      ensures stopped <==> StopIndex(rs) < |rs|
    {
      var t := readers[i];
      var k := 0;
      stopped := false;
      while k < |rs|
        invariant 0 <= k <= StopIndex(rs)
        invariant !stopped
        invariant jobs == old(jobs) + Fetched(t, rs[..k])
      {
        var action := Classify(rs[k]);
        if action.Stop? {
          stopped := true;
          break;
        }
        assert rs[..k + 1][..k] == rs[..k];
        FetchedPrefix(t, rs, k + 1, StopIndex(rs));
        if action.Enqueue? {
          jobs := jobs + [KafkaMessage(t, action.value)];
        }
        k := k + 1;
      }
    }

    /**
     * A worker draining the queue: each job, oldest first, goes to its topic's handler if one is
     * registered and is skipped otherwise; a handler error is logged and the next job follows.
     */
    method Worker(fails: Call -> bool)
      requires Valid()
      modifies this`jobs, this`calls, this`errors
      ensures Valid() && jobs == []
      ensures calls == old(calls) + Routed(handlers, old(jobs))
      ensures errors == old(errors) + Failures(Routed(handlers, old(jobs)), fails)
    {
      ghost var queued := jobs;
      ghost var made: seq<Call> := [];
      ghost var failed: seq<Call> := [];
      ghost var k := 0;
      while jobs != []
        invariant 0 <= k <= |queued| && jobs == queued[k..]
        invariant made == Routed(handlers, queued[..k])
        invariant failed == Failures(made, fails)
        modifies this`jobs
        decreases |jobs|
      {
        var msg := jobs[0];
        RouteStep(handlers, queued, k, fails);
        jobs := jobs[1..];
        if msg.topic in handlers {
          var call := Call(handlers[msg.topic], msg.value);
          made := made + [call];
          if fails(call) {
            failed := failed + [call];
          }
        }
        k := k + 1;
      }
      assert queued[..k] == queued;
      assert made == Routed(handlers, old(jobs));
      calls := calls + made;
      errors := errors + failed;
    }

    /**
     * Close shuts the queue, waits for the workers (which first drain every queued job), then closes
     * the readers in order and returns the first error, leaving the readers after it unclosed.
     */
    method Close(fails: Call -> bool, closeErrs: seq<bool>) returns (err: Option<nat>)
      requires Valid() && open && |closeErrs| == |readers|
      modifies this`open, this`jobs, this`calls, this`errors, this`wg, this`closeAttempts
      ensures Valid() && !open && jobs == [] && wg == 0
      ensures calls == old(calls) + Routed(handlers, old(jobs))
      ensures errors == old(errors) + Failures(Routed(handlers, old(jobs)), fails)
      ensures var k := FirstError(closeErrs);
        && closeAttempts == old(closeAttempts) + Ids(if k < |readers| then k + 1 else |readers|)
        && err == (if k < |readers| then Some(k) else None)
    {
      open := false;
      Worker(fails);
      wg := 0;
      ghost var drainedCalls, drainedErrors := calls, errors;
      var i := 0;
      while i < |readers|
        invariant 0 <= i <= FirstError(closeErrs)
        invariant closeAttempts == old(closeAttempts) + Ids(i)
        invariant Valid() && !open && jobs == [] && wg == 0
        invariant calls == drainedCalls && errors == drainedErrors
      {
        assert Ids(i + 1) == Ids(i) + [i];
        closeAttempts := closeAttempts + [i];
        if closeErrs[i] {
          return Some(i);
        }
        i := i + 1;
      }
      return None;
    }
  }
}
