/** The limiter that keeps uploads and image preparation from running all at once. A job is named by its place in
    the order of submission. A job taken from the waiting list starts in a later microtask, settles when its task
    does, and gives its slot back in a microtask after that. */
module TaskLimiter {

  type Job = nat

  datatype Settlement = Settlement(job: Job, fulfilled: bool)

  /** `queue` holds the jobs whose start is a queued microtask, `finishing` those settled but still counted. */
  datatype Limiter = Limiter(active: int, pending: seq<Job>, queue: seq<Job>, running: set<Job>, finishing: set<Job>,
                             submitted: nat, started: seq<Job>, settled: seq<Settlement>)

  datatype Action = Submit | Start | Settle(job: Job, fulfilled: bool) | Finally(job: Job)

  /** How many waiting jobs the drain loop takes. */
  function Taken(concurrency: nat, active: int, waiting: nat): (k: nat)
    ensures k <= waiting
    ensures active + k <= concurrency || k == 0
    ensures active + k >= concurrency || k == waiting
  {
    if active >= concurrency then 0 else if waiting <= concurrency - active then waiting else concurrency - active
  }

  function Drain(concurrency: nat, s: Limiter): Limiter {
    var k := Taken(concurrency, s.active, |s.pending|);
    s.(active := s.active + k, pending := s.pending[k..], queue := s.queue + s.pending[..k])
  }

  ghost predicate Enabled(s: Limiter, a: Action) {
    match a
    case Submit => true
    case Start => s.queue != []
    case Settle(job, _) => job in s.running
    case Finally(job) => job in s.finishing
  }

  function Step(concurrency: nat, s: Limiter, a: Action): Limiter
    requires Enabled(s, a)
  {
    match a
    case Submit =>
      Drain(concurrency, s.(pending := s.pending + [s.submitted], submitted := s.submitted + 1))
    case Start =>
      s.(queue := s.queue[1..], running := s.running + {s.queue[0]}, started := s.started + [s.queue[0]])
    case Settle(job, fulfilled) =>
      s.(running := s.running - {job}, finishing := s.finishing + {job},
         settled := s.settled + [Settlement(job, fulfilled)])
    case Finally(job) =>
      Drain(concurrency, s.(active := s.active - 1, finishing := s.finishing - {job}))
  }

  const INITIAL := Limiter(0, [], [], {}, {}, 0, [], [])

  ghost predicate IsRun(concurrency: nat, states: seq<Limiter>, actions: seq<Action>) {
    && |states| == |actions| + 1 && states[0] == INITIAL
    && forall i :: 0 <= i < |actions| ==>
         Enabled(states[i], actions[i]) && states[i + 1] == Step(concurrency, states[i], actions[i])
  }

  // ------------------------------------------------------------------ what every step keeps

  /** Submission order: the first n jobs. */
  function Upto(n: nat): (r: seq<Job>)
    ensures |r| == n && forall i :: 0 <= i < n ==> r[i] == i
  {
    seq(n, i => i)
  }

  /** Jobs have started, are about to start and still wait, one after the other in the order of submission. */
  ghost predicate InOrder(started: seq<Job>, queue: seq<Job>, pending: seq<Job>, submitted: nat) {
    started + queue + pending == Upto(submitted)
  }

  /** Every slot in use belongs to a job that is about to start, runs, or has just settled. */
  ghost predicate SlotsCounted(active: int, queue: seq<Job>, running: set<Job>, finishing: set<Job>) {
    active == |queue| + |running| + |finishing|
  }

  ghost predicate WithinLimit(concurrency: nat, active: int, pending: seq<Job>) {
    active <= concurrency && (pending == [] || active == concurrency)
  }

  function JobsOf(settled: seq<Settlement>): (r: set<Job>)
    ensures forall i :: 0 <= i < |settled| ==> settled[i].job in r
  {
    if settled == [] then {}
    else
      var n := |settled| - 1;
      JobsOf(settled[..n]) + {settled[n].job}
  }

  /** The started jobs are those running and those settled, and no settlement is repeated. */
  ghost predicate SettledOnce(started: seq<Job>, running: set<Job>, finishing: set<Job>, settled: seq<Settlement>) {
    && (forall i, j :: 0 <= i < j < |settled| ==> settled[i].job != settled[j].job)
    && (forall job :: job in started <==> job in running || job in JobsOf(settled))
    && running !! JobsOf(settled)
    && finishing <= JobsOf(settled)
  }

  ghost predicate Inv(concurrency: nat, s: Limiter) {
    && InOrder(s.started, s.queue, s.pending, s.submitted)
    && SlotsCounted(s.active, s.queue, s.running, s.finishing)
    && WithinLimit(concurrency, s.active, s.pending)
    && SettledOnce(s.started, s.running, s.finishing, s.settled)
  }

  /** Draining moves jobs without reordering, counts what it takes, and stops only when it is full or none wait. */
  lemma DrainKeeps(concurrency: nat, s: Limiter)
    requires InOrder(s.started, s.queue, s.pending, s.submitted)
    requires SlotsCounted(s.active, s.queue, s.running, s.finishing) && s.active <= concurrency
    requires SettledOnce(s.started, s.running, s.finishing, s.settled)
    ensures Inv(concurrency, Drain(concurrency, s))
  {
    hide SettledOnce, Taken;
    var k := Taken(concurrency, s.active, |s.pending|);
    assert s.pending == s.pending[..k] + s.pending[k..];
    assert s.started + (s.queue + s.pending[..k]) + s.pending[k..] == s.started + s.queue + s.pending;
  }

  lemma SubmitKeeps(concurrency: nat, s: Limiter)
    requires Inv(concurrency, s)
    ensures Inv(concurrency, Step(concurrency, s, Submit))
  {
    hide SettledOnce, Drain, SlotsCounted;
    assert s.started + s.queue + (s.pending + [s.submitted]) == (s.started + s.queue + s.pending) + [s.submitted];
    assert Upto(s.submitted + 1) == Upto(s.submitted) + [s.submitted];
    DrainKeeps(concurrency, s.(pending := s.pending + [s.submitted], submitted := s.submitted + 1));
  }

  /** The job about to start has not started before. */
  lemma HeadIsNew(s: Limiter)
    requires InOrder(s.started, s.queue, s.pending, s.submitted) && s.queue != []
    ensures s.queue[0] !in s.started
  {
    var all := s.started + s.queue + s.pending;
    assert all[|s.started|] == s.queue[0];
    forall i | 0 <= i < |s.started| ensures s.started[i] != s.queue[0] {
      assert all[i] == s.started[i];
    }
  }

  /** The job about to start is the next one in the order of submission. */
  lemma HeadIsNext(s: Limiter)
    requires InOrder(s.started, s.queue, s.pending, s.submitted) && s.queue != []
    ensures s.queue[0] == |s.started|
  {
    var all := s.started + s.queue + s.pending;
    assert all[|s.started|] == s.queue[0];
  }

  lemma StartKeeps(concurrency: nat, s: Limiter)
    requires Inv(concurrency, s) && s.queue != []
    ensures Inv(concurrency, Step(concurrency, s, Start))
  {
    hide Upto;
    HeadIsNew(s);
    assert s.queue == [s.queue[0]] + s.queue[1..];
    assert (s.started + [s.queue[0]]) + s.queue[1..] + s.pending == s.started + s.queue + s.pending;
    StartSettles(s.started, s.running, s.finishing, s.settled, s.queue[0]);
  }

  lemma StartSettles(started: seq<Job>, running: set<Job>, finishing: set<Job>, settled: seq<Settlement>, job: Job)
    requires SettledOnce(started, running, finishing, settled) && job !in started
    ensures job !in running
    ensures SettledOnce(started + [job], running + {job}, finishing, settled)
  {
  }

  lemma SettleSettles(started: seq<Job>, running: set<Job>, finishing: set<Job>, settled: seq<Settlement>, job: Job,
      ok: bool)
    requires SettledOnce(started, running, finishing, settled) && job in running
    ensures SettledOnce(started, running - {job}, finishing + {job}, settled + [Settlement(job, ok)])
  {
    var after := settled + [Settlement(job, ok)];
    assert after[..|settled|] == settled;
    assert JobsOf(after) == JobsOf(settled) + {job};
    assert job in started;
  }

  lemma SettleKeeps(concurrency: nat, s: Limiter, job: Job, ok: bool)
    requires Inv(concurrency, s) && job in s.running
    ensures Inv(concurrency, Step(concurrency, s, Settle(job, ok)))
  {
    assert job !in s.finishing;
    hide InOrder, WithinLimit, SettledOnce;
    SettleSettles(s.started, s.running, s.finishing, s.settled, job, ok);
  }

  lemma FinallyKeeps(concurrency: nat, s: Limiter, job: Job)
    requires Inv(concurrency, s) && job in s.finishing
    ensures Inv(concurrency, Step(concurrency, s, Finally(job)))
  {
    var next := s.(active := s.active - 1, finishing := s.finishing - {job});
    assert SettledOnce(next.started, next.running, next.finishing, next.settled);
    hide InOrder, SettledOnce, Drain;
    DrainKeeps(concurrency, next);
  }

  lemma StepKeeps(concurrency: nat, s: Limiter, a: Action)
    requires Inv(concurrency, s) && Enabled(s, a)
    ensures Inv(concurrency, Step(concurrency, s, a))
  {
    hide Inv, Step;
    match a {
      case Submit => SubmitKeeps(concurrency, s);
      case Start => StartKeeps(concurrency, s);
      case Settle(job, ok) => SettleKeeps(concurrency, s, job, ok);
      case Finally(job) => FinallyKeeps(concurrency, s, job);
    }
  }

  lemma {:induction false} RunKeeps(concurrency: nat, states: seq<Limiter>, actions: seq<Action>, n: nat)
    requires IsRun(concurrency, states, actions) && n < |states|
    ensures Inv(concurrency, states[n])
  {
    if n > 0 {
      hide Inv, Step, Enabled;
      RunKeeps(concurrency, states, actions, n - 1);
      StepKeeps(concurrency, states[n - 1], actions[n - 1]);
    }
  }

  // ------------------------------------------------------------------ the guarantees

  /** Never more jobs under way than slots, and none waits while a slot is free. */
  lemma AtMostConcurrency(concurrency: nat, states: seq<Limiter>, actions: seq<Action>, n: nat)
    requires IsRun(concurrency, states, actions) && n < |states|
    ensures |states[n].running| <= concurrency
    ensures |states[n].queue| + |states[n].running| + |states[n].finishing| <= concurrency
    ensures states[n].pending != [] ==>
              |states[n].queue| + |states[n].running| + |states[n].finishing| == concurrency
  {
    RunKeeps(concurrency, states, actions, n);
  }

  /** The k-th job to start is the k-th submitted. */
  lemma StartsInOrder(concurrency: nat, states: seq<Limiter>, actions: seq<Action>, n: nat, k: nat)
    requires IsRun(concurrency, states, actions) && n < |states| && k < |states[n].started|
    ensures states[n].started[k] == k && k < states[n].submitted
  {
    RunKeeps(concurrency, states, actions, n);
    var s := states[n];
    assert (s.started + s.queue + s.pending)[k] == s.started[k];
  }

  /** No job is settled twice, and none before its task has started. */
  lemma SettlesAtMostOnce(concurrency: nat, states: seq<Limiter>, actions: seq<Action>, n: nat, i: nat, j: nat)
    requires IsRun(concurrency, states, actions) && n < |states| && i < j < |states[n].settled|
    ensures states[n].settled[i].job != states[n].settled[j].job
    ensures states[n].settled[i].job in states[n].started
  {
    RunKeeps(concurrency, states, actions, n);
  }

  /** Work left: every step but a submission uses some of it up. */
  function Work(s: Limiter): nat {
    4 * |s.pending| + 3 * |s.queue| + 2 * |s.running| + |s.finishing|
  }

  lemma WorkShrinks(concurrency: nat, s: Limiter, a: Action)
    requires Inv(concurrency, s) && Enabled(s, a)
    ensures a != Submit ==> Work(Step(concurrency, s, a)) < Work(s)
    ensures a == Submit ==> Work(Step(concurrency, s, a)) <= Work(s) + 4
  {
    match a {
      case Submit =>
      case Start =>
        HeadIsNew(s);
        StartSettles(s.started, s.running, s.finishing, s.settled, s.queue[0]);
      case Settle(job, _) => assert job !in s.finishing;
      case Finally(_) =>
    }
  }

  function Submissions(actions: seq<Action>): nat {
    if actions == [] then 0
    else Submissions(actions[..|actions| - 1]) + if actions[|actions| - 1] == Submit then 1 else 0
  }

  /** Every run ends: with m submissions it has at most 5m steps. */
  lemma {:induction false} RunsAreShort(concurrency: nat, states: seq<Limiter>, actions: seq<Action>)
    requires IsRun(concurrency, states, actions)
    ensures |actions| + Work(states[|actions|]) <= 5 * Submissions(actions)
    ensures states[|actions|].submitted == Submissions(actions)
  {
    if actions != [] {
      var n := |actions| - 1;
      RunsAreShort(concurrency, states[..n + 1], actions[..n]);
      RunKeeps(concurrency, states, actions, n);
      WorkShrinks(concurrency, states[n], actions[n]);
      hide Inv, Work;
    }
  }

  ghost predicate Stuck(s: Limiter) {
    forall a: Action :: Enabled(s, a) ==> a == Submit
  }

  lemma StuckIsIdle(concurrency: nat, s: Limiter)
    requires concurrency > 0 && Inv(concurrency, s) && Stuck(s)
    ensures s.queue == [] && s.running == {} && s.finishing == {} && s.pending == []
    ensures s.started == Upto(s.submitted)
  {
    assert s.queue == [] by { assert !Enabled(s, Start); }
    assert s.running == {} by {
      forall job ensures job !in s.running { assert !Enabled(s, Settle(job, true)); }
    }
    assert s.finishing == {} by {
      forall job ensures job !in s.finishing { assert !Enabled(s, Finally(job)); }
    }
    assert s.started + s.queue + s.pending == s.started + s.pending;
  }

  lemma {:induction false} JobsCounted(settled: seq<Settlement>)
    requires forall i, j :: 0 <= i < j < |settled| ==> settled[i].job != settled[j].job
    ensures |JobsOf(settled)| == |settled|
    ensures forall job :: job in JobsOf(settled) ==> exists i :: 0 <= i < |settled| && settled[i].job == job
  {
    if settled != [] {
      var n := |settled| - 1;
      JobsCounted(settled[..n]);
      forall job | job in JobsOf(settled) ensures exists i :: 0 <= i < |settled| && settled[i].job == job {
        if job == settled[n].job {
        } else {
          var i :| 0 <= i < n && settled[..n][i].job == job;
          assert settled[i].job == job;
        }
      }
      assert settled[n].job !in JobsOf(settled[..n]);
    }
  }

  /** The first n jobs as a set. */
  function Below(n: nat): (r: set<Job>)
    ensures |r| == n && forall job: Job :: job in r <==> job < n
  {
    if n == 0 then {} else Below(n - 1) + {n - 1}
  }

  lemma UptoBelow(n: nat, job: Job)
    ensures job in Upto(n) <==> job in Below(n)
  {
    if job < n { assert Upto(n)[job] == job; }
  }

  /** When all started jobs are the first n and none runs, the settled jobs are the first n. */
  lemma AllSettled(started: seq<Job>, finishing: set<Job>, settled: seq<Settlement>, n: nat)
    requires SettledOnce(started, {}, finishing, settled) && started == Upto(n)
    ensures JobsOf(settled) == Below(n) && |settled| == n
  {
    hide Upto, JobsOf, Below;
    forall job ensures job in JobsOf(settled) <==> job in Below(n) {
      UptoBelow(n, job);
    }
    JobsCounted(settled);
  }

  /** With at least one slot, nothing is left to do only when every submitted job has settled, each exactly once. */
  lemma EveryJobSettles(concurrency: nat, states: seq<Limiter>, actions: seq<Action>, n: nat, job: Job)
    requires concurrency > 0 && IsRun(concurrency, states, actions) && n < |states|
    requires Stuck(states[n]) && job < states[n].submitted
    ensures exists i :: 0 <= i < |states[n].settled| && states[n].settled[i].job == job
    ensures |states[n].settled| == states[n].submitted
  {
    hide IsRun, Stuck, SettledOnce, Upto, JobsOf;
    var s := states[n];
    RunKeeps(concurrency, states, actions, n);
    StuckIsIdle(concurrency, s);
    AllSettled(s.started, s.finishing, s.settled, s.submitted);
    SettledPairs(s);
    JobsCounted(s.settled);
    assert job in Below(s.submitted);
  }

  lemma SettledPairs(s: Limiter)
    requires SettledOnce(s.started, s.running, s.finishing, s.settled)
    ensures forall i, j :: 0 <= i < j < |s.settled| ==> s.settled[i].job != s.settled[j].job
  {
  }

  // ------------------------------------------------------------------ the program

  class TaskLimiter {
    const concurrency: nat
    var active: int
    var pending: seq<Job>
    var queue: seq<Job>

    constructor (concurrency: nat)
      ensures this.concurrency == concurrency && active == 0 && pending == [] && queue == []
    {
      this.concurrency := concurrency;
      active, pending, queue := 0, [], [];
    }

    ghost predicate Shows(s: Limiter)
      reads this
    {
      active == s.active && pending == s.pending && queue == s.queue
    }

    /** The drain loop: take from the front while a slot is free; each taken job's start is queued. */
    method DrainPending(ghost s: Limiter)
      requires Shows(s)
      modifies this
      ensures Shows(Drain(concurrency, s))
    {
      ghost var waiting := pending;
      ghost var k: nat := 0;
      while active < concurrency && pending != []
        invariant k <= |waiting| && pending == waiting[k..]
        invariant active == s.active + k && queue == s.queue + waiting[..k]
        invariant k == 0 || active <= concurrency
        decreases |pending|
      {
        var job := pending[0];
        pending := pending[1..];
        active := active + 1;
        queue := queue + [job];
        k := k + 1;
      }
    }

    /** The limiter itself: enqueue and drain. */
    method Run(ghost s: Limiter, job: Job)
      requires Shows(s) && job == s.submitted
      modifies this
      ensures Shows(Step(concurrency, s, Submit))
    {
      pending := pending + [job];
      DrainPending(s.(pending := s.pending + [job], submitted := s.submitted + 1));
    }

    /** The first queued microtask calls its job's task. */
    method CallTask(ghost s: Limiter) returns (job: Job)
      requires Shows(s) && Enabled(s, Start)
      modifies this
      ensures job == s.queue[0] && Shows(Step(concurrency, s, Start))
      ensures Inv(concurrency, s) ==> job == |s.started|
    {
      if Inv(concurrency, s) { HeadIsNext(s); }
      job := queue[0];
      queue := queue[1..];
    }

    /** The finally handler: one slot less in use, then drain. */
    method ReleaseSlot(ghost s: Limiter, ghost job: Job)
      requires Shows(s) && Enabled(s, Finally(job))
      modifies this
      ensures Shows(Step(concurrency, s, Finally(job)))
    {
      active := active - 1;
      DrainPending(s.(active := s.active - 1, finishing := s.finishing - {job}));
    }
  }
}
