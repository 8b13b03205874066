/** The SKIP LOCKED worker pool. A worker between two transactions is polling; inside one it holds a job's row lock. */
module Workers {
  import opened Common

  datatype Job = Job(done: bool, processed: nat, worker: Option<nat>)

  datatype Pc = Polling | Holding(job: nat)

  datatype Worker = Worker(pc: Pc, idlePolls: nat, processed: nat)

  datatype Pool = Pool(jobs: map<nat, Job>, workers: seq<Worker>)

  /** The loop condition of one worker, checked between transactions. */
  predicate Active(w: Worker, idleLimit: nat) {
    w.pc.Holding? || w.idlePolls < idleLimit
  }

  predicate Held(p: Pool, job: nat) {
    exists w :: 0 <= w < |p.workers| && p.workers[w].pc == Holding(job)
  }

  function HeldJobs(p: Pool): set<nat> {
    set j | j in p.jobs && Held(p, j)
  }

  /** What FOR UPDATE SKIP LOCKED can see: pending rows nobody has locked. */
  function Unlocked(p: Pool): set<nat> {
    set j | j in p.jobs && !p.jobs[j].done && !Held(p, j)
  }

  function DoneJobs(jobs: map<nat, Job>): set<nat> {
    set j | j in jobs && jobs[j].done
  }

  predicate IsLeast(j: nat, from: set<nat>) {
    j in from && forall k :: k in from ==> j <= k
  }

  lemma {:induction false} LeastExists(from: set<nat>) returns (least: nat)
    requires from != {}
    ensures IsLeast(least, from)
    decreases |from|
  {
    var first :| first in from;
    var rest := from - {first};
    assert from == rest + {first};
    least := first;
    if rest != {} {
      var other := LeastExists(rest);
      least := if other < first then other else first;
    }
  }

  ghost function Least(from: set<nat>): (least: nat)
    requires from != {}
    ensures IsLeast(least, from)
  {
    assert exists j :: IsLeast(j, from) by {
      var j := LeastExists(from);
    }
    var j :| IsLeast(j, from);
    j
  }

  /** One poll or one completion of worker w. */
  ghost function Step(p: Pool, w: nat): Pool
    requires w < |p.workers|
    requires p.workers[w].pc.Holding? ==> p.workers[w].pc.job in p.jobs
  {
    var worker := p.workers[w];
    match worker.pc
    case Polling =>
      if Unlocked(p) == {} then p.(workers := p.workers[w := worker.(idlePolls := worker.idlePolls + 1)])
      else p.(workers := p.workers[w := worker.(pc := Holding(Least(Unlocked(p))))])
    case Holding(j) =>
      Pool(p.jobs[j := Job(true, p.jobs[j].processed + 1, Some(w))],
           p.workers[w := Worker(Polling, 0, worker.processed + 1)])
  }

  function Processed(workers: seq<Worker>): nat {
    if workers == [] then 0 else Processed(workers[..|workers| - 1]) + workers[|workers| - 1].processed
  }

  function PollsLeft(workers: seq<Worker>, idleLimit: nat): nat {
    if workers == [] then 0
    else PollsLeft(workers[..|workers| - 1], idleLimit) + Max(0, idleLimit - workers[|workers| - 1].idlePolls)
  }

  lemma {:induction false} SumsOfUpdate(workers: seq<Worker>, w: nat, worker: Worker, idleLimit: nat)
    requires w < |workers|
    ensures Processed(workers[w := worker]) == Processed(workers) - workers[w].processed + worker.processed
    ensures PollsLeft(workers[w := worker], idleLimit) ==
            PollsLeft(workers, idleLimit) - Max(0, idleLimit - workers[w].idlePolls) + Max(0, idleLimit - worker.idlePolls)
    decreases |workers|
  {
    var last := |workers| - 1;
    if w == last {
      assert workers[w := worker][..last] == workers[..last];
    } else {
      SumsOfUpdate(workers[..last], w, worker, idleLimit);
      assert workers[w := worker][..last] == workers[..last][w := worker];
    }
  }

  /** Relative to the jobs the pool started with. */
  ghost predicate Inv(p: Pool, initial: map<nat, Job>) {
    && p.jobs.Keys == initial.Keys
    && (forall j :: j in p.jobs ==>
          p.jobs[j] == initial[j] || (!initial[j].done && p.jobs[j].done && p.jobs[j].processed == initial[j].processed + 1))
    && (forall w :: 0 <= w < |p.workers| && p.workers[w].pc.Holding? ==>
          p.workers[w].pc.job in p.jobs && !p.jobs[p.workers[w].pc.job].done)
    && NoneShared(p)
    && Processed(p.workers) == |DoneJobs(p.jobs) - DoneJobs(initial)|
    && (forall w :: 0 <= w < |p.workers| && p.workers[w].idlePolls > 0 ==> Unlocked(p) == {})
  }

  /** No job is held by two workers at once. */
  ghost predicate NoneShared(p: Pool) {
    forall v, w | 0 <= v < |p.workers| && 0 <= w < |p.workers| && p.workers[v].pc.Holding? ::
      p.workers[v].pc == p.workers[w].pc ==> v == w
  }

  predicate Fresh(workers: seq<Worker>) {
    forall w :: 0 <= w < |workers| ==> workers[w] == Worker(Polling, 0, 0)
  }

  lemma {:induction false} FreshCountsNothing(workers: seq<Worker>)
    requires Fresh(workers)
    ensures Processed(workers) == 0
  {
    if workers != [] {
      FreshCountsNothing(workers[..|workers| - 1]);
    }
  }

  lemma StartIsSound(p: Pool)
    requires Fresh(p.workers)
    ensures Inv(p, p.jobs)
  {
    FreshCountsNothing(p.workers);
    assert DoneJobs(p.jobs) - DoneJobs(p.jobs) == {};
  }

  lemma ClaimStep(p: Pool, initial: map<nat, Job>, w: nat, idleLimit: nat)
    requires Inv(p, initial) && w < |p.workers| && p.workers[w].pc.Polling? && Unlocked(p) != {}
    ensures Inv(Step(p, w), initial)
    ensures Unlocked(Step(p, w)) < Unlocked(p)
  {
    var p' := Step(p, w);
    var j := Least(Unlocked(p));
    SumsOfUpdate(p.workers, w, p'.workers[w], idleLimit);
    assert p'.workers[w].pc == Holding(j);
    HeldAfter(p, p', w);
    assert j in Unlocked(p) && j !in Unlocked(p');
  }

  /** Only worker w changed, so only what w holds changed. */
  lemma HeldAfter(p: Pool, p': Pool, w: nat)
    requires w < |p.workers| && |p'.workers| == |p.workers|
    requires forall v :: 0 <= v < |p.workers| && v != w ==> p'.workers[v] == p.workers[v]
    ensures forall j :: Held(p', j) ==> Held(p, j) || p'.workers[w].pc == Holding(j)
    ensures forall j :: Held(p, j) ==> Held(p', j) || p.workers[w].pc == Holding(j)
  {
    forall j | Held(p', j) ensures Held(p, j) || p'.workers[w].pc == Holding(j) {
      var v :| 0 <= v < |p'.workers| && p'.workers[v].pc == Holding(j);
      assert v != w ==> p.workers[v].pc == Holding(j);
    }
    forall j | Held(p, j) ensures Held(p', j) || p.workers[w].pc == Holding(j) {
      var v :| 0 <= v < |p.workers| && p.workers[v].pc == Holding(j);
      assert v != w ==> p'.workers[v].pc == Holding(j);
    }
  }

  lemma CompleteStep(p: Pool, initial: map<nat, Job>, w: nat, idleLimit: nat)
    requires Inv(p, initial) && w < |p.workers| && p.workers[w].pc.Holding?
    ensures Inv(Step(p, w), initial)
    ensures Unlocked(Step(p, w)) <= Unlocked(p) && HeldJobs(Step(p, w)) < HeldJobs(p)
  {
    CompletionKeeps(p, Step(p, w), initial, w, p.workers[w].pc.job, idleLimit);
  }

  lemma CompletionKeeps(p: Pool, p': Pool, initial: map<nat, Job>, w: nat, j: nat, idleLimit: nat)
    requires Inv(p, initial) && w < |p.workers| && p.workers[w].pc == Holding(j)
    requires p' == Pool(p.jobs[j := Job(true, p.jobs[j].processed + 1, Some(w))],
                        p.workers[w := Worker(Polling, 0, p.workers[w].processed + 1)])
    ensures Inv(p', initial) && Unlocked(p') <= Unlocked(p) && HeldJobs(p') < HeldJobs(p)
  {
    SumsOfUpdate(p.workers, w, p'.workers[w], idleLimit);
    ReleasedAfter(p, p', w, j);
    CountDone(p, p', initial, j);
    CompletedJobs(p, p', initial, w, j);
    assert forall v :: 0 <= v < |p'.workers| && p'.workers[v].idlePolls > 0 ==> v != w && p.workers[v].idlePolls > 0;
  }

  lemma ReleasedAfter(p: Pool, p': Pool, w: nat, j: nat)
    requires w < |p.workers| && p.workers[w].pc == Holding(j) && NoneShared(p)
    requires |p'.workers| == |p.workers| && p'.workers == p.workers[w := p'.workers[w]] && p'.workers[w].pc.Polling?
    requires j in p.jobs && p'.jobs.Keys == p.jobs.Keys
    requires forall k :: k in p.jobs && k != j ==> p'.jobs[k] == p.jobs[k]
    requires p'.jobs[j].done
    ensures Unlocked(p') <= Unlocked(p) && HeldJobs(p') < HeldJobs(p) && NoneShared(p')
    ensures forall k :: Held(p', k) ==> Held(p, k) && k != j
  {
    HeldAfter(p, p', w);
    assert Held(p, j);
    assert forall v :: 0 <= v < |p.workers| && v != w ==> p'.workers[v].pc == p.workers[v].pc != p.workers[w].pc;
    assert j in HeldJobs(p) && j !in HeldJobs(p');
  }

  lemma CountDone(p: Pool, p': Pool, initial: map<nat, Job>, j: nat)
    requires j in p.jobs && !p.jobs[j].done && j in p'.jobs && p'.jobs == p.jobs[j := p'.jobs[j]] && p'.jobs[j].done
    requires j in initial && !initial[j].done
    ensures |DoneJobs(p'.jobs) - DoneJobs(initial)| == |DoneJobs(p.jobs) - DoneJobs(initial)| + 1
  {
    var before, after := DoneJobs(p.jobs) - DoneJobs(initial), DoneJobs(p'.jobs) - DoneJobs(initial);
    assert j !in before;
    assert after == before + {j};
  }

  lemma CompletedJobs(p: Pool, p': Pool, initial: map<nat, Job>, w: nat, j: nat)
    requires Inv(p, initial) && w < |p.workers| && p.workers[w].pc == Holding(j)
    requires p'.jobs == p.jobs[j := Job(true, p.jobs[j].processed + 1, Some(w))]
    requires |p'.workers| == |p.workers| && p'.workers == p.workers[w := p'.workers[w]]
    requires p'.workers[w].pc.Polling? && p'.workers[w].idlePolls == 0
    ensures forall k :: k in p'.jobs ==>
              p'.jobs[k] == initial[k] || (!initial[k].done && p'.jobs[k].done && p'.jobs[k].processed == initial[k].processed + 1)
    ensures forall v :: 0 <= v < |p'.workers| && p'.workers[v].pc.Holding? ==>
              p'.workers[v].pc.job in p'.jobs && !p'.jobs[p'.workers[v].pc.job].done
  {
    assert forall v :: 0 <= v < |p.workers| && v != w ==> p'.workers[v] == p.workers[v] && p.workers[v].pc != p.workers[w].pc;
  }

  lemma IdleStep(p: Pool, initial: map<nat, Job>, w: nat, idleLimit: nat)
    requires Inv(p, initial) && w < |p.workers| && p.workers[w].pc.Polling? && Unlocked(p) == {}
    ensures Inv(Step(p, w), initial)
    ensures Unlocked(Step(p, w)) == {} && HeldJobs(Step(p, w)) == HeldJobs(p)
    ensures p.workers[w].idlePolls < idleLimit ==>
              PollsLeft(Step(p, w).workers, idleLimit) < PollsLeft(p.workers, idleLimit)
  {
    var p' := Step(p, w);
    SumsOfUpdate(p.workers, w, p'.workers[w], idleLimit);
    HeldAfter(p, p', w);
  }

  lemma StepKeeps(p: Pool, initial: map<nat, Job>, w: nat, idleLimit: nat)
    requires Inv(p, initial) && w < |p.workers|
    ensures Inv(Step(p, w), initial) && Unlocked(Step(p, w)) <= Unlocked(p)
  {
    if p.workers[w].pc.Holding? {
      CompleteStep(p, initial, w, idleLimit);
    } else if Unlocked(p) == {} {
      IdleStep(p, initial, w, idleLimit);
    } else {
      ClaimStep(p, initial, w, idleLimit);
    }
  }

  /** The jobs worker w has put its name to since the pool started. */
  function SignedBy(jobs: map<nat, Job>, initial: map<nat, Job>, w: nat): set<nat> {
    set j | j in jobs && jobs[j].done && (j !in initial || !initial[j].done) && jobs[j].worker == Some(w)
  }

  /** Each worker's counter is the number of jobs it signed, and every job done since the start is signed by a worker of the pool. */
  ghost predicate Credited(p: Pool, initial: map<nat, Job>) {
    && (forall w :: 0 <= w < |p.workers| ==> p.workers[w].processed == |SignedBy(p.jobs, initial, w)|)
    && (forall j :: j in p.jobs && p.jobs[j].done && (j !in initial || !initial[j].done) ==>
          p.jobs[j].worker.Some? && p.jobs[j].worker.value < |p.workers|)
  }

  lemma SigningCounts(p: Pool, initial: map<nat, Job>, w: nat, j: nat, done: Job)
    requires Inv(p, initial) && j in p.jobs && !p.jobs[j].done && done.done && done.worker == Some(w)
    ensures |SignedBy(p.jobs[j := done], initial, w)| == |SignedBy(p.jobs, initial, w)| + 1
    ensures forall v: nat :: v != w ==> SignedBy(p.jobs[j := done], initial, v) == SignedBy(p.jobs, initial, v)
  {
    var before := SignedBy(p.jobs, initial, w);
    assert !initial[j].done && j !in before;
    assert SignedBy(p.jobs[j := done], initial, w) == before + {j};
  }

  lemma StepKeepsCredit(p: Pool, initial: map<nat, Job>, w: nat)
    requires Inv(p, initial) && Credited(p, initial) && w < |p.workers|
    ensures Credited(Step(p, w), initial)
  {
    if p.workers[w].pc.Holding? {
      CompletionIsCredited(p, Step(p, w), initial, w, p.workers[w].pc.job, Step(p, w).jobs[p.workers[w].pc.job]);
    }
  }

  lemma CompletionIsCredited(p: Pool, p': Pool, initial: map<nat, Job>, w: nat, j: nat, done: Job)
    requires Inv(p, initial) && Credited(p, initial) && w < |p.workers|
    requires j in p.jobs && !p.jobs[j].done && done.done && done.worker == Some(w)
    requires p'.jobs == p.jobs[j := done] && p'.workers == p.workers[w := Worker(Polling, 0, p.workers[w].processed + 1)]
    ensures Credited(p', initial)
  {
    SigningCounts(p, initial, w, j, done);
    assert forall v :: 0 <= v < |p.workers| && v != w ==> p'.workers[v] == p.workers[v];
  }

  lemma StartIsCredited(p: Pool)
    requires Fresh(p.workers)
    ensures Credited(p, p.jobs)
  {
    forall w | 0 <= w < |p.workers| ensures SignedBy(p.jobs, p.jobs, w) == {} {
    }
  }

  /** A run of the pool: at each point any worker that has not exited makes its next step. */
  ghost predicate IsRun(run: seq<Pool>, idleLimit: nat) {
    && |run| > 0 && Fresh(run[0].workers)
    && forall i :: 0 <= i < |run| - 1 ==> StepAt(run, i, idleLimit)
  }

  ghost predicate StepAt(run: seq<Pool>, i: nat, idleLimit: nat)
    requires i + 1 < |run|
  {
    exists w | 0 <= w < |run[i].workers| ::
      && Active(run[i].workers[w], idleLimit)
      && (run[i].workers[w].pc.Holding? ==> run[i].workers[w].pc.job in run[i].jobs)
      && run[i + 1] == Step(run[i], w)
  }

  lemma {:induction false} RunKeeps(run: seq<Pool>, idleLimit: nat, i: nat)
    requires IsRun(run, idleLimit) && i < |run|
    ensures Inv(run[i], run[0].jobs) && Credited(run[i], run[0].jobs) && |run[i].workers| == |run[0].workers|
  {
    if i == 0 {
      StartIsSound(run[0]);
      StartIsCredited(run[0]);
    } else {
      RunKeeps(run, idleLimit, i - 1);
      assert StepAt(run, i - 1, idleLimit);
      var w :| 0 <= w < |run[i - 1].workers| && Active(run[i - 1].workers[w], idleLimit)
               && (run[i - 1].workers[w].pc.Holding? ==> run[i - 1].workers[w].pc.job in run[i - 1].jobs)
               && run[i] == Step(run[i - 1], w);
      StepKeeps(run[i - 1], run[0].jobs, w, idleLimit);
      StepKeepsCredit(run[i - 1], run[0].jobs, w);
    }
  }

  /** In every reachable state no job has two holders, and once any worker has exited no unlocked pending job is left. */
  lemma ExitStrandsNothing(run: seq<Pool>, idleLimit: nat, i: nat, w: nat)
    requires IsRun(run, idleLimit) && idleLimit >= 1 && i < |run| && w < |run[i].workers|
    ensures NoneShared(run[i])
    ensures !Active(run[i].workers[w], idleLimit) ==> Unlocked(run[i]) == {}
  {
    RunKeeps(run, idleLimit, i);
  }

  /** The unlocked pending jobs only get fewer. */
  lemma {:induction false} UnlockedShrinks(run: seq<Pool>, idleLimit: nat, i: nat, j: nat)
    requires IsRun(run, idleLimit) && i <= j < |run|
    ensures Unlocked(run[j]) <= Unlocked(run[i])
  {
    if i < j {
      UnlockedShrinks(run, idleLimit, i, j - 1);
      RunKeeps(run, idleLimit, j - 1);
      assert StepAt(run, j - 1, idleLimit);
      var w :| 0 <= w < |run[j - 1].workers| && Active(run[j - 1].workers[w], idleLimit)
               && (run[j - 1].workers[w].pc.Holding? ==> run[j - 1].workers[w].pc.job in run[j - 1].jobs)
               && run[j] == Step(run[j - 1], w);
      StepKeeps(run[j - 1], run[0].jobs, w, idleLimit);
    }
  }

  /** What the pool has achieved when every worker has left its loop. */
  lemma AllExitedMeansAllDone(p: Pool, initial: map<nat, Job>, idleLimit: nat)
    requires Inv(p, initial) && idleLimit >= 1 && |p.workers| >= 1
    requires forall w :: 0 <= w < |p.workers| ==> !Active(p.workers[w], idleLimit)
    ensures forall j :: j in initial ==> p.jobs[j].done
    ensures forall j :: j in initial && !initial[j].done ==> p.jobs[j].processed == initial[j].processed + 1
    ensures forall j :: j in initial && initial[j].done ==> p.jobs[j] == initial[j]
    ensures Processed(p.workers) == |initial.Keys - DoneJobs(initial)|
  {
    assert p.workers[0].idlePolls > 0;
    assert Unlocked(p) == {};
    forall j | j in p.jobs ensures p.jobs[j].done {
      assert !Held(p, j);
      assert j !in Unlocked(p);
    }
    assert DoneJobs(p.jobs) == initial.Keys;
  }

  /** And who did what: each counter is the number of pending jobs its worker signed, and none went unsigned. */
  lemma AllExitedMeansAllSigned(p: Pool, initial: map<nat, Job>, idleLimit: nat)
    requires Inv(p, initial) && Credited(p, initial) && idleLimit >= 1 && |p.workers| >= 1
    requires forall w :: 0 <= w < |p.workers| ==> !Active(p.workers[w], idleLimit)
    ensures forall j :: j in initial && !initial[j].done ==> p.jobs[j].worker.Some? && p.jobs[j].worker.value < |p.workers|
    ensures forall w :: 0 <= w < |p.workers| ==>
              p.workers[w].processed == |set j | j in p.jobs && !initial[j].done && p.jobs[j].worker == Some(w)|
  {
    AllExitedMeansAllDone(p, initial, idleLimit);
    forall w | 0 <= w < |p.workers|
      ensures p.workers[w].processed == |set j | j in p.jobs && !initial[j].done && p.jobs[j].worker == Some(w)|
    {
      assert (set j | j in p.jobs && !initial[j].done && p.jobs[j].worker == Some(w)) == SignedBy(p.jobs, initial, w);
    }
  }

  /** Every step of an active worker brings the pool closer to its end. */
  lemma StepProgresses(p: Pool, initial: map<nat, Job>, w: nat, idleLimit: nat)
    requires Inv(p, initial) && Credited(p, initial) && w < |p.workers| && Active(p.workers[w], idleLimit)
    ensures Inv(Step(p, w), initial) && Credited(Step(p, w), initial)
    ensures var p' := Step(p, w);
            || Unlocked(p') < Unlocked(p)
            || (Unlocked(p') == Unlocked(p) && HeldJobs(p') < HeldJobs(p))
            || (Unlocked(p') == Unlocked(p) && HeldJobs(p') == HeldJobs(p)
                && PollsLeft(p'.workers, idleLimit) < PollsLeft(p.workers, idleLimit))
  {
    StepKeepsCredit(p, initial, w);
    if p.workers[w].pc.Holding? {
      CompleteStep(p, initial, w, idleLimit);
    } else if Unlocked(p) == {} {
      IdleStep(p, initial, w, idleLimit);
    } else {
      ClaimStep(p, initial, w, idleLimit);
    }
  }

  /** With an exit rule of zero empty polls nobody ever takes a step: every pending job stays pending in every run. */
  lemma {:induction false} ZeroPollsStrandJobs(run: seq<Pool>, i: nat)
    requires IsRun(run, 0) && i < |run|
    ensures forall w :: 0 <= w < |run[i].workers| ==> run[i].workers[w].pc.Polling? && !Active(run[i].workers[w], 0)
    ensures run[i].jobs == run[0].jobs
    ensures Unlocked(run[i]) == set j | j in run[0].jobs && !run[0].jobs[j].done
  {
    if i > 0 {
      assert StepAt(run, i - 1, 0);
      ZeroPollsStrandJobs(run, i - 1);
    } else {
      assert forall j :: !Held(run[0], j);
    }
  }

  class WorkerPool {
    var jobs: map<nat, Job>
    var workers: seq<Worker>

    ghost function State(): Pool
      reads this
    {
      Pool(jobs, workers)
    }

    method ClaimNextJob() returns (claimed: Option<nat>)
      ensures claimed == if Unlocked(State()) == {} then None else Some(Least(Unlocked(State())))
    {
      var rest := set j | j in jobs && !jobs[j].done && !(exists w | 0 <= w < |workers| :: workers[w].pc == Holding(j));
      assert rest == Unlocked(State());
      if rest == {} {
        return None;
      }
      var least: nat :| least in rest;
      ghost var all := rest;
      while rest != {}
        invariant rest <= all && least in all
        invariant forall j :: j in all - rest ==> least <= j
        decreases rest
      {
        var j :| j in rest;
        ghost var seen := all - rest;
        least := if j < least then j else least;
        rest := rest - {j};
        assert all - rest == seen + {j};
      }
      assert all - rest == all;
      assert IsLeast(least, all) && IsLeast(Least(all), all);
      claimed := Some(least);
    }

    method CompleteJob(job: nat, worker: nat)
      requires job in jobs
      modifies this`jobs
      ensures jobs == old(jobs)[job := Job(true, old(jobs)[job].processed + 1, Some(worker))]
    {
      jobs := jobs[job := jobs[job].(done := true, processed := jobs[job].processed + 1, worker := Some(worker))];
    }

    /** Up to its next await, one worker does this. */
    method Advance(w: nat)
      requires w < |workers|
      requires workers[w].pc.Holding? ==> workers[w].pc.job in jobs
      modifies this
      ensures State() == Step(old(State()), w)
    {
      var worker := workers[w];
      match worker.pc {
        case Polling =>
          var claimed := ClaimNextJob();
          if claimed.None? {
            workers := workers[w := worker.(idlePolls := worker.idlePolls + 1)];
          } else {
            workers := workers[w := worker.(pc := Holding(claimed.value))];
          }
        case Holding(job) =>
          CompleteJob(job, w);
          workers := workers[w := Worker(Polling, 0, worker.processed + 1)];
      }
    }

    /**
     * Promise.all over the workers. The event loop may run any worker next, so the choice below is arbitrary;
     * whatever it is, the pool stops, and then every job that was pending is done, once.
     */
    method RunWorkerPool(workerCount: nat, idleLimit: nat)
      requires workerCount >= 1 && idleLimit >= 1
      modifies this
      ensures jobs.Keys == old(jobs).Keys && |workers| == workerCount
      ensures forall j :: j in jobs ==> jobs[j].done
      ensures forall j :: j in jobs && !old(jobs)[j].done ==> jobs[j].processed == old(jobs)[j].processed + 1
      ensures forall j :: j in jobs && old(jobs)[j].done ==> jobs[j] == old(jobs)[j]
      ensures Processed(workers) == |old(jobs).Keys - DoneJobs(old(jobs))|
      ensures forall j :: j in jobs && !old(jobs)[j].done ==> jobs[j].worker.Some? && jobs[j].worker.value < workerCount
      ensures forall w :: 0 <= w < workerCount ==>
                workers[w].processed == |set j | j in jobs && !old(jobs)[j].done && jobs[j].worker == Some(w)|
    {
      workers := seq(workerCount, _ => Worker(Polling, 0, 0));
      StartIsSound(State());
      StartIsCredited(State());
      while exists w :: 0 <= w < |workers| && Active(workers[w], idleLimit)
        invariant |workers| == workerCount && Inv(State(), old(jobs)) && Credited(State(), old(jobs))
        decreases Unlocked(State()), HeldJobs(State()), PollsLeft(workers, idleLimit)
      {
        var w :| 0 <= w < |workers| && Active(workers[w], idleLimit);
        ghost var before := State();
        Advance(w);
        StepProgresses(before, old(jobs), w, idleLimit);
      }
      AllExitedMeansAllDone(State(), old(jobs), idleLimit);
      AllExitedMeansAllSigned(State(), old(jobs), idleLimit);
    }
  }
}
