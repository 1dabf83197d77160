/** The protocol by which commits to a database reach the tags of the files, one task per file.

    Each action below is atomic: a critical section under the serialiser's mutex, one query,
    or one write of a file's tags.  Actions of different tasks and callers interleave freely.
 */
module TagSerialiser {

  type Id = nat

  /** How far a task has got.  `since` is the time of its last query: the fields it
      writes were read then or later. */
  datatype Phase = Queued | Ready | HasQueried(since: nat) | Wrote(since: nat)

  datatype Task = Task(id: Id, phase: Phase)

  /** `clock` counts commits.  For each id, `committed` is the time of the last commit,
      `requested` that of the last commit before the last call of `Rewrite`, `attempted` the time
      of the query behind the last attempt to write the file, and `file` that of the last success. */
  datatype State = State(
    needRewrite: set<Id>, rewriteTasks: set<Id>, pool: map<nat, Task>, nextTask: nat,
    clock: nat, committed: map<Id, nat>, requested: map<Id, nat>, attempted: map<Id, nat>, file: map<Id, nat>)

  datatype Action =
    | Commit(id: Id)
    | Rewrite(id: Id)
    | Begin(t: nat)
    | Query(t: nat)
    | Write(t: nat, ok: bool)
    | Check(t: nat)

  const INITIAL := State({}, {}, map[], 0, 0, map[], map[], map[], map[])

  function Get(m: map<Id, nat>, id: Id): nat {
    if id in m then m[id] else 0
  }

  predicate Enabled(st: State, a: Action) {
    match a
    case Commit(_) => true
    case Rewrite(_) => true
    case Begin(t) => t in st.pool && st.pool[t].phase.Queued?
    case Query(t) => t in st.pool && st.pool[t].phase.Ready?
    case Write(t, _) => t in st.pool && st.pool[t].phase.HasQueried?
    case Check(t) => t in st.pool && st.pool[t].phase.Wrote?
  }

  function At(st: State, t: nat, phase: Phase): State
    requires t in st.pool
  {
    st.(pool := st.pool[t := st.pool[t].(phase := phase)])
  }

  function Step(st: State, a: Action): State
    requires Enabled(st, a)
  {
    match a
    case Commit(id) => st.(clock := st.clock + 1, committed := st.committed[id := st.clock + 1])
    case Rewrite(id) =>
      var st' := st.(requested := st.requested[id := Get(st.committed, id)]);
      if id in st.needRewrite then st'
      else if id in st.rewriteTasks then st'.(needRewrite := st.needRewrite + {id})
      else st'.(needRewrite := st.needRewrite + {id}, rewriteTasks := st.rewriteTasks + {id},
                pool := st.pool[st.nextTask := Task(id, Queued)], nextTask := st.nextTask + 1)
    case Begin(t) => At(st, t, Ready).(needRewrite := st.needRewrite - {st.pool[t].id})
    case Query(t) => At(st, t, HasQueried(st.clock))
    case Write(t, ok) =>
      var id, since := st.pool[t].id, st.pool[t].phase.since;
      At(st, t, Wrote(since)).(attempted := st.attempted[id := since],
                               file := if ok then st.file[id := since] else st.file)
    case Check(t) =>
      var id := st.pool[t].id;
      if id in st.needRewrite then At(st, t, Ready).(needRewrite := st.needRewrite - {id})
      else st.(rewriteTasks := st.rewriteTasks - {id}, pool := st.pool - {t})
  }

  /* What every interleaving keeps */

  ghost predicate Live(pool: map<nat, Task>, id: Id) {
    exists t :: t in pool && pool[t].id == id
  }

  /** Live tasks work on different ids, and the set of tasks says which. */
  ghost predicate OnePerId(pool: map<nat, Task>, tasks: set<Id>, next: nat) {
    && (forall t, u :: t in pool && u in pool && pool[t].id == pool[u].id ==> t == u)
    && (forall t :: t in pool ==> t < next && pool[t].id in tasks)
    && (forall id {:trigger Live(pool, id)} :: id in tasks ==> Live(pool, id))
  }

  ghost predicate OneTaskEach(st: State) {
    OnePerId(st.pool, st.rewriteTasks, st.nextTask) && st.needRewrite <= st.rewriteTasks
  }

  ghost predicate NotAfter(m: map<Id, nat>, clock: nat) {
    forall id :: id in m ==> m[id] <= clock
  }

  /** A task that has written is the last to have attempted its file. */
  ghost predicate Recorded(pool: map<nat, Task>, attempted: map<Id, nat>) {
    forall t :: t in pool && pool[t].phase.Wrote? ==> Get(attempted, pool[t].id) == pool[t].phase.since
  }

  ghost predicate Timely(st: State) {
    && NotAfter(st.committed, st.clock) && NotAfter(st.requested, st.clock)
    && Recorded(st.pool, st.attempted)
  }

  /** This phase of the task for an id will read, or has read, the database late enough. */
  predicate WillDo(phase: Phase, requested: nat) {
    phase.Queued? || phase.Ready? || phase.since >= requested
  }

  /** A request is still to be dealt with, is being dealt with, or has been. */
  ghost predicate Covered(st: State, id: Id) {
    || id in st.needRewrite
    || (exists t :: t in st.pool && st.pool[t].id == id && WillDo(st.pool[t].phase, Get(st.requested, id)))
    || (id !in st.rewriteTasks && Get(st.attempted, id) >= Get(st.requested, id))
  }

  ghost predicate Inv(st: State) {
    && OneTaskEach(st) && Timely(st)
    && (forall id {:trigger Covered(st, id)} :: id in st.requested ==> Covered(st, id))
  }

  lemma PhaseKeepsOne(pool: map<nat, Task>, tasks: set<Id>, next: nat, t: nat, phase: Phase)
    requires OnePerId(pool, tasks, next) && t in pool
    ensures OnePerId(pool[t := pool[t].(phase := phase)], tasks, next)
  {
    var pool' := pool[t := pool[t].(phase := phase)];
    forall id | id in tasks ensures Live(pool', id) {
      assert Live(pool, id);
      var u :| u in pool && pool[u].id == id;
      assert u in pool' && pool'[u].id == id;
    }
  }

  lemma AddKeepsOne(pool: map<nat, Task>, tasks: set<Id>, next: nat, id: Id)
    requires OnePerId(pool, tasks, next) && id !in tasks
    ensures OnePerId(pool[next := Task(id, Queued)], tasks + {id}, next + 1)
  {
    var pool' := pool[next := Task(id, Queued)];
    forall x | x in tasks + {id} ensures Live(pool', x) {
      if x == id {
        assert next in pool';
      } else {
        assert Live(pool, x);
        var u :| u in pool && pool[u].id == x;
        assert u in pool' && pool'[u].id == x;
      }
    }
  }

  lemma RemoveKeepsOne(pool: map<nat, Task>, tasks: set<Id>, next: nat, t: nat)
    requires OnePerId(pool, tasks, next) && t in pool
    ensures OnePerId(pool - {t}, tasks - {pool[t].id}, next)
    ensures !Live(pool - {t}, pool[t].id)
  {
    forall x | x in tasks - {pool[t].id} ensures Live(pool - {t}, x) {
      assert Live(pool, x);
      var u :| u in pool && pool[u].id == x;
      assert u in pool - {t};
    }
  }

  lemma StepOneTaskEach(st: State, a: Action)
    requires Enabled(st, a) && OneTaskEach(st)
    ensures OneTaskEach(Step(st, a))
  {
    match a
    case Commit(_) =>
    case Rewrite(id) =>
      if id !in st.rewriteTasks { AddKeepsOne(st.pool, st.rewriteTasks, st.nextTask, id); }
    case Begin(t) => PhaseKeepsOne(st.pool, st.rewriteTasks, st.nextTask, t, Ready);
    case Query(t) => PhaseKeepsOne(st.pool, st.rewriteTasks, st.nextTask, t, HasQueried(st.clock));
    case Write(t, _) => PhaseKeepsOne(st.pool, st.rewriteTasks, st.nextTask, t, Wrote(st.pool[t].phase.since));
    case Check(t) =>
      PhaseKeepsOne(st.pool, st.rewriteTasks, st.nextTask, t, Ready);
      RemoveKeepsOne(st.pool, st.rewriteTasks, st.nextTask, t);
  }

  lemma WriteRecorded(pool: map<nat, Task>, tasks: set<Id>, next: nat, attempted: map<Id, nat>, t: nat, since: nat)
    requires OnePerId(pool, tasks, next) && Recorded(pool, attempted) && t in pool
    ensures Recorded(pool[t := pool[t].(phase := Wrote(since))], attempted[pool[t].id := since])
  {
  }

  lemma StepTimely(st: State, a: Action)
    requires Enabled(st, a) && OneTaskEach(st) && Timely(st)
    ensures Timely(Step(st, a))
  {
    StepRecorded(st, a);
  }

  lemma StepRecorded(st: State, a: Action)
    requires Enabled(st, a) && OneTaskEach(st) && Recorded(st.pool, st.attempted)
    ensures Recorded(Step(st, a).pool, Step(st, a).attempted)
  {
    match a
    case Commit(_) =>
    case Rewrite(_) =>
    case Begin(t) => PhaseRecorded(st.pool, st.attempted, t, Ready);
    case Query(t) => PhaseRecorded(st.pool, st.attempted, t, HasQueried(st.clock));
    case Write(t, _) => WriteRecorded(st.pool, st.rewriteTasks, st.nextTask, st.attempted, t, st.pool[t].phase.since);
    case Check(t) => PhaseRecorded(st.pool, st.attempted, t, Ready);
  }

  lemma PhaseRecorded(pool: map<nat, Task>, attempted: map<Id, nat>, t: nat, phase: Phase)
    requires Recorded(pool, attempted) && t in pool && !phase.Wrote?
    ensures Recorded(pool[t := pool[t].(phase := phase)], attempted)
  {
  }

  lemma StepCovered(st: State, a: Action, id: Id)
    requires Enabled(st, a) && Inv(st) && id in Step(st, a).requested
    ensures Covered(Step(st, a), id)
  {
    if a.Commit? || (a.Rewrite? && a.id != id) {
      OtherCovered(st, a, id);
    } else if !a.Rewrite? {
      TaskStepCovered(st, a, id);
    }
  }

  /** A commit, or a request for another id. */
  lemma OtherCovered(st: State, a: Action, id: Id)
    requires Enabled(st, a) && Inv(st) && id in st.requested && (a.Commit? || (a.Rewrite? && a.id != id))
    ensures Covered(Step(st, a), id)
  {
    var st' := Step(st, a);
    assert Covered(st, id);
    if id !in st.needRewrite && id in st.rewriteTasks {
      var t :| t in st.pool && st.pool[t].id == id && WillDo(st.pool[t].phase, Get(st.requested, id));
      assert t in st'.pool && st'.pool[t] == st.pool[t];
    }
  }

  /** A step of a task, whether for this id or another one. */
  lemma TaskStepCovered(st: State, a: Action, id: Id)
    requires Enabled(st, a) && Inv(st) && !a.Commit? && !a.Rewrite? && id in st.requested
    ensures Covered(Step(st, a), id)
  {
    var st' := Step(st, a);
    assert Covered(st, id);
    if st.pool[a.t].id == id {
      if a.t in st'.pool {
        assert id in st'.needRewrite || WillDo(st'.pool[a.t].phase, Get(st'.requested, id));
      }
    } else if id !in st.needRewrite && id in st.rewriteTasks {
      var t :| t in st.pool && st.pool[t].id == id && WillDo(st.pool[t].phase, Get(st.requested, id));
      assert t in st'.pool && st'.pool[t] == st.pool[t];
    }
  }

  lemma StepInv(st: State, a: Action)
    requires Enabled(st, a) && Inv(st)
    ensures Inv(Step(st, a))
  {
    StepOneTaskEach(st, a);
    StepTimely(st, a);
    forall id | id in Step(st, a).requested ensures Covered(Step(st, a), id) {
      StepCovered(st, a, id);
    }
  }

  /* Whole runs */

  predicate Possible(st: State, run: seq<Action>)
    decreases run
  {
    run == [] || (Enabled(st, run[0]) && Possible(Step(st, run[0]), run[1..]))
  }

  function Run(st: State, run: seq<Action>): State
    requires Possible(st, run)
    decreases run
  {
    if run == [] then st else Run(Step(st, run[0]), run[1..])
  }

  lemma {:induction false} RunInv(st: State, run: seq<Action>)
    requires Inv(st) && Possible(st, run)
    ensures Inv(Run(st, run))
    decreases run
  {
    if run != [] {
      StepInv(st, run[0]);
      RunInv(Step(st, run[0]), run[1..]);
    }
  }

  /** In every interleaving each id has at most one live task, and no request is lost: once no
      task for an id is live, the last attempt to write its file had queried the database no earlier
      than the last commit before the last call of `Rewrite`. */
  lemma NoLostUpdate(run: seq<Action>, id: Id)
    requires Possible(INITIAL, run)
    ensures var st := Run(INITIAL, run);
      && OneTaskEach(st)
      && (id in st.requested && !Live(st.pool, id) ==> Get(st.attempted, id) >= st.requested[id])
  {
    RunInv(INITIAL, run);
    var st := Run(INITIAL, run);
    assert id in st.requested ==> Covered(st, id);
  }

  /** The last attempt to write the file of `id` along a run, if any, succeeded. */
  predicate LastWriteOk(st: State, run: seq<Action>, id: Id, sofar: bool)
    requires Possible(st, run)
    decreases run
  {
    if run == [] then sofar
    else LastWriteOk(Step(st, run[0]), run[1..], id,
                     if run[0].Write? && st.pool[run[0].t].id == id then run[0].ok else sofar)
  }

  lemma {:induction false} LastWriteInFile(st: State, run: seq<Action>, id: Id, sofar: bool)
    requires Possible(st, run) && (sofar ==> Get(st.file, id) == Get(st.attempted, id))
    ensures LastWriteOk(st, run, id, sofar) ==> Get(Run(st, run).file, id) == Get(Run(st, run).attempted, id)
    decreases run
  {
    if run != [] {
      LastWriteInFile(Step(st, run[0]), run[1..], id,
                      if run[0].Write? && st.pool[run[0].t].id == id then run[0].ok else sofar);
    }
  }

  /** If that last attempt succeeded, the file itself is as new as was asked for. */
  lemma FileIsFresh(run: seq<Action>, id: Id)
    requires Possible(INITIAL, run)
    requires id in Run(INITIAL, run).requested && !Live(Run(INITIAL, run).pool, id)
    requires LastWriteOk(INITIAL, run, id, true)
    ensures Get(Run(INITIAL, run).file, id) >= Run(INITIAL, run).requested[id]
  {
    NoLostUpdate(run, id);
    LastWriteInFile(INITIAL, run, id, true);
  }

  /* Progress */

  function PhaseWork(phase: Phase): nat {
    match phase
    case Queued => 4
    case Ready => 3
    case HasQueried(_) => 2
    case Wrote(_) => 1
  }

  /** How many steps the task for an id can still take before it ends, if no more is asked of it. */
  ghost function Work(st: State, id: Id): nat {
    (if id in st.needRewrite then 4 else 0) +
    (if Live(st.pool, id) then var t :| t in st.pool && st.pool[t].id == id; PhaseWork(st.pool[t].phase) else 0)
  }

  lemma WorkOf(st: State, t: nat)
    requires OneTaskEach(st) && t in st.pool
    ensures Work(st, st.pool[t].id) == (if st.pool[t].id in st.needRewrite then 4 else 0) + PhaseWork(st.pool[t].phase)
  {
  }

  /** A live task can always take a step. */
  lemma TasksCanStep(st: State, t: nat, ok: bool) returns (a: Action)
    requires t in st.pool
    ensures Enabled(st, a) && TaskStep(a, t)
  {
    match st.pool[t].phase
    case Queued => a := Begin(t);
    case Ready => a := Query(t);
    case HasQueried(_) => a := Write(t, ok);
    case Wrote(_) => a := Check(t);
  }

  predicate TaskStep(a: Action, t: nat) {
    !a.Commit? && !a.Rewrite? && a.t == t
  }

  /** Every step a task takes brings it closer to its end: with no further requests every task ends. */
  lemma TasksEnd(st: State, t: nat, a: Action)
    requires Inv(st) && t in st.pool && Enabled(st, a) && TaskStep(a, t)
    ensures Work(Step(st, a), st.pool[t].id) < Work(st, st.pool[t].id)
  {
    StepOneTaskEach(st, a);
    WorkOf(st, t);
    if t in Step(st, a).pool {
      WorkOf(Step(st, a), t);
    } else {
      assert !Live(Step(st, a).pool, st.pool[t].id);
    }
  }

  /** And it leaves the others as they were. */
  lemma TasksIndependent(st: State, t: nat, a: Action, u: nat)
    requires Inv(st) && t in st.pool && Enabled(st, a) && TaskStep(a, t) && u in st.pool && u != t
    ensures u in Step(st, a).pool && Step(st, a).pool[u] == st.pool[u]
    ensures Work(Step(st, a), st.pool[u].id) == Work(st, st.pool[u].id)
  {
    StepOneTaskEach(st, a);
    WorkOf(st, u);
    WorkOf(Step(st, a), u);
  }

  /** Whether this is a step of the task for `id`. */
  predicate StepFor(st: State, a: Action, id: Id)
    requires Enabled(st, a)
  {
    !a.Commit? && !a.Rewrite? && st.pool[a.t].id == id
  }

  lemma OthersLeaveTask(st: State, a: Action, t: nat)
    requires Inv(st) && Enabled(st, a) && t in st.pool && !StepFor(st, a, st.pool[t].id)
    ensures t in Step(st, a).pool && Step(st, a).pool[t] == st.pool[t]
  {
  }

  lemma OthersStartNone(st: State, a: Action, id: Id)
    requires Inv(st) && Enabled(st, a) && !Live(st.pool, id) && a != Action.Rewrite(id)
    ensures !Live(Step(st, a).pool, id)
  {
    forall t | t in Step(st, a).pool ensures Step(st, a).pool[t].id != id {
      assert t in st.pool ==> Step(st, a).pool[t].id == st.pool[t].id;
    }
  }

  lemma OthersKeepRequest(st: State, a: Action, id: Id)
    requires Enabled(st, a) && !StepFor(st, a, id) && a != Action.Rewrite(id)
    ensures id in Step(st, a).needRewrite <==> id in st.needRewrite
  {
  }

  /** No other action makes that task's work more or less, unless it is a request for the same id. */
  lemma OthersKeepWork(st: State, a: Action, id: Id)
    requires Inv(st) && Enabled(st, a) && !StepFor(st, a, id) && a != Action.Rewrite(id)
    ensures Work(Step(st, a), id) == Work(st, id)
  {
    OthersKeepRequest(st, a, id);
    if Live(st.pool, id) {
      StepOneTaskEach(st, a);
      var t :| t in st.pool && st.pool[t].id == id;
      OthersLeaveTask(st, a, t);
      WorkOf(st, t);
      WorkOf(Step(st, a), t);
    } else {
      OthersStartNone(st, a, id);
    }
  }

  /** How many steps the tasks for `id` take along a run. */
  function StepsFor(st: State, run: seq<Action>, id: Id): nat
    requires Possible(st, run)
    decreases run
  {
    if run == [] then 0 else (if StepFor(st, run[0], id) then 1 else 0) + StepsFor(Step(st, run[0]), run[1..], id)
  }

  /** Whatever else goes on, until the next request for an id the tasks for it take no more steps
      than were still to be done. */
  lemma {:induction false} RunBound(st: State, run: seq<Action>, id: Id)
    requires Inv(st) && Possible(st, run) && Action.Rewrite(id) !in run
    ensures StepsFor(st, run, id) + Work(Run(st, run), id) <= Work(st, id)
    decreases run
  {
    if run != [] {
      var a := run[0];
      StepInv(st, a);
      RunBound(Step(st, a), run[1..], id);
      if StepFor(st, a, id) {
        TasksEnd(st, a.t, a);
      } else {
        OthersKeepWork(st, a, id);
      }
    }
  }

  /** So a run in which they take that many, or at whose end they can take no other, has ended them. */
  lemma TasksFinish(st: State, run: seq<Action>, id: Id)
    requires Inv(st) && Possible(st, run) && Action.Rewrite(id) !in run
    requires var end := Run(st, run);
      StepsFor(st, run, id) == Work(st, id) || forall a :: Enabled(end, a) ==> !StepFor(end, a, id)
    ensures !Live(Run(st, run).pool, id)
  {
    var end := Run(st, run);
    RunBound(st, run, id);
    RunInv(st, run);
    if Live(end.pool, id) {
      var t :| t in end.pool && end.pool[t].id == id;
      WorkOf(end, t);
      var a := TasksCanStep(end, t, true);
      assert StepFor(end, a, id);
    }
  }

  /* The serialiser as it runs: each method is one atomic action */

  class TagSerialiser {
    var needRewrite: set<Id>
    var rewriteTasks: set<Id>
    var pool: map<nat, Task>
    var nextTask: nat
    ghost var clock: nat
    ghost var committed: map<Id, nat>
    ghost var requested: map<Id, nat>
    ghost var attempted: map<Id, nat>
    ghost var file: map<Id, nat>

    ghost function St(): State
      reads this
    {
      State(needRewrite, rewriteTasks, pool, nextTask, clock, committed, requested, attempted, file)
    }

    constructor ()
      ensures St() == INITIAL && Inv(St())
    {
      needRewrite, rewriteTasks, pool, nextTask := {}, {}, map[], 0;
      clock, committed, requested, attempted, file := 0, map[], map[], map[], map[];
    }

    method Rewrite(id: Id)
      modifies this
      ensures St() == Step(old(St()), Action.Rewrite(id))
    {
      requested := requested[id := Get(committed, id)];
      if id in needRewrite {
        return;
      }
      needRewrite := needRewrite + {id};
      if id in rewriteTasks {
        return;
      }
      rewriteTasks := rewriteTasks + {id};
      pool := pool[nextTask := Task(id, Queued)];
      nextTask := nextTask + 1;
    }

    /** The first critical section of a task. */
    method Begin(t: nat)
      requires Enabled(St(), Action.Begin(t))
      modifies this
      ensures St() == Step(old(St()), Action.Begin(t))
    {
      needRewrite := needRewrite - {pool[t].id};
      pool := pool[t := pool[t].(phase := Ready)];
    }

    /** The critical section at the end of each round: go round again or leave. */
    method Check(t: nat) returns (finished: bool)
      requires Enabled(St(), Action.Check(t))
      modifies this
      ensures St() == Step(old(St()), Action.Check(t))
      ensures finished <==> t !in pool
    {
      var id := pool[t].id;
      if id in needRewrite {
        finished := false;
        needRewrite := needRewrite - {id};
        pool := pool[t := pool[t].(phase := Ready)];
      } else {
        finished := true;
        rewriteTasks := rewriteTasks - {id};
        pool := pool - {t};
      }
    }
  }
}
