/**
 Transactions under every interleaving (internal/store/memory/store.go, `Tx`): the state is
 cloned under a read lock, the body runs on the clone with no lock, and the clone is swapped in
 under a write lock. `DeleteDeliveryJob` and `SaveSigningMaterial` write the shared state in place.
 */
module Isolation {
  import opened Common
  import opened Domain
  import opened StoreSpec

  /** A running transaction: the snapshot it started from, what its body did so far, and its clone. */
  datatype Transaction = Transaction(snapshot: StoreState, body: seq<Op>, working: StoreState)

  datatype World = World(shared: StoreState, running: map<nat, Transaction>)

  datatype Step =
    | Begin(id: nat)
    | Work(id: nat, op: Op)      // one call of the body; a failing one ends the transaction
    | Abort(id: nat)             // the body fails on its own account
    | Commit(id: nat)
    | DeleteJobInPlace(job: string)
    | SaveSigningMaterialInPlace(material: string)

  ghost predicate Enabled(cfg: Config, w: World, step: Step) {
    match step
    case Begin(id) => id !in w.running
    case Work(id, op) => id in w.running && Admissible(cfg, op)
    case Abort(id) => id in w.running
    case Commit(id) => id in w.running
    case DeleteJobInPlace(_) => true
    case SaveSigningMaterialInPlace(_) => true
  }

  function Next(w: World, step: Step): World
    requires step.Work? || step.Commit? ==> step.id in w.running
  {
    match step
    case Begin(id) => w.(running := w.running[id := Transaction(w.shared, [], w.shared)])
    case Work(id, op) =>
      var tx := w.running[id];
      var r := Apply(tx.working, op);
      if r.Err? then w.(running := Drop'(w.running, id))
      else w.(running := w.running[id := Transaction(tx.snapshot, tx.body + [op], r.value)])
    case Abort(id) => w.(running := Drop'(w.running, id))
    case Commit(id) => World(w.running[id].working, Drop'(w.running, id))
    case DeleteJobInPlace(job) => w.(shared := DeleteJob(w.shared, job))
    case SaveSigningMaterialInPlace(material) => w.(shared := w.shared.(signingMaterial := material))
  }

  function Drop'(running: map<nat, Transaction>, id: nat): map<nat, Transaction> {
    map k | k in running && k != id :: running[k]
  }

  /** A run: the states it visits, each from the one before by an enabled step. */
  ghost predicate IsRun(cfg: Config, states: seq<World>, steps: seq<Step>) {
    && |states| == |steps| + 1
    && states[0] == World(EMPTY, map[])
    && forall i :: 0 <= i < |steps| ==> Enabled(cfg, states[i], steps[i]) && states[i + 1] == Next(states[i], steps[i])
  }

  // ---- Single-state invariants hold under every interleaving -------------------------------------------

  /** What running the whole body at once on a state would give. */
  function ApplyAll(s: StoreState, body: seq<Op>): Result<StoreState, Error> {
    if body == [] then Ok(s)
    else
      var r := ApplyAll(s, body[..|body| - 1]);
      if r.Err? then r else Apply(r.value, body[|body| - 1])
  }

  ghost predicate Sound(cfg: Config, w: World) {
    && Indexed(cfg, w.shared)
    && forall id :: id in w.running ==>
         && Indexed(cfg, w.running[id].working)
         && ApplyAll(w.running[id].snapshot, w.running[id].body) == Ok(w.running[id].working)
  }

  lemma NextKeepsSound(cfg: Config, w: World, step: Step)
    requires Sound(cfg, w) && Enabled(cfg, w, step)
    ensures Sound(cfg, Next(w, step))
  {
    match step
    case Work(id, op) =>
      var tx := w.running[id];
      if Apply(tx.working, op).Ok? {
        ApplyKeepsIndexes(cfg, tx.working, op);
        assert (tx.body + [op])[..|tx.body|] == tx.body;
      }
    case DeleteJobInPlace(job) => DeleteJobKeepsIndexes(cfg, w.shared, job);
    case SaveSigningMaterialInPlace(_) =>
      assert forall t :: SubsOf(Next(w, step).shared, t) == SubsOf(w.shared, t);
    case _ =>
  }

  /** In every state of every run, with any interleaving of any transactions, both indexes are exact. */
  lemma {:induction false} RunKeepsIndexes(cfg: Config, states: seq<World>, steps: seq<Step>, i: nat)
    requires IsRun(cfg, states, steps) && i <= |steps|
    ensures Sound(cfg, states[i]) && Indexed(cfg, states[i].shared)
  {
    if i > 0 {
      RunKeepsIndexes(cfg, states, steps, i - 1);
      NextKeepsSound(cfg, states[i - 1], steps[i - 1]);
    }
  }

  // ---- Transactions that never commit ------------------------------------------------------------------------

  predicate Of(step: Step, id: nat) {
    match step
    case Begin(x) => x == id
    case Work(x, _) => x == id
    case Abort(x) => x == id
    case Commit(x) => x == id
    case _ => false
  }

  /** The steps without those of one transaction. */
  function Erase(steps: seq<Step>, id: nat): seq<Step> {
    if steps == [] then []
    else
      var last := steps[|steps| - 1];
      Erase(steps[..|steps| - 1], id) + if Of(last, id) then [] else [last]
  }

  /** The world without one transaction. */
  function Forget(w: World, id: nat): World { w.(running := Drop'(w.running, id)) }

  lemma StepOfErased(cfg: Config, w: World, step: Step, id: nat)
    requires Enabled(cfg, w, step) && Of(step, id) && !step.Commit?
    ensures Forget(Next(w, step), id) == Forget(w, id)
  {
  }

  lemma StepOfOther(cfg: Config, w: World, step: Step, id: nat)
    requires Enabled(cfg, w, step) && !Of(step, id)
    ensures Enabled(cfg, Forget(w, id), step) && Next(Forget(w, id), step) == Forget(Next(w, step), id)
  {
  }

  /**
   A transaction that does not commit, because its body fails or is still running, might as well not
   have been: the run without its steps is a run, and ends in the same shared state, with the same other
   transactions.
   */
  lemma {:induction false} BodyIsInvisible(cfg: Config, states: seq<World>, steps: seq<Step>, id: nat)
    returns (others: seq<World>)
    requires IsRun(cfg, states, steps) && Commit(id) !in steps
    ensures IsRun(cfg, others, Erase(steps, id))
    ensures others[|others| - 1] == Forget(states[|steps|], id)
    ensures others[|others| - 1].shared == states[|steps|].shared
  {
    if steps == [] {
      others := states;
    } else {
      var n := |steps| - 1;
      others := BodyIsInvisible(cfg, states[..n + 1], steps[..n], id);
      if Of(steps[n], id) {
        StepOfErased(cfg, states[n], steps[n], id);
      } else {
        StepOfOther(cfg, states[n], steps[n], id);
        others := others + [Forget(states[n + 1], id)];
      }
    }
  }

  // ---- When a transaction is atomic -----------------------------------------------------------------------

  /**
   A commit installs what the body makes of the snapshot; with a current snapshot that is the
   effect of running the whole body at once on the state it replaces.
   */
  lemma CommitIsAtomic(cfg: Config, states: seq<World>, steps: seq<Step>, i: nat, id: nat)
    requires IsRun(cfg, states, steps) && i < |steps| && steps[i] == Commit(id)
    ensures var w := states[i]; var tx := w.running[id];
      && Ok(states[i + 1].shared) == ApplyAll(tx.snapshot, tx.body)
      && (tx.snapshot == w.shared ==> Ok(states[i + 1].shared) == ApplyAll(w.shared, tx.body))
  {
    RunKeepsIndexes(cfg, states, steps, i);
  }

  /** No in-place write and no other commit happened while the transaction ran. */
  ghost predicate Undisturbed(steps: seq<Step>, from: nat, to: nat)
    requires from <= to <= |steps|
  {
    forall k :: from <= k < to ==> steps[k].Begin? || steps[k].Work? || steps[k].Abort?
  }

  lemma {:induction false} SnapshotStaysCurrent(cfg: Config, states: seq<World>, steps: seq<Step>, begin: nat, i: nat,
    id: nat)
    requires IsRun(cfg, states, steps) && begin < i <= |steps| && steps[begin] == Begin(id)
    requires forall k :: begin < k < i ==> steps[k] != Begin(id)
    requires Undisturbed(steps, begin, i)
    ensures states[i].shared == states[begin].shared
    ensures id in states[i].running ==> states[i].running[id].snapshot == states[i].shared
  {
    if i > begin + 1 {
      SnapshotStaysCurrent(cfg, states, steps, begin, i - 1, id);
    }
  }

  /** If nothing else wrote between the snapshot and the swap, the transaction is one atomic step. */
  lemma UndisturbedTransactionIsAtomic(cfg: Config, states: seq<World>, steps: seq<Step>, begin: nat, i: nat, id: nat)
    requires IsRun(cfg, states, steps) && begin < i < |steps| && steps[begin] == Begin(id) && steps[i] == Commit(id)
    requires forall k :: begin < k < i ==> steps[k] != Begin(id)
    requires Undisturbed(steps, begin, i)
    ensures Ok(states[i + 1].shared) == ApplyAll(states[begin].shared, states[i].running[id].body)
    ensures states[begin].shared == states[i].shared
  {
    SnapshotStaysCurrent(cfg, states, steps, begin, i, id);
    CommitIsAtomic(cfg, states, steps, i, id);
  }

  // ---- When it is not -----------------------------------------------------------------------------------------

  /**
   A disturbed transaction loses updates: a delivered job that the worker deletes in place, after
   another transaction took its snapshot, is back in the queue once that transaction commits.
   */
  lemma DeletedJobComesBack(cfg: Config, job: DeliveryJob) returns (states: seq<World>, steps: seq<Step>)
    ensures IsRun(cfg, states, steps) && |steps| == 6
    ensures steps[4] == DeleteJobInPlace(job.id) && job.id !in states[5].shared.deliveryJobs
    ensures job.id in states[6].shared.deliveryJobs
    ensures forall i :: 3 <= i < 6 ==> !steps[i].Work?
  {
    steps := [Begin(0), Work(0, OpEnqueueJob(job)), Commit(0), Begin(1), DeleteJobInPlace(job.id), Commit(1)];
    var w0 := World(EMPTY, map[]);
    var w1 := Next(w0, steps[0]);
    var w2 := Next(w1, steps[1]);
    var w3 := Next(w2, steps[2]);
    var w4 := Next(w3, steps[3]);
    var w5 := Next(w4, steps[4]);
    var w6 := Next(w5, steps[5]);
    states := [w0, w1, w2, w3, w4, w5, w6];
    assert w3.shared.deliveryJobs == map[job.id := job];
  }
}
