// The task queue reducer: a FIFO of timed tasks and the counter that
// hands out their ids.

module TaskSlice {
  import opened GameSlice

  datatype Option<T> = None | Some(value: T)

  datatype Reward = Reward(resource: Resource, amount: real)

  datatype Task = Task(id: nat, progress: real, duration: real, reward: Reward)

  /** The payload of `addTask`: a task without its id and progress. */
  datatype TaskSpec = TaskSpec(duration: real, reward: Reward)

  /** A freshly enqueued task: the given id, no progress, the payload's duration and reward. */
  function NewTask(id: nat, spec: TaskSpec): (t: Task)
    ensures t.id == id && t.progress == 0.0
    ensures t.duration == spec.duration && t.reward == spec.reward
  {
    Task(id, 0.0, spec.duration, spec.reward)
  }

  /** Ids strictly increase along the queue, hence are distinct. */
  ghost predicate IdsIncreasing(q: seq<Task>)
  {
    forall i, j :: 0 <= i < j < |q| ==> q[i].id < q[j].id
  }

  /** The task-state invariant: increasing ids, all below the next id to hand out. */
  ghost predicate WellFormed(q: seq<Task>, nextId: nat)
  {
    IdsIncreasing(q) && forall i :: 0 <= i < |q| ==> q[i].id < nextId
  }

  /** The index of the first task with id `id`, as `find` locates it. */
  function FindIndex(q: seq<Task>, id: nat): (k: Option<nat>)
    ensures k.Some? ==> k.value < |q| && q[k.value].id == id
    ensures k.Some? ==> forall j :: 0 <= j < k.value ==> q[j].id != id
    ensures k.None? ==> forall j :: 0 <= j < |q| ==> q[j].id != id
  {
    if q == [] then None
    else if q[0].id == id then Some(0)
    else match FindIndex(q[1..], id)
      case None => None
      case Some(k) => Some(k + 1)
  }

  /** Progress of task `id` can be advanced: the task it finds has a positive duration. */
  predicate ProgressDefined(q: seq<Task>, id: nat)
  {
    match FindIndex(q, id)
    case None => true
    case Some(i) => q[i].duration > 0.0
  }

  /** The queue after `updateTaskProgress(id, dt)`. */
  function Advanced(q: seq<Task>, id: nat, dt: real): (r: seq<Task>)
    requires ProgressDefined(q, id)
    ensures |r| == |q|
    ensures forall j :: 0 <= j < |q| ==>
      r[j].id == q[j].id && r[j].duration == q[j].duration && r[j].reward == q[j].reward
    ensures FindIndex(q, id).None? ==> r == q
    ensures FindIndex(q, id).Some? ==>
      var i := FindIndex(q, id).value;
      r[i].progress == q[i].progress + dt / q[i].duration &&
      forall j :: 0 <= j < |q| && j != i ==> r[j] == q[j]
    ensures dt >= 0.0 ==> forall j :: 0 <= j < |q| ==> r[j].progress >= q[j].progress
  {
    match FindIndex(q, id)
    case None => q
    case Some(i) => q[i := q[i].(progress := q[i].progress + dt / q[i].duration)]
  }

  /** The queue after `completeTask(id)`: the tasks whose id differs, in their order. */
  function Removed(q: seq<Task>, id: nat): (r: seq<Task>)
    ensures |r| <= |q|
    ensures forall t :: t in r <==> t in q && t.id != id
    ensures (forall j :: 0 <= j < |q| ==> q[j].id != id) ==> r == q
  {
    if q == [] then []
    else if q[0].id == id then Removed(q[1..], id)
    else [q[0]] + Removed(q[1..], id)
  }

  /** Removal distributes over concatenation, so it keeps the relative order of what remains. */
  lemma {:induction false} RemovedConcat(a: seq<Task>, b: seq<Task>, id: nat)
    ensures Removed(a + b, id) == Removed(a, id) + Removed(b, id)
  {
    if a == [] {
      assert a + b == b;
    } else {
      assert (a + b)[0] == a[0];
      assert (a + b)[1..] == a[1..] + b;
      RemovedConcat(a[1..], b, id);
    }
  }

  /** Under increasing ids, removing a present id drops exactly that one task. */
  lemma RemovedPresent(q: seq<Task>, i: nat)
    requires IdsIncreasing(q) && i < |q|
    ensures Removed(q, q[i].id) == q[..i] + q[i + 1..]
    ensures |Removed(q, q[i].id)| == |q| - 1
  {
    var id := q[i].id;
    assert q == q[..i] + ([q[i]] + q[i + 1..]);
    RemovedConcat(q[..i], [q[i]] + q[i + 1..], id);
    RemovedConcat([q[i]], q[i + 1..], id);
    assert Removed([q[i]], id) == [] by {
      assert [q[i]][1..] == [];
    }
    assert Removed(q[..i], id) == q[..i];
    var tail := q[i + 1..];
    assert Removed(tail, id) == tail by {
      forall j | 0 <= j < |tail| ensures tail[j].id != id {
        assert tail[j] == q[i + 1 + j];
      }
    }
  }

  /** Removal keeps ids increasing. */
  lemma {:induction false} RemovedIncreasing(q: seq<Task>, id: nat)
    requires IdsIncreasing(q)
    ensures IdsIncreasing(Removed(q, id))
  {
    if q != [] {
      RemovedIncreasing(q[1..], id);
      if q[0].id != id {
        var tail := q[1..];
        var rest := Removed(tail, id);
        forall k | 0 <= k < |rest| ensures q[0].id < rest[k].id {
          assert rest[k] in tail;
          var j :| 0 <= j < |tail| && tail[j] == rest[k];
          assert tail[j] == q[j + 1];
        }
      }
    }
  }

  /** Appending a task with id `nextId` keeps the invariant once `nextId` moves on by one. */
  lemma AppendedWellFormed(q: seq<Task>, nextId: nat, spec: TaskSpec)
    requires WellFormed(q, nextId)
    ensures WellFormed(q + [NewTask(nextId, spec)], nextId + 1)
  {
  }

  /** A progress update keeps the invariant, since it keeps every id. */
  lemma AdvancedWellFormed(q: seq<Task>, nextId: nat, id: nat, dt: real)
    requires WellFormed(q, nextId) && ProgressDefined(q, id)
    ensures WellFormed(Advanced(q, id, dt), nextId)
  {
  }

  /** Removal keeps the invariant. */
  lemma RemovedWellFormed(q: seq<Task>, nextId: nat, id: nat)
    requires WellFormed(q, nextId)
    ensures WellFormed(Removed(q, id), nextId)
  {
    RemovedIncreasing(q, id);
    var r := Removed(q, id);
    forall j | 0 <= j < |r| ensures r[j].id < nextId {
      assert r[j] in q;
    }
  }

  /** Progress under repeated updates with non-negative elapsed time never decreases. */
  lemma {:induction false} ProgressMonotone(q: seq<Task>, id: nat, dts: seq<real>)
    requires ProgressDefined(q, id)
    requires forall k :: 0 <= k < |dts| ==> dts[k] >= 0.0
    ensures ProgressDefined(AdvancedAll(q, id, dts), id)
    ensures forall j :: 0 <= j < |q| ==> AdvancedAll(q, id, dts)[j].progress >= q[j].progress
    decreases |dts|
  {
    if dts != [] {
      var q1 := Advanced(q, id, dts[0]);
      AdvancedKeepsDefined(q, id, dts[0]);
      ProgressMonotone(q1, id, dts[1..]);
    }
  }

  /** The queue after one `updateTaskProgress(id, dt)` per element of `dts`. */
  function AdvancedAll(q: seq<Task>, id: nat, dts: seq<real>): (r: seq<Task>)
    requires ProgressDefined(q, id)
    ensures |r| == |q|
    decreases |dts|
  {
    if dts == [] then q
    else
      AdvancedKeepsDefined(q, id, dts[0]);
      AdvancedAll(Advanced(q, id, dts[0]), id, dts[1..])
  }

  /** An update finds the same task afterwards, so the next update is defined too. */
  lemma AdvancedKeepsDefined(q: seq<Task>, id: nat, dt: real)
    requires ProgressDefined(q, id)
    ensures FindIndex(Advanced(q, id, dt), id) == FindIndex(q, id)
    ensures ProgressDefined(Advanced(q, id, dt), id)
  {
    FindIndexSameIds(q, Advanced(q, id, dt), id);
  }

  /** `find` by id depends only on the ids along the queue. */
  lemma {:induction false} FindIndexSameIds(q: seq<Task>, r: seq<Task>, id: nat)
    requires |q| == |r| && forall j :: 0 <= j < |q| ==> q[j].id == r[j].id
    ensures FindIndex(r, id) == FindIndex(q, id)
  {
    if q != [] {
      FindIndexSameIds(q[1..], r[1..], id);
    }
  }

  /** The task state: the queue the reducers mutate and the id counter. */
  class TaskState {
    var queue: seq<Task>
    var nextId: nat

    ghost predicate Valid()
      reads this
    {
      WellFormed(queue, nextId)
    }

    constructor ()
      ensures Valid() && queue == [] && nextId == 0
    {
      queue := [];
      nextId := 0;
    }

    method AddTask(spec: TaskSpec)
      requires Valid()
      modifies this
      ensures Valid()
      ensures queue == old(queue) + [NewTask(old(nextId), spec)]
      ensures nextId == old(nextId) + 1
    {
      AppendedWellFormed(queue, nextId, spec);
      queue := queue + [NewTask(nextId, spec)];
      nextId := nextId + 1;
    }

    method UpdateTaskProgress(id: nat, dt: real)
      requires Valid() && ProgressDefined(queue, id)
      modifies this
      ensures Valid()
      ensures queue == Advanced(old(queue), id, dt) && nextId == old(nextId)
    {
      AdvancedWellFormed(queue, nextId, id, dt);
      match FindIndex(queue, id)
      case None =>
      case Some(i) =>
        queue := queue[i := queue[i].(progress := queue[i].progress + dt / queue[i].duration)];
    }

    method CompleteTask(id: nat)
      requires Valid()
      modifies this
      ensures Valid()
      ensures queue == Removed(old(queue), id) && nextId == old(nextId)
    {
      RemovedWellFormed(queue, nextId, id);
      queue := Removed(queue, id);
    }

    method ClearQueue()
      requires Valid()
      modifies this
      ensures Valid()
      ensures queue == [] && nextId == old(nextId)
    {
      queue := [];
    }
  }
}
