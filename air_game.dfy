// The per-frame step of the game component: decay the resources, advance
// the head task, grant its reward and drop it once it completes, and decide
// whether the loop schedules another frame.

module AirGameRedux {
  import opened GameSlice
  import opened TaskSlice

  /** The two pieces of store state a frame touches. */
  datatype World = World(resources: Pool, queue: seq<Task>)

  /** The head of a non-empty queue has a positive duration; the frame divides by it. */
  predicate HeadDefined(q: seq<Task>)
  {
    q != [] ==> q[0].duration > 0.0
  }

  /** The frame's completion test, on the head as it was before the frame. */
  predicate Completes(t: Task, dt: real): (c: bool)
    requires t.duration > 0.0
    ensures dt <= 0.0 && t.progress < 1.0 ==> !c
  {
    t.progress + dt / t.duration >= 1.0
  }

  /** Whether a loop is scheduled for the given queue snapshot (start and reschedule use the same test). */
  predicate Scheduled(q: seq<Task>)
  {
    |q| > 0
  }

  /** The task the "Add Air Task" button enqueues. */
  const AirTask: TaskSpec := TaskSpec(3000.0, Reward(Air, 20.0))

  /** The head's id finds the head. */
  lemma FindHead(q: seq<Task>)
    requires q != []
    ensures FindIndex(q, q[0].id) == Some(0)
  {
  }

  /** One frame of `dt` milliseconds, as the sequence of actions the loop dispatches. */
  function Frame(p: Pool, q: seq<Task>, dt: real): (w: World)
    requires HeadDefined(q)
    ensures q == [] ==> w == World(Decayed(p, dt), [])
    ensures |w.queue| <= |q|
  {
    var decayed := Decayed(p, dt);
    if q == [] then World(decayed, q)
    else
      var head := q[0];
      FindHead(q);
      var advanced := Advanced(q, head.id, dt);
      if Completes(head, dt) then
        World(Added(decayed, head.reward.resource, head.reward.amount), Removed(advanced, head.id))
      else
        World(decayed, advanced)
  }

  /** The snapshot's completion test is the same as "the head's updated progress reaches 1". */
  lemma CompletionTest(q: seq<Task>, dt: real)
    requires q != [] && q[0].duration > 0.0
    ensures Completes(q[0], dt) <==> Advanced(q, q[0].id, dt)[0].progress >= 1.0
  {
    FindHead(q);
  }

  /** A completing frame adds the head's reward once, to its resource, on top of the decay, and leaves the old tail. */
  lemma FrameCompletes(p: Pool, q: seq<Task>, dt: real)
    requires IdsIncreasing(q) && q != [] && q[0].duration > 0.0
    requires Completes(q[0], dt)
    ensures Frame(p, q, dt).queue == q[1..]
    ensures Frame(p, q, dt).resources == Added(Decayed(p, dt), q[0].reward.resource, q[0].reward.amount)
    ensures forall o ::
              Frame(p, q, dt).resources.Get(o) ==
              Decayed(p, dt).Get(o) + (if o == q[0].reward.resource then q[0].reward.amount else 0.0)
  {
    FindHead(q);
    var advanced := Advanced(q, q[0].id, dt);
    assert IdsIncreasing(advanced);
    RemovedPresent(advanced, 0);
    assert advanced[1..] == q[1..];
  }

  /** A frame that does not complete changes resources only by decay, and only the head's progress. */
  lemma FrameContinues(p: Pool, q: seq<Task>, dt: real)
    requires q != [] && q[0].duration > 0.0
    requires !Completes(q[0], dt)
    ensures Frame(p, q, dt).resources == Decayed(p, dt)
    ensures Frame(p, q, dt).queue == [q[0].(progress := q[0].progress + dt / q[0].duration)] + q[1..]
  {
    FindHead(q);
    var advanced := Advanced(q, q[0].id, dt);
    assert advanced[1..] == q[1..] by {
      forall j | 0 <= j < |q| - 1 ensures advanced[1..][j] == q[1..][j] {
        assert advanced[j + 1] == q[j + 1];
      }
    }
    assert advanced == [advanced[0]] + advanced[1..];
  }

  /** Frames keep the task-state invariant. */
  lemma FrameKeepsWellFormed(p: Pool, q: seq<Task>, nextId: nat, dt: real)
    requires WellFormed(q, nextId) && HeadDefined(q)
    ensures WellFormed(Frame(p, q, dt).queue, nextId)
  {
    if q != [] {
      FindHead(q);
      var advanced := Advanced(q, q[0].id, dt);
      AdvancedWellFormed(q, nextId, q[0].id, dt);
      RemovedWellFormed(advanced, nextId, q[0].id);
    }
  }

  /** Frames keep every resource non-negative when the head's reward is non-negative. */
  lemma FrameKeepsNonNegative(p: Pool, q: seq<Task>, dt: real)
    requires NonNegative(p) && HeadDefined(q)
    requires q != [] ==> q[0].reward.amount >= 0.0
    ensures NonNegative(Frame(p, q, dt).resources)
  {
    DecayedNonNegative(p, dt);
    if q != [] {
      AddedNonNegative(Decayed(p, dt), q[0].reward.resource, q[0].reward.amount);
    }
  }

  /** After a frame the loop stays scheduled exactly when a task is left: more than one task, or one that did not complete. */
  lemma FrameKeepsLoopRunning(p: Pool, q: seq<Task>, dt: real)
    requires IdsIncreasing(q) && q != [] && q[0].duration > 0.0
    ensures Scheduled(Frame(p, q, dt).queue) <==> |q| >= 2 || !Completes(q[0], dt)
  {
    if Completes(q[0], dt) {
      FrameCompletes(p, q, dt);
    } else {
      FrameContinues(p, q, dt);
    }
  }

  /** The button's task, run for 3000 ms on its own, grants 20 air after the decay and empties the queue. */
  lemma AirTaskFrame(p: Pool, id: nat)
    ensures Frame(p, [NewTask(id, AirTask)], 3000.0) == World(p.(air := Max(0.0, p.air - 6.0) + 20.0), [])
  {
    var q := [NewTask(id, AirTask)];
    assert Completes(q[0], 3000.0);
    FrameCompletes(p, q, 3000.0);
  }

  /** The loop's decision to start: only when the queue holds a task. */
  method StartLoop(tasks: TaskState) returns (started: bool)
    ensures started == Scheduled(tasks.queue)
  {
    started := |tasks.queue| > 0;
  }

  /** One frame of the game loop over the two stores, reading the queue as it was before the frame. */
  method GameLoop(game: GameState, tasks: TaskState, dt: real) returns (reschedule: bool)
    requires tasks.Valid() && HeadDefined(tasks.queue)
    modifies game, tasks
    ensures tasks.Valid() && tasks.nextId == old(tasks.nextId)
    ensures World(game.resources, tasks.queue) == Frame(old(game.resources), old(tasks.queue), dt)
    ensures reschedule == Scheduled(old(tasks.queue))
  {
    var snapshot := tasks.queue;
    game.Tick(dt);
    if |snapshot| > 0 {
      var current := snapshot[0];
      FindHead(snapshot);
      tasks.UpdateTaskProgress(current.id, dt);
      if current.progress + dt / current.duration >= 1.0 {
        game.AddResource(current.reward.resource, current.reward.amount);
        tasks.CompleteTask(current.id);
      }
    }
    reschedule := |snapshot| > 0;
  }

  /** The "Add Air Task" button: enqueue a 3000 ms task rewarding 20 air. */
  method HandleAddAirTask(tasks: TaskState)
    requires tasks.Valid()
    modifies tasks
    ensures tasks.Valid()
    ensures tasks.queue == old(tasks.queue) + [NewTask(old(tasks.nextId), AirTask)]
    ensures tasks.nextId == old(tasks.nextId) + 1
  {
    tasks.AddTask(AirTask);
  }

  /**
   * From a fresh game, one press of the button starts the loop; a 3000 ms frame
   * then brings air from 100 to 114 and empties the queue, and the loop is not
   * started again for the empty queue.
   */
  method AirTaskScenario() returns (air: real, remaining: nat, started: bool, restarted: bool)
    ensures air == 114.0 && remaining == 0
    ensures started && !restarted
  {
    var game := new GameState();
    var tasks := new TaskState();
    HandleAddAirTask(tasks);
    started := StartLoop(tasks);
    var resources := game.resources;
    var _ := GameLoop(game, tasks, 3000.0);
    AirTaskFrame(resources, 0);
    air := game.resources.air;
    remaining := |tasks.queue|;
    restarted := StartLoop(tasks);
  }
}
