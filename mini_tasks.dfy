/** The "Interactive Challenges" panel: six tasks (one only for compact
    objects), a completion check run against the store's controls, the
    "Quick Action" that drives the store toward a task's target, and the
    panel's own state, the set of completed task ids and the current task
    index. */
module MiniTasks {
  import opened Common
  import opened AppStore

  /** A task's target: the one control it is about. */
  datatype Target =
    | Speed(speed: real)
    | GravityOn(gravity: bool)
    | EscapeOn(escape: bool)
    | SelectObject(key: string)
    | TimeDilationOn(dilation: bool)

  /** The task ids, `speed_experiment` to `high_speed`. */
  datatype TaskId = SpeedExperiment | GravityVisualization | EscapeVelocity | ObjectComparison | TimeDilation | HighSpeed

  datatype Task = Task(id: TaskId, target: Target, tolerance: Option<real>, requiresCompact: bool)

  /** The key of the object the comparison task asks for. */
  function ComparisonKey(name: string): string
  {
    if name == "Earth" then "blackHole" else "earth"
  }

  /** The task list, whose comparison task depends on the selected name. */
  function Tasks(name: string): seq<Task>
  {
    [Task(SpeedExperiment, Speed(0.2), Some(0.02), false),
     Task(GravityVisualization, GravityOn(true), None, false),
     Task(EscapeVelocity, EscapeOn(true), None, false),
     Task(ObjectComparison, SelectObject(ComparisonKey(name)), None, false),
     Task(TimeDilation, TimeDilationOn(true), None, true),
     Task(HighSpeed, Speed(0.9), Some(0.05), false)]
  }

  const AllTaskIds: set<TaskId> :=
    {SpeedExperiment, GravityVisualization, EscapeVelocity, ObjectComparison, TimeDilation, HighSpeed}

  /** The task filter: a compact-only task is dropped for other objects. */
  predicate Offered(t: Task, kind: string)
  {
    !(t.requiresCompact && kind != "compact")
  }

  function OfferedFor(kind: string): Task -> bool
  {
    t => Offered(t, kind)
  }

  /** `availableTasks`. */
  function AvailableTasks(name: string, kind: string): seq<Task>
  {
    Filter(Tasks(name), OfferedFor(kind))
  }

  /** The available tasks are all six for a compact object and the other
      five otherwise. */
  lemma AvailableIs(name: string, kind: string)
    ensures var ts := Tasks(name);
            AvailableTasks(name, kind) == ts[..4] + (if kind == "compact" then [ts[4]] else []) + ts[5..]
  {
    OnlyFifthCompact(Tasks(name), kind);
  }

  lemma OnlyFifthCompact(ts: seq<Task>, kind: string)
    requires |ts| == 6 && ts[4].requiresCompact
    requires forall i :: 0 <= i < |ts| && i != 4 ==> !ts[i].requiresCompact
    ensures Filter(ts, OfferedFor(kind)) == ts[..4] + (if kind == "compact" then [ts[4]] else []) + ts[5..]
  {
    var p := OfferedFor(kind);
    var front, back := ts[..4], ts[5..];
    assert ts == front + [ts[4]] + back;
    assert forall i :: 0 <= i < |front| ==> p(front[i]) by {
      forall i | 0 <= i < |front| ensures p(front[i]) { assert front[i] == ts[i]; }
    }
    assert forall i :: 0 <= i < |back| ==> p(back[i]) by {
      forall i | 0 <= i < |back| ensures p(back[i]) { assert back[i] == ts[i + 5]; }
    }
    FilterAround(front, ts[4], back, p);
  }

  /** Filtering a list whose elements all pass except perhaps one keeps
      everything around that one. */
  lemma {:induction false} FilterAround<T>(front: seq<T>, x: T, back: seq<T>, p: T -> bool)
    requires forall i :: 0 <= i < |front| ==> p(front[i])
    requires forall i :: 0 <= i < |back| ==> p(back[i])
    ensures Filter(front + [x] + back, p) == front + (if p(x) then [x] else []) + back
  {
    var one := [x];
    var kept := if p(x) then one else [];
    FilterSingle(x, p);
    FilterAll(front, p);
    FilterAll(back, p);
    FilterAppend(front, one, p);
    FilterAppend(front + one, back, p);
  }

  /** Five or six tasks, and the time-dilation task is offered exactly for
      compact objects. */
  lemma AvailableShape(name: string, kind: string)
    ensures |AvailableTasks(name, kind)| == if kind == "compact" then 6 else 5
    ensures (exists t :: t in AvailableTasks(name, kind) && t.id == TimeDilation) <==> kind == "compact"
  {
    AvailableIs(name, kind);
    var ts := Tasks(name);
    var front, back := ts[..4], ts[5..];
    forall t | t in front ensures t.id != TimeDilation {
      var i :| 0 <= i < 4 && front[i] == t;
    }
    assert forall t :: t in back ==> t.id != TimeDilation;
    if kind == "compact" {
      assert ts[4] in AvailableTasks(name, kind);
    }
  }

  /** What the panel reads from the store.  The store defines no escape
      velocity flag, so `showEscapeVelocity` is `None` (undefined) there. */
  datatype Controls = Controls(speed: real, showGravityField: bool, showEscapeVelocity: Option<bool>,
                               showTimeDilation: bool, name: string, kind: string)

  function ControlsOf(store: Store): Controls
    reads store
  {
    Controls(store.spacecraftSpeed, store.showGravityField, None, store.showTimeDilation,
             store.selectedObject.body.name, store.selectedObject.body.kind)
  }

  /** `currentTask.tolerance || 0.01`: a missing or zero tolerance is 0.01. */
  function Tolerance(t: Task): (tol: real)
    ensures tol > 0.0 || (t.tolerance.Some? && tol == t.tolerance.value)
    ensures t.tolerance.None? ==> tol == 0.01
  {
    if t.tolerance.Some? && t.tolerance.value != 0.0 then t.tolerance.value else 0.01
  }

  function Abs(x: real): real { if x < 0.0 then -x else x }

  /** The name with letters lower-cased and white space removed. */
  function Squeezed(name: string): string
  {
    RemoveSpaces(ToLower(name))
  }

  /** The completion check of the effect. */
  predicate IsCompleted(t: Task, c: Controls)
  {
    match t.target
    case Speed(v) => Abs(c.speed - v) <= Tolerance(t)
    case GravityOn(b) => c.showGravityField == b
    case EscapeOn(b) => c.showEscapeVelocity == Some(b)
    case TimeDilationOn(b) => c.showTimeDilation == b
    case SelectObject(key) => Squeezed(c.name) == if key == "earth" then "earth" else "stellarblackhole"
  }

  /** A speed task is complete exactly within its tolerance on either side
      of the target. */
  lemma SpeedCompletion(t: Task, c: Controls)
    requires t.target.Speed?
    ensures IsCompleted(t, c) <==> t.target.speed - Tolerance(t) <= c.speed <= t.target.speed + Tolerance(t)
    ensures t.tolerance.None? ==> (IsCompleted(t, c) <==> Abs(c.speed - t.target.speed) <= 0.01)
  {
  }

  /** The only available task with the escape-velocity id is the one whose
      target is the escape-velocity flag. */
  lemma EscapeIdHasEscapeTarget(name: string, kind: string)
    ensures forall t :: t in AvailableTasks(name, kind) && t.id == EscapeVelocity ==> t.target == EscapeOn(true)
  {
    forall t | t in AvailableTasks(name, kind) && t.id == EscapeVelocity
      ensures t.target == EscapeOn(true)
    {
      var ts := Tasks(name);
      var i :| 0 <= i < 6 && ts[i] == t;
    }
  }

  /** With the store as it is, the escape-velocity task is never complete. */
  lemma EscapeTaskNeverCompletes(store: Store, t: Task)
    requires t.target == EscapeOn(true)
    ensures !IsCompleted(t, ControlsOf(store))
  {
  }

  /** "Quick Action": set the speed, toggle a flag that differs from the
      target, or select the object.  A time-dilation target does nothing.
      An escape-velocity target calls `toggleEscapeVelocity`, which the store
      does not define, so the call throws: `thrown` reports that, and
      nothing is changed. */
  method HandleTaskAction(t: Task, store: Store) returns (thrown: bool)
    requires "earth" in store.catalog
    modifies store`spacecraftSpeed, store`showGravityField, store`selectedObject
    ensures thrown <==> t.target.EscapeOn?
    ensures t.target.Speed? ==> store.spacecraftSpeed == t.target.speed
    ensures t.target.GravityOn? ==> store.showGravityField == t.target.gravity
    ensures t.target.SelectObject? ==> store.selectedObject.key == t.target.key
    ensures !t.target.Speed? ==> store.spacecraftSpeed == old(store.spacecraftSpeed)
    ensures !t.target.GravityOn? ==> store.showGravityField == old(store.showGravityField)
    ensures !t.target.SelectObject? ==> store.selectedObject == old(store.selectedObject)
    ensures t.target.GravityOn? ==> IsCompleted(t, ControlsOf(store))
    ensures t.target.Speed? && Tolerance(t) >= 0.0 ==> IsCompleted(t, ControlsOf(store))
  {
    thrown := false;
    match t.target {
      case Speed(v) =>
        store.SetSpacecraftSpeed(v);
      case GravityOn(b) =>
        if store.showGravityField != b {
          store.ToggleGravityField();
        }
      case EscapeOn(b) =>
        thrown := true;
      case SelectObject(key) =>
        store.SetSelectedObject(key);
      case TimeDilationOn(b) =>
    }
  }

  /** The panel's state. */
  class Panel {
    var completedTasks: set<TaskId>
    var currentChallenge: int

    /** The index is never negative. */
    ghost predicate Valid()
      reads this
    {
      currentChallenge >= 0
    }

    /** The escape-velocity task was never recorded. */
    predicate NeverEscaped()
      reads this
    {
      EscapeVelocity !in completedTasks
    }

    constructor ()
      ensures completedTasks == {} && currentChallenge == 0 && Valid() && NeverEscaped()
    {
      completedTasks := {};
      currentChallenge := 0;
    }

    /** The effect: when the current task is complete and not yet recorded,
        record its id and schedule the delayed advance (`scheduled`).  An
        index past the list means there is no current task. */
    method CheckCurrentTask(available: seq<Task>, c: Controls) returns (scheduled: bool)
      requires Valid()
      modifies this`completedTasks
      ensures Valid()
      ensures scheduled <==> currentChallenge < |available| && IsCompleted(available[currentChallenge], c)
                             && available[currentChallenge].id !in old(completedTasks)
      ensures completedTasks == old(completedTasks) + if scheduled then {available[currentChallenge].id} else {}
      ensures old(NeverEscaped()) && c.showEscapeVelocity.None?
              && (forall t :: t in available && t.id == EscapeVelocity ==> t.target.EscapeOn?)
              ==> NeverEscaped()
    {
      scheduled := false;
      if currentChallenge < |available| {
        var t := available[currentChallenge];
        if IsCompleted(t, c) && t.id !in completedTasks {
          completedTasks := completedTasks + {t.id};
          scheduled := true;
        }
      }
    }

    /** The delayed advance: the guard uses the index the effect saw
        (`seen`), the update adds one to the index as it is now. */
    method AdvanceAfterDelay(seen: int, count: nat)
      requires Valid()
      modifies this`currentChallenge
      ensures Valid()
      ensures currentChallenge == if seen < count - 1 then old(currentChallenge) + 1 else old(currentChallenge)
    {
      if seen < count - 1 {
        currentChallenge := currentChallenge + 1;
      }
    }

    /** "Next": never past the last available task. */
    method NextTask(count: nat)
      requires Valid()
      modifies this`currentChallenge
      ensures Valid()
      ensures currentChallenge == if old(currentChallenge) < count - 1 then old(currentChallenge) + 1 else old(currentChallenge)
      ensures old(currentChallenge) < count ==> currentChallenge < count
    {
      if currentChallenge < count - 1 {
        currentChallenge := currentChallenge + 1;
      }
    }

    /** "Previous": never below the first task. */
    method PrevTask()
      requires Valid()
      modifies this`currentChallenge
      ensures Valid()
      ensures currentChallenge == if old(currentChallenge) > 0 then old(currentChallenge) - 1 else 0
    {
      if currentChallenge > 0 {
        currentChallenge := currentChallenge - 1;
      }
    }
  }

  /** The stale guard lets the index run past the list: a task completed at
      index 3 of 5 schedules an advance, "Next" moves to 4, and the delayed
      advance then moves to 5, where there is no current task. */
  method StaleAdvanceOvershoots() returns (p: Panel)
    ensures p.currentChallenge == 5
  {
    p := new Panel();
    p.NextTask(5);
    p.NextTask(5);
    p.NextTask(5);
    var seen := p.currentChallenge;
    p.NextTask(5);
    p.AdvanceAfterDelay(seen, 5);
  }

  /** `completionPercentage`. */
  function CompletionPercentage(completed: set<TaskId>, available: seq<Task>): (pct: real)
    requires |available| > 0
    ensures pct >= 0.0
    ensures pct <= 100.0 <==> |completed| <= |available|
    ensures pct == 100.0 <==> |completed| == |available|
  {
    var pct := (|completed| as real) / (|available| as real) * 100.0;
    PercentageOrder(|completed|, |available|);
    pct
  }

  lemma PercentageOrder(c: nat, n: nat)
    requires n > 0
    ensures (c as real) / (n as real) * 100.0 <= 100.0 <==> c <= n
    ensures (c as real) / (n as real) * 100.0 == 100.0 <==> c == n
  {
    var x := (c as real) / (n as real);
    assert x * (n as real) == c as real;
  }

  /** There are six task ids; without the escape-velocity one at most five
      tasks can be completed. */
  lemma CompletedAtMostFive(completed: set<TaskId>)
    requires EscapeVelocity !in completed
    ensures |completed| <= 5
  {
    var others := AllTaskIds - {EscapeVelocity};
    forall x | x in completed ensures x in others {
      assert x.SpeedExperiment? || x.GravityVisualization? || x.EscapeVelocity? || x.ObjectComparison?
             || x.TimeDilation? || x.HighSpeed?;
    }
    assert |others| == 5;
    SubsetCard(completed, others);
  }

  /** With the store's controls the escape-velocity task is never recorded,
      so at most five tasks are completed while at least five are available:
      the percentage never passes 100, whichever object is selected. */
  lemma PercentageAtMost100(completed: set<TaskId>, name: string, kind: string)
    requires EscapeVelocity !in completed
    ensures |AvailableTasks(name, kind)| >= 5
    ensures CompletionPercentage(completed, AvailableTasks(name, kind)) <= 100.0
  {
    AvailableShape(name, kind);
    CompletedAtMostFive(completed);
  }

  /** The effect as the component runs it, with the available tasks and
      the controls read from the store: the escape-velocity task stays
      unrecorded and the percentage stays at most 100. */
  method RunEffect(p: Panel, store: Store) returns (scheduled: bool)
    requires p.Valid() && p.NeverEscaped()
    modifies p`completedTasks
    ensures p.Valid() && p.NeverEscaped()
    ensures CompletionPercentage(p.completedTasks,
              AvailableTasks(store.selectedObject.body.name, store.selectedObject.body.kind)) <= 100.0
  {
    var name, kind := store.selectedObject.body.name, store.selectedObject.body.kind;
    EscapeIdHasEscapeTarget(name, kind);
    scheduled := p.CheckCurrentTask(AvailableTasks(name, kind), ControlsOf(store));
    PercentageAtMost100(p.completedTasks, name, kind);
  }

  lemma SubsetCard(a: set<TaskId>, b: set<TaskId>)
    requires a <= b
    ensures |a| <= |b|
  {
    assert b == a + (b - a);
  }
}
