/** The event scheduler: a queue ordered by due time, a map of the events not yet cancelled, and one worker. */
module Scheduler {
  import opened Bytes

  class SchedulerTask {
    const cycle: int
    var eventId: nat

    constructor (cycle: int, eventId: nat)
      ensures this.cycle == cycle && this.eventId == eventId
    {
      this.cycle, this.eventId := cycle, eventId;
    }
  }

  /** Where the worker is. While it waits and while it runs a task, the lock is free. */
  datatype Worker =
    | Idle
    | WaitingForSignal
    | WaitingUntil(deadline: int)
    | Popped(task: SchedulerTask, runs: bool, due: int)

  datatype Ran = Ran(task: SchedulerTask, now: int)

  /** The scheduler, and what has happened so far: tasks ever added, stopped, run and deleted. */
  datatype State = State(queue: seq<SchedulerTask>, ids: map<nat, SchedulerTask>, count: nat, worker: Worker,
                         id: map<SchedulerTask, nat>, stopped: set<SchedulerTask>, ran: seq<Ran>,
                         deleted: seq<SchedulerTask>)
  {
    ghost function Added(): set<SchedulerTask> {
      id.Keys
    }
  }

  // ---------------------------------------------------------------- the steps

  /** The id an event gets: its own, or the next number. */
  function IdFor(count: nat, eventId: nat): nat {
    if eventId == 0 then (count + 1) % UINT32 else eventId
  }

  /** `addEvent` */
  ghost function Add(st: State, event: SchedulerTask, eventId: nat): State {
    var n := IdFor(st.count, eventId);
    st.(queue := st.queue + [event], ids := st.ids[n := event], id := st.id[event := n],
        count := if eventId == 0 then n else st.count)
  }

  /** `stopEvent` */
  ghost function Stop(st: State, eventId: nat): (bool, State) {
    if eventId == 0 || eventId !in st.ids then (false, st)
    else (true, st.(ids := st.ids - {eventId}, stopped := st.stopped + {st.ids[eventId]}))
  }

  ghost predicate Earliest(queue: seq<SchedulerTask>, i: nat) {
    i < |queue| && forall j :: 0 <= j < |queue| ==> queue[i].cycle <= queue[j].cycle
  }

  /** The worker looks at the queue and begins to wait, for the due time of the first event if there is one. */
  ghost predicate Look(st: State, st': State) {
    && st.worker.Idle?
    && if st.queue == [] then st' == st.(worker := WaitingForSignal)
       else exists i: nat :: Earliest(st.queue, i) && st' == st.(worker := WaitingUntil(st.queue[i].cycle))
  }

  /** A signal wakes the worker: it looks again. */
  ghost predicate Signal(st: State, st': State) {
    && (st.worker.WaitingForSignal? || st.worker.WaitingUntil?)
    && st' == st.(worker := Idle)
  }

  ghost function Pop(st: State, i: nat, now: int): State
    requires i < |st.queue|
  {
    var task := st.queue[i];
    var n := if task in st.id then st.id[task] else 0;
    st.(queue := st.queue[..i] + st.queue[i + 1..], ids := st.ids - {n}, worker := Popped(task, n in st.ids, now))
  }

  /** The wait times out: an event that is due first leaves the queue, and runs if it is still in the map. */
  ghost predicate Timeout(st: State, now: int, st': State) {
    && st.worker.WaitingUntil? && st.worker.deadline <= now
    && exists i: nat :: Earliest(st.queue, i) && st' == Pop(st, i, now)
  }

  /** With the lock released, the worker runs what it took out if it has to, and deletes it. */
  ghost predicate Finish(st: State, st': State) {
    && st.worker.Popped?
    && st' == st.(worker := Idle, deleted := st.deleted + [st.worker.task],
                  ran := if st.worker.runs then st.ran + [Ran(st.worker.task, st.worker.due)] else st.ran)
  }

  datatype Event =
    | AddEvent(task: SchedulerTask, preset: nat)
    | StopEvent(eventId: nat, found: bool)
    | LookEvent
    | SignalEvent
    | TimeoutEvent(now: int)
    | FinishEvent

  ghost predicate Step(st: State, e: Event, st': State) {
    match e
    case AddEvent(task, preset) => task !in st.Added() && st' == Add(st, task, preset)
    case StopEvent(eventId, found) => (found, st') == Stop(st, eventId)
    case LookEvent => Look(st, st')
    case SignalEvent => Signal(st, st')
    case TimeoutEvent(now) => Timeout(st, now, st')
    case FinishEvent => Finish(st, st')
  }

  // ---------------------------------------------------------------- what every step keeps

  /** Every task ever added is in exactly one place: queued, in the worker's hands, or deleted. */
  ghost predicate Partition(st: State) {
    && NoDuplicates(st.queue) && NoDuplicates(st.deleted)
    && (forall t :: t in st.queue ==> t in st.id && t !in st.deleted)
    && (forall t :: t in st.deleted ==> t in st.id)
    && (st.worker.Popped? ==>
          st.worker.task in st.id && st.worker.task !in st.queue && st.worker.task !in st.deleted)
    && (forall t :: t in st.id ==>
          t in st.queue || t in st.deleted || (st.worker.Popped? && st.worker.task == t))
  }

  /** The map finds queued tasks by their ids. If a stopped task with the same id is still queued, it is due later. */
  ghost predicate IdsOk(st: State) {
    && (forall t :: t in st.queue ==> t in st.id && st.id[t] != 0)
    && (forall n :: n in st.ids ==> st.ids[n] in st.queue && st.ids[n] in st.id && st.id[st.ids[n]] == n)
    && (forall t :: t in st.queue && t in st.id && st.id[t] in st.ids && t != st.ids[st.id[t]] ==>
                      st.ids[st.id[t]].cycle < t.cycle)
  }

  /** The tasks that are still to run. */
  ghost predicate Live(st: State, t: SchedulerTask) {
    t in st.queue && t in st.id && st.id[t] in st.ids && st.ids[st.id[t]] == t
  }

  ghost predicate RanTask(st: State, t: SchedulerTask) {
    exists i :: 0 <= i < |st.ran| && st.ran[i].task == t
  }

  /** What has run has been deleted; it ran once, not before it was due, and had not been stopped. */
  ghost predicate HistoryOk(st: State) {
    && (forall i :: 0 <= i < |st.ran| ==>
          st.ran[i].task in st.deleted && st.ran[i].task !in st.stopped && st.ran[i].task.cycle <= st.ran[i].now)
    && (forall i, j :: 0 <= i < j < |st.ran| ==> st.ran[i].task != st.ran[j].task)
    && (forall t :: t in st.stopped ==> t in st.id && !Live(st, t))
    && (st.worker.Popped? && st.worker.runs ==>
          st.worker.task !in st.stopped && st.worker.task.cycle <= st.worker.due)
  }

  /** What has been deleted has run, unless it had been stopped; and what is queued or popped will run, unless so. */
  ghost predicate DoneOk(st: State) {
    && (forall t :: t in st.deleted ==> (RanTask(st, t) <==> t !in st.stopped))
    && (forall t :: t in st.queue ==> (Live(st, t) <==> t !in st.stopped))
    && (st.worker.Popped? ==> (st.worker.runs <==> st.worker.task !in st.stopped))
  }

  /** The worker waits for the due time of a queued task; while it waits, the queue only grows. */
  ghost predicate WaitOk(st: State) {
    st.worker.WaitingUntil? ==> exists t :: t in st.queue && t.cycle == st.worker.deadline
  }

  ghost predicate Inv(st: State) {
    Partition(st) && IdsOk(st) && HistoryOk(st) && DoneOk(st) && WaitOk(st)
  }

  /** A new event may get this id: no live event has it, and stopped events that have it are due later. */
  ghost predicate Usable(st: State, event: SchedulerTask, n: nat) {
    n != 0 && n !in st.ids && forall t :: t in st.queue && t in st.id && st.id[t] == n ==> event.cycle < t.cycle
  }

  ghost predicate Fair(st: State, e: Event) {
    e.AddEvent? ==> Usable(st, e.task, IdFor(st.count, e.preset))
  }

  lemma AddPartition(st: State, task: SchedulerTask, preset: nat)
    requires Partition(st) && task !in st.id
    ensures Partition(Add(st, task, preset))
  {
    hide IdFor;
    var st' := Add(st, task, preset);
    assert forall t :: t in st'.queue <==> t in st.queue || t == task;
  }

  lemma AddIds(st: State, task: SchedulerTask, preset: nat)
    requires IdsOk(st) && task !in st.id && Usable(st, task, IdFor(st.count, preset))
    ensures IdsOk(Add(st, task, preset))
  {
    hide IdFor;
    var st', n := Add(st, task, preset), IdFor(st.count, preset);
    assert forall t :: t in st'.queue <==> t in st.queue || t == task;
  }

  lemma AddLive(st: State, task: SchedulerTask, preset: nat)
    requires IdsOk(st) && task !in st.id && Usable(st, task, IdFor(st.count, preset))
    ensures forall t :: Live(Add(st, task, preset), t) <==> Live(st, t) || t == task
  {
    hide IdFor;
    var st', n := Add(st, task, preset), IdFor(st.count, preset);
    assert forall t :: t in st'.queue <==> t in st.queue || t == task;
    forall t ensures Live(st', t) <==> Live(st, t) || t == task {
    }
  }

  lemma AddKeeps(st: State, task: SchedulerTask, preset: nat)
    requires Inv(st) && task !in st.id && Usable(st, task, IdFor(st.count, preset))
    ensures Inv(Add(st, task, preset))
    ensures forall t :: Live(Add(st, task, preset), t) <==> Live(st, t) || t == task
  {
    hide IdFor, Partition, IdsOk, Usable, Live, DoneOk;
    AddPartition(st, task, preset);
    AddIds(st, task, preset);
    AddLive(st, task, preset);
    AddDone(st, task, preset);
    if st.worker.WaitingUntil? {
      var t :| t in st.queue && t.cycle == st.worker.deadline;
      assert t in Add(st, task, preset).queue;
    }
  }

  lemma AddDone(st: State, task: SchedulerTask, preset: nat)
    requires Partition(st) && HistoryOk(st) && DoneOk(st) && task !in st.id
    requires forall t :: Live(Add(st, task, preset), t) <==> Live(st, t) || t == task
    ensures DoneOk(Add(st, task, preset))
  {
    hide IdFor, Live;
    var st' := Add(st, task, preset);
    SameRan(st, st');
  }

  lemma SameRan(st: State, st': State)
    requires st'.ran == st.ran
    ensures forall t :: RanTask(st', t) <==> RanTask(st, t)
  {
  }

  lemma StopKeeps(st: State, eventId: nat)
    requires Inv(st)
    ensures Inv(Stop(st, eventId).1)
    ensures Stop(st, eventId).0 <==> exists t :: Live(st, t) && st.id[t] == eventId
    ensures forall t :: Live(Stop(st, eventId).1, t) <==> Live(st, t) && st.id[t] != eventId
  {
    var (found, st') := Stop(st, eventId);
    if found {
      assert Live(st, st.ids[eventId]) && st.id[st.ids[eventId]] == eventId;
    }
    forall t ensures Live(st', t) <==> Live(st, t) && st.id[t] != eventId {
    }
    hide Live;
    SameRan(st, st');
  }

  lemma RemovedFrom(queue: seq<SchedulerTask>, i: nat)
    requires NoDuplicates(queue) && i < |queue|
    ensures NoDuplicates(queue[..i] + queue[i + 1..])
    ensures forall t :: t in queue[..i] + queue[i + 1..] <==> t in queue && t != queue[i]
  {
    var rest := queue[..i] + queue[i + 1..];
    assert forall j :: 0 <= j < |rest| ==> rest[j] == queue[if j < i then j else j + 1];
    forall t | t in queue && t != queue[i] ensures t in rest {
      var k :| 0 <= k < |queue| && queue[k] == t;
      assert rest[if k < i then k else k - 1] == t;
    }
  }

  lemma PopKeeps(st: State, i: nat, now: int)
    requires Inv(st) && Earliest(st.queue, i) && st.queue[i].cycle <= now && st.worker.WaitingUntil?
    ensures Inv(Pop(st, i, now))
    ensures Pop(st, i, now).worker.Popped? && Pop(st, i, now).worker.task == st.queue[i]
    ensures Pop(st, i, now).worker.runs <==> Live(st, st.queue[i])
    ensures forall t :: Live(Pop(st, i, now), t) <==> Live(st, t) && t != st.queue[i]
  {
    hide Partition, IdsOk, HistoryOk, DoneOk, Live, Pop;
    PopIs(st, i, now);
    PopPartition(st, i, now);
    PopIds(st, i, now);
    PopHistory(st, i, now);
    PopDone(st, i, now);
  }

  lemma PopDone(st: State, i: nat, now: int)
    requires Partition(st) && DoneOk(st) && i < |st.queue|
    requires Pop(st, i, now).worker.runs <==> Live(st, st.queue[i])
    requires forall t :: Live(Pop(st, i, now), t) <==> Live(st, t) && t != st.queue[i]
    ensures DoneOk(Pop(st, i, now))
  {
    hide Live;
    var st' := Pop(st, i, now);
    RemovedFrom(st.queue, i);
    SameRan(st, st');
    assert st.queue[i] in st.queue;
  }

  lemma PopIs(st: State, i: nat, now: int)
    requires i < |st.queue|
    ensures Pop(st, i, now).worker.Popped? && Pop(st, i, now).worker.task == st.queue[i]
  {
  }

  lemma PopPartition(st: State, i: nat, now: int)
    requires Partition(st) && i < |st.queue| && !st.worker.Popped?
    ensures Partition(Pop(st, i, now))
  {
    RemovedFrom(st.queue, i);
    assert st.queue[i] in st.queue;
  }

  lemma PopIds(st: State, i: nat, now: int)
    requires Partition(st) && IdsOk(st) && Earliest(st.queue, i)
    ensures IdsOk(Pop(st, i, now))
    ensures Pop(st, i, now).worker.runs <==> Live(st, st.queue[i])
    ensures forall t :: Live(Pop(st, i, now), t) <==> Live(st, t) && t != st.queue[i]
  {
    RemovedFrom(st.queue, i);
    var st', task := Pop(st, i, now), st.queue[i];
    assert task in st.queue && task in st.id;
    if st.id[task] in st.ids {
      HolderFirst(st, i);
    }
    forall t ensures Live(st', t) <==> Live(st, t) && t != task {
    }
  }

  /** The first event of the queue is not behind the live one with its id. */
  lemma HolderFirst(st: State, i: nat)
    requires IdsOk(st) && Earliest(st.queue, i) && st.queue[i] in st.id && st.id[st.queue[i]] in st.ids
    ensures st.ids[st.id[st.queue[i]]] == st.queue[i]
  {
    var holder := st.ids[st.id[st.queue[i]]];
    assert st.queue[i] in st.queue;
    var j :| 0 <= j < |st.queue| && st.queue[j] == holder;
  }

  lemma PopHistory(st: State, i: nat, now: int)
    requires Partition(st) && HistoryOk(st) && i < |st.queue| && st.queue[i].cycle <= now
    requires Pop(st, i, now).worker.runs <==> Live(st, st.queue[i])
    requires forall t :: Live(Pop(st, i, now), t) <==> Live(st, t) && t != st.queue[i]
    ensures HistoryOk(Pop(st, i, now))
  {
    hide Live, Partition;
  }

  lemma FinishKeeps(st: State, st': State)
    requires Inv(st) && Finish(st, st')
    ensures Inv(st')
    ensures LiveSet(st') == LiveSet(st)
  {
    hide DoneOk, RanTask;
    assert forall t :: t in st'.deleted <==> t in st.deleted || t == st.worker.task;
    forall t ensures Live(st', t) <==> Live(st, t) {
    }
    FinishDone(st, st');
  }

  lemma FinishDone(st: State, st': State)
    requires HistoryOk(st) && DoneOk(st) && Partition(st) && Finish(st, st')
    requires forall t :: Live(st', t) <==> Live(st, t)
    ensures DoneOk(st')
  {
    hide Live;
    var task := st.worker.task;
    forall t ensures RanTask(st', t) <==> RanTask(st, t) || (st.worker.runs && t == task) {
      FinishRan(st, st', t);
    }
    assert !RanTask(st, task);
  }

  lemma FinishRan(st: State, st': State, t: SchedulerTask)
    requires Finish(st, st')
    ensures RanTask(st', t) <==> RanTask(st, t) || (st.worker.runs && t == st.worker.task)
  {
    if RanTask(st, t) {
      var i :| 0 <= i < |st.ran| && st.ran[i].task == t;
      assert st'.ran[i].task == t;
    }
    if st.worker.runs && t == st.worker.task {
      assert st'.ran[|st.ran|].task == t;
    }
  }

  lemma LookKeeps(st: State, st': State)
    requires Inv(st) && (Look(st, st') || Signal(st, st'))
    ensures Inv(st')
    ensures LiveSet(st') == LiveSet(st)
  {
    forall t ensures Live(st', t) <==> Live(st, t) {
    }
  }

  /** On time-out the queue is not empty, and what leaves it is due. */
  lemma TimeoutDue(st: State, now: int, i: nat)
    requires WaitOk(st) && st.worker.WaitingUntil? && st.worker.deadline <= now && Earliest(st.queue, i)
    ensures st.queue[i].cycle <= now
  {
    var t :| t in st.queue && t.cycle == st.worker.deadline;
    var j :| 0 <= j < |st.queue| && st.queue[j] == t;
  }

  lemma TimeoutPossible(st: State)
    requires WaitOk(st) && st.worker.WaitingUntil?
    ensures st.queue != [] && exists i: nat :: Earliest(st.queue, i)
  {
    assert Earliest(st.queue, Least(st.queue));
  }

  function Least(queue: seq<SchedulerTask>): (i: nat)
    requires queue != []
    ensures Earliest(queue, i)
  {
    var n := |queue| - 1;
    if n == 0 then 0
    else
      var i := Least(queue[..n]);
      if queue[n].cycle < queue[i].cycle then n else i
  }

  // ---------------------------------------------------------------- the set of live events

  ghost function LiveSet(st: State): set<SchedulerTask> {
    set t | t in st.id && Live(st, t)
  }

  /** What each step means for the set of live events. */
  ghost predicate Refines(st: State, e: Event, st': State) {
    match e
    case AddEvent(task, _) => LiveSet(st') == LiveSet(st) + {task}
    case StopEvent(eventId, found) =>
      && (found <==> exists t :: t in LiveSet(st) && st.id[t] == eventId)
      && LiveSet(st') == set t | t in LiveSet(st) && st.id[t] != eventId
    case TimeoutEvent(_) =>
      && st'.worker.Popped? && st'.worker.task in st.queue
      && (st'.worker.runs <==> st'.worker.task in LiveSet(st))
      && LiveSet(st') == LiveSet(st) - {st'.worker.task}
    case _ => LiveSet(st') == LiveSet(st)
  }

  /** Every step keeps the invariant, and does to the live events what it should. */
  lemma StepKeeps(st: State, e: Event, st': State)
    requires Inv(st) && Fair(st, e) && Step(st, e, st')
    ensures Inv(st') && Refines(st, e, st')
  {
    hide Inv, Usable, Look, Signal, Finish, Timeout, IdFor, Live;
    match e
    case AddEvent(task, preset) =>
      AddKeeps(st, task, preset);
      LiveKnown(st);
    case StopEvent(eventId, found) =>
      StopKeeps(st, eventId);
      LiveKnown(st);
    case LookEvent => LookKeeps(st, st');
    case SignalEvent => LookKeeps(st, st');
    case TimeoutEvent(now) => TimeoutKeeps(st, now, st');
    case FinishEvent => FinishKeeps(st, st');
  }

  lemma TimeoutKeeps(st: State, now: int, st': State)
    requires Inv(st) && Timeout(st, now, st')
    ensures Inv(st') && Refines(st, TimeoutEvent(now), st')
  {
    hide Inv, Live;
    InvWait(st);
    var i: nat :| Earliest(st.queue, i) && st' == Pop(st, i, now);
    TimeoutDue(st, now, i);
    PopKeeps(st, i, now);
    LiveKnown(st);
  }

  /** Nothing keeps an idle worker from dealing with the first event once it is due. */
  lemma NextPossible(st: State, now: int)
    requires Inv(st) && st.worker.Idle? && st.queue != [] && forall t :: t in st.queue ==> t.cycle <= now
    ensures exists st1, st2, st3 :: Look(st, st1) && Timeout(st1, now, st2) && Finish(st2, st3)
  {
    var i := Least(st.queue);
    var st1 := st.(worker := WaitingUntil(st.queue[i].cycle));
    var st2 := Pop(st1, i, now);
    var st3 := st2.(worker := Idle, deleted := st2.deleted + [st2.worker.task],
                    ran := if st2.worker.runs then st2.ran + [Ran(st2.worker.task, st2.worker.due)] else st2.ran);
    assert Look(st, st1) && Timeout(st1, now, st2) && Finish(st2, st3);
  }

  /** And then it runs that event if it is live, and deletes it. */
  lemma NextDone(st: State, now: int, st1: State, st2: State, st3: State)
    requires Inv(st) && st.queue != [] && Look(st, st1) && Timeout(st1, now, st2) && Finish(st2, st3)
    ensures exists i: nat ::
              && Earliest(st.queue, i) && st.queue[i].cycle <= now
              && st3.queue == st.queue[..i] + st.queue[i + 1..] && st3.worker.Idle?
              && st3.deleted == st.deleted + [st.queue[i]]
              && st3.ran == if Live(st, st.queue[i]) then st.ran + [Ran(st.queue[i], now)] else st.ran
  {
    hide Inv, Live;
    LookKeeps(st, st1);
    TimeoutKeeps(st1, now, st2);
    LiveKnown(st1);
    SameLive(st, st1);
    InvWait(st1);
    var i: nat :| Earliest(st1.queue, i) && st2 == Pop(st1, i, now);
    TimeoutDue(st1, now, i);
  }

  lemma SameLive(st: State, st': State)
    requires st'.queue == st.queue && st'.ids == st.ids && st'.id == st.id
    ensures forall t :: Live(st', t) <==> Live(st, t)
  {
  }

  lemma LiveKnown(st: State)
    ensures forall t :: Live(st, t) ==> t in st.id
  {
  }

  lemma InvWait(st: State)
    requires Inv(st)
    ensures WaitOk(st)
  {
  }

  // ---------------------------------------------------------------- runs

  const FIRST_ID := 1000

  function Start(): State {
    State([], map[], FIRST_ID, Idle, map[], {}, [], [])
  }

  /** One step after the other, by any number of threads. */
  ghost predicate Run(states: seq<State>, events: seq<Event>) {
    && |states| == |events| + 1 && states[0] == Start()
    && forall i :: 0 <= i < |events| ==> Step(states[i], events[i], states[i + 1])
  }

  ghost predicate FairRun(states: seq<State>, events: seq<Event>) {
    Run(states, events) && forall i :: 0 <= i < |events| ==> Fair(states[i], events[i])
  }

  lemma StartInv()
    ensures Inv(Start())
  {
  }

  lemma {:induction false} RunKeeps(states: seq<State>, events: seq<Event>, k: nat)
    requires FairRun(states, events) && k < |states|
    ensures Inv(states[k])
  {
    hide Inv, Step, Fair, Start, Refines;
    if k == 0 {
      StartInv();
    } else {
      RunKeeps(states, events, k - 1);
      StepKeeps(states[k - 1], events[k - 1], states[k]);
    }
  }

  /** What has been stopped stays stopped, and what has run has run. */
  lemma StepGrows(st: State, e: Event, st': State)
    requires Step(st, e, st')
    ensures st.stopped <= st'.stopped && |st.ran| <= |st'.ran| && st.ran == st'.ran[..|st.ran|]
  {
    hide Earliest;
  }

  lemma {:induction false} RunGrows(states: seq<State>, events: seq<Event>, i: nat, k: nat)
    requires Run(states, events) && i <= k < |states|
    ensures states[i].stopped <= states[k].stopped
    ensures forall t :: RanTask(states[i], t) ==> RanTask(states[k], t)
    decreases k - i
  {
    hide Step, Start;
    if i < k {
      StepGrows(states[i], events[i], states[i + 1]);
      forall t | RanTask(states[i], t) ensures RanTask(states[i + 1], t) {
        var j :| 0 <= j < |states[i].ran| && states[i].ran[j].task == t;
        assert states[i + 1].ran[j] == states[i].ran[j];
      }
      RunGrows(states, events, i + 1, k);
    }
  }

  /** A task whose `stopEvent` said yes never runs, before or after. */
  lemma StoppedNeverRuns(states: seq<State>, events: seq<Event>, i: nat, k: nat, eventId: nat)
    requires FairRun(states, events) && i < |events| && k < |states| && events[i] == StopEvent(eventId, true)
    ensures eventId in states[i].ids && !RanTask(states[k], states[i].ids[eventId])
  {
    hide Inv, Fair, Start;
    assert Step(states[i], events[i], states[i + 1]);
    var t := states[i].ids[eventId];
    if k <= i {
      RunGrows(states, events, k, i + 1);
      StoppedNotRun(states, events, i + 1, t);
    } else {
      RunGrows(states, events, i + 1, k);
      StoppedNotRun(states, events, k, t);
    }
  }

  lemma StoppedNotRun(states: seq<State>, events: seq<Event>, k: nat, t: SchedulerTask)
    requires FairRun(states, events) && k < |states| && t in states[k].stopped
    ensures !RanTask(states[k], t)
  {
    RunKeeps(states, events, k);
  }

  /** The stop of this event said yes, and was about this task. */
  ghost predicate StopsTask(st: State, e: Event, t: SchedulerTask) {
    e.StopEvent? && e.found && e.eventId in st.ids && st.ids[e.eventId] == t
  }

  lemma StepStopped(st: State, e: Event, st': State)
    requires Step(st, e, st')
    ensures forall t :: t in st'.stopped <==> t in st.stopped || StopsTask(st, e, t)
  {
    hide Earliest;
  }

  /** A task has been stopped if and only if a stop said yes about it. */
  lemma {:induction false} StoppedIff(states: seq<State>, events: seq<Event>, k: nat, t: SchedulerTask)
    requires Run(states, events) && k < |states|
    ensures t in states[k].stopped <==> exists i :: 0 <= i < k && StopsTask(states[i], events[i], t)
  {
    hide Step, StopsTask;
    if k > 0 {
      StoppedIff(states, events, k - 1, t);
      StepStopped(states[k - 1], events[k - 1], states[k]);
    }
  }

  /** Over any run: a task that is done with has run exactly once, unless it was stopped, and not before it was due;
      every task is deleted at most once, a deleted task is neither queued nor running, and no task ever added is
      lost. */
  lemma RunsOnceAndInTime(states: seq<State>, events: seq<Event>, k: nat)
    requires FairRun(states, events) && k < |states|
    ensures var st := states[k];
            && (forall t :: t in st.deleted ==> (RanTask(st, t) <==> t !in st.stopped))
            && (forall i, j :: 0 <= i < j < |st.ran| ==> st.ran[i].task != st.ran[j].task)
            && (forall i :: 0 <= i < |st.ran| ==> st.ran[i].task.cycle <= st.ran[i].now)
            && NoDuplicates(st.deleted)
            && (forall t :: t in st.deleted ==> t !in st.queue && !(st.worker.Popped? && st.worker.task == t))
            && (forall t :: t in st.Added() ==>
                  t in st.queue || t in st.deleted || (st.worker.Popped? && st.worker.task == t))
  {
    RunKeeps(states, events, k);
  }

  // ---------------------------------------------------------------- ids

  /** One step after the other from `st` on, each added event with an id it may get. */
  ghost predicate Continues(st: State, states: seq<State>, events: seq<Event>) {
    && |states| == |events| + 1 && states[0] == st
    && forall i :: 0 <= i < |events| ==> Step(states[i], events[i], states[i + 1]) && Fair(states[i], events[i])
  }

  /** Every step does to the live events what it should. */
  ghost predicate AllRefine(states: seq<State>, events: seq<Event>) {
    |states| == |events| + 1 && forall i :: 0 <= i < |events| ==> Refines(states[i], events[i], states[i + 1])
  }

  lemma {:induction false} ContinuesInv(st: State, states: seq<State>, events: seq<Event>, k: nat)
    requires Inv(st) && Continues(st, states, events) && k < |states|
    ensures Inv(states[k])
  {
    hide Inv, Step, Fair, Refines;
    if k > 0 {
      ContinuesInv(st, states, events, k - 1);
      StepKeeps(states[k - 1], events[k - 1], states[k]);
    }
  }

  lemma ContinuesRefines(st: State, states: seq<State>, events: seq<Event>)
    requires Inv(st) && Continues(st, states, events)
    ensures AllRefine(states, events)
  {
    hide Inv, Step, Fair, Refines;
    forall i | 0 <= i < |events| ensures Refines(states[i], events[i], states[i + 1]) {
      ContinuesInv(st, states, events, i);
      StepKeeps(states[i], events[i], states[i + 1]);
    }
  }

  /** An event is added and whatever follows does what it should, if and only if the event may get the id it gets. */
  lemma AddSafeIff(st: State, task: SchedulerTask, preset: nat)
    requires Inv(st) && task !in st.id
    ensures Usable(st, task, IdFor(st.count, preset))
            <==> && Refines(st, AddEvent(task, preset), Add(st, task, preset))
                 && forall states, events :: Continues(Add(st, task, preset), states, events) ==>
                                               AllRefine(states, events)
  {
    hide *;
    var st' := Add(st, task, preset);
    if Usable(st, task, IdFor(st.count, preset)) {
      AddRefines(st, task, preset);
      forall states, events | Continues(st', states, events) ensures AllRefine(states, events) {
        ContinuesRefines(st', states, events);
      }
    } else if Refines(st, AddEvent(task, preset), st') {
      var states, events := Misbehaves(st, task, preset);
    }
  }

  lemma AddRefines(st: State, task: SchedulerTask, preset: nat)
    requires Inv(st) && task !in st.id && Usable(st, task, IdFor(st.count, preset))
    ensures Inv(Add(st, task, preset)) && Refines(st, AddEvent(task, preset), Add(st, task, preset))
  {
    hide Inv, Usable, IdFor, Live;
    AddKeeps(st, task, preset);
    LiveKnown(st);
    LiveKnown(Add(st, task, preset));
  }

  /** What goes wrong with an id that the event may not get: id 0 cannot be stopped, and a stopped event that is due
      no later runs. */
  lemma Misbehaves(st: State, task: SchedulerTask, preset: nat) returns (states: seq<State>, events: seq<Event>)
    requires Inv(st) && task !in st.id && !Usable(st, task, IdFor(st.count, preset))
    requires Refines(st, AddEvent(task, preset), Add(st, task, preset))
    ensures |states| == |events| + 1
    ensures Continues(Add(st, task, preset), states, events) && !AllRefine(states, events)
  {
    hide Continues, AllRefine, Inv, Refines, IdFor;
    var n, st' := IdFor(st.count, preset), Add(st, task, preset);
    if n == 0 {
      states, events := ZeroNotStopped(st, task, preset);
    } else if n in st.ids {
      HolderLost(st, task, preset);
    } else {
      var t :| t in st.queue && t in st.id && st.id[t] == n && t.cycle <= task.cycle;
      AddClash(st, task, preset, t);
      states, events := ToIdle(st', task, t);
    }
  }

  lemma ZeroNotStopped(st: State, task: SchedulerTask, preset: nat) returns (states: seq<State>, events: seq<Event>)
    requires Inv(st) && task !in st.id && IdFor(st.count, preset) == 0
    ensures |states| == |events| + 1
    ensures Continues(Add(st, task, preset), states, events) && !AllRefine(states, events)
  {
    hide IdFor, Inv;
    var st' := Add(st, task, preset);
    states, events := [st', st'], [StopEvent(0, false)];
    assert Live(st', task) && task in LiveSet(st') && st'.id[task] == 0;
    assert !Refines(states[0], events[0], states[1]);
    assert Step(states[0], events[0], states[1]);
  }

  /** A live event is lost from the map when another gets its id. */
  lemma HolderLost(st: State, task: SchedulerTask, preset: nat)
    requires Inv(st) && task !in st.id && IdFor(st.count, preset) in st.ids
    ensures !Refines(st, AddEvent(task, preset), Add(st, task, preset))
  {
    hide IdFor;
    var n, st' := IdFor(st.count, preset), Add(st, task, preset);
    var holder := st.ids[n];
    assert holder in LiveSet(st) && holder !in LiveSet(st');
  }

  /** A stopped task `t` is queued with the id of the live event `task`, and is due no later. */
  ghost predicate Clash(st: State, task: SchedulerTask, t: SchedulerTask) {
    && NoDuplicates(st.queue) && (forall u :: u in st.queue ==> u in st.id)
    && t in st.queue && task in st.queue && t != task && t.cycle <= task.cycle
    && t in st.id && task in st.id && st.id[t] == st.id[task] && st.id[task] in st.ids && st.ids[st.id[task]] == task
  }

  lemma AddClash(st: State, task: SchedulerTask, preset: nat, t: SchedulerTask)
    requires Inv(st) && task !in st.id && t in st.queue && t in st.id && t.cycle <= task.cycle
    requires st.id[t] == IdFor(st.count, preset)
    ensures Clash(Add(st, task, preset), task, t)
  {
    hide IdFor;
    AddPartition(st, task, preset);
    var st' := Add(st, task, preset);
    assert forall u :: u in st'.queue <==> u in st.queue || u == task;
    assert NoDuplicates(st'.queue) && st'.ids[st.id[t]] == task && st'.id[task] == st.id[t] == st'.id[t];
  }

  /** The step before a continuation. */
  lemma Before(st: State, e: Event, st': State, states: seq<State>, events: seq<Event>)
    requires Step(st, e, st') && Fair(st, e) && |states| == |events| + 1
    requires Continues(st', states, events) && !AllRefine(states, events)
    ensures Continues(st, [st] + states, [e] + events) && !AllRefine([st] + states, [e] + events)
  {
    hide Step, Fair, Refines;
    var i :| 0 <= i < |events| && !Refines(states[i], events[i], states[i + 1]);
    var more, es := [st] + states, [e] + events;
    assert more[i + 1] == states[i] && more[i + 2] == states[i + 1] && es[i + 1] == events[i];
    assert !Refines(more[i + 1], es[i + 1], more[i + 1 + 1]);
  }

  /** First the worker is done with what it is doing. */
  lemma ToIdle(st: State, task: SchedulerTask, t: SchedulerTask) returns (states: seq<State>, events: seq<Event>)
    requires Clash(st, task, t)
    ensures |states| == |events| + 1 && Continues(st, states, events) && !AllRefine(states, events)
  {
    hide Continues, AllRefine, Clash;
    if st.worker.Idle? {
      states, events := RunsStopped(st, task, t);
    } else {
      var e, st' := FinishEvent, if st.worker.Popped? then Done(st) else st.(worker := Idle);
      if !st.worker.Popped? {
        e := SignalEvent;
      }
      ClashStays(st, st', task, t);
      states, events := RunsStopped(st', task, t);
      Before(st, e, st', states, events);
      states, events := [st] + states, [e] + events;
    }
  }

  lemma ClashStays(st: State, st': State, task: SchedulerTask, t: SchedulerTask)
    requires Clash(st, task, t) && st'.queue == st.queue && st'.id == st.id && st'.ids == st.ids
    ensures Clash(st', task, t)
  {
  }

  /** Then it takes out one event after the other, until a stopped one runs. */
  lemma {:induction false} RunsStopped(st: State, task: SchedulerTask, t: SchedulerTask)
    returns (states: seq<State>, events: seq<Event>)
    requires Clash(st, task, t) && st.worker.Idle?
    ensures |states| == |events| + 1 && Continues(st, states, events) && !AllRefine(states, events)
    decreases |st.queue|
  {
    hide Continues, AllRefine, Clash, Refines, Step, Fair, Pop, Earliest;
    var i := Next(st, task, t);
    var e := st.queue[i];
    var waits := st.(worker := WaitingUntil(e.cycle));
    var popped := Pop(waits, i, e.cycle);
    LookAt(st, i);
    TimeoutAt(waits, i);
    if st.id[e] == st.id[task] {
      StoppedKnown(st, task, t);
      StoppedPopped(waits, task, i);
      states, events := [waits, popped], [TimeoutEvent(e.cycle)];
      OneBad(waits, TimeoutEvent(e.cycle), popped);
    } else {
      var done := Done(popped);
      FinishAt(popped);
      ClashStays(st, waits, task, t);
      ClashPopped(waits, task, t, i);
      ClashStays(popped, done, task, t);
      states, events := RunsStopped(done, task, t);
      Before(popped, FinishEvent, done, states, events);
      states, events := [popped] + states, [FinishEvent] + events;
      Before(waits, TimeoutEvent(e.cycle), popped, states, events);
      states, events := [waits] + states, [TimeoutEvent(e.cycle)] + events;
    }
    Before(st, LookEvent, waits, states, events);
    states, events := [st] + states, [LookEvent] + events;
  }

  ghost function Done(st: State): State
    requires st.worker.Popped?
  {
    st.(worker := Idle, deleted := st.deleted + [st.worker.task],
        ran := if st.worker.runs then st.ran + [Ran(st.worker.task, st.worker.due)] else st.ran)
  }

  lemma LookAt(st: State, i: nat)
    requires Earliest(st.queue, i) && st.worker.Idle?
    ensures var e, st' := LookEvent, st.(worker := WaitingUntil(st.queue[i].cycle)); Step(st, e, st') && Fair(st, e)
  {
  }

  lemma TimeoutAt(st: State, i: nat)
    requires Earliest(st.queue, i) && st.worker == WaitingUntil(st.queue[i].cycle)
    ensures var e, st' := TimeoutEvent(st.queue[i].cycle), Pop(st, i, st.queue[i].cycle);
            && Step(st, e, st') && Fair(st, e) && st'.worker.Popped? && |st'.queue| < |st.queue|
  {
  }

  lemma FinishAt(st: State)
    requires st.worker.Popped?
    ensures Step(st, FinishEvent, Done(st)) && Fair(st, FinishEvent)
  {
  }

  lemma StoppedKnown(st: State, task: SchedulerTask, t: SchedulerTask)
    requires Clash(st, task, t)
    ensures task in st.id && st.id[task] in st.ids && st.ids[st.id[task]] == task
  {
  }

  lemma OneBad(st: State, e: Event, st': State)
    requires Step(st, e, st') && Fair(st, e) && !Refines(st, e, st')
    ensures Continues(st, [st, st'], [e]) && !AllRefine([st, st'], [e])
  {
    hide Step, Fair, Refines;
    var states, events := [st, st'], [e];
    assert !Refines(states[0], events[0], states[0 + 1]);
  }

  /** The first event in the queue, and not the live one if it is a tie. */
  lemma Next(st: State, task: SchedulerTask, t: SchedulerTask) returns (i: nat)
    requires Clash(st, task, t)
    ensures Earliest(st.queue, i) && st.queue[i] in st.id && st.queue[i] != task && task in st.id
  {
    var k := Least(st.queue);
    i := k;
    if st.queue[k] == task {
      i :| 0 <= i < |st.queue| && st.queue[i] == t;
    }
    assert st.queue[i] in st.queue && st.queue[i].cycle <= st.queue[k].cycle;
  }

  lemma StoppedPopped(st: State, task: SchedulerTask, i: nat)
    requires i < |st.queue| && st.queue[i] in st.id && task in st.id && st.queue[i] != task
    requires st.id[st.queue[i]] == st.id[task] && st.id[task] in st.ids && st.ids[st.id[task]] == task
    ensures !Refines(st, TimeoutEvent(st.queue[i].cycle), Pop(st, i, st.queue[i].cycle))
  {
    assert st.queue[i] !in LiveSet(st);
  }

  lemma ClashPopped(st: State, task: SchedulerTask, t: SchedulerTask, i: nat)
    requires Clash(st, task, t) && i < |st.queue| && st.queue[i] in st.id && st.id[st.queue[i]] != st.id[task]
    ensures Clash(Pop(st, i, st.queue[i].cycle), task, t)
  {
    RemovedFrom(st.queue, i);
  }

  /** If the id of a stopped event still in the queue is given to another event, the stopped event runs after all. */
  lemma ReusedIdRunsStopped(st: State, was: SchedulerTask, task: SchedulerTask, i: nat, now: int)
    requires Inv(st) && was in st.queue && was in st.stopped && was in st.id && task !in st.id && st.id[was] != 0
    requires Earliest(Add(st, task, st.id[was]).queue, i) && Add(st, task, st.id[was]).queue[i] == was
    ensures var st' := Pop(Add(st, task, st.id[was]), i, now);
            st'.worker == Popped(was, true, now)
  {
  }

  /** All ids come from the counter, which has not come round. */
  ghost predicate Counted(st: State, k: nat) {
    && FIRST_ID <= st.count <= FIRST_ID + k
    && (forall t :: t in st.queue ==> t in st.id)
    && (forall n :: n in st.ids ==> n <= st.count)
    && forall t :: t in st.id ==> 1 <= st.id[t] <= st.count
  }

  lemma CountedStep(st: State, e: Event, st': State, k: nat)
    requires Counted(st, k) && FIRST_ID + k + 1 < UINT32 && Step(st, e, st') && (e.AddEvent? ==> e.preset == 0)
    ensures Counted(st', k + 1) && Fair(st, e)
  {
    match e
    case TimeoutEvent(now) =>
      var i: nat :| Earliest(st.queue, i) && st' == Pop(st, i, now);
      forall t | t in st'.queue ensures t in st.queue {
      }
    case _ =>
  }

  /** Events that bring no id of their own never clash, for four thousand million steps. */
  lemma {:induction false} CounterIsFair(states: seq<State>, events: seq<Event>, k: nat)
    requires Run(states, events) && FIRST_ID + |events| < UINT32 && k < |states|
    requires forall i :: 0 <= i < |events| && events[i].AddEvent? ==> events[i].preset == 0
    ensures Counted(states[k], k) && forall i :: 0 <= i < k ==> Fair(states[i], events[i])
  {
    hide Fair, Step, Counted;
    if k == 0 {
      StartCounted();
    } else {
      CounterIsFair(states, events, k - 1);
      CountedStep(states[k - 1], events[k - 1], states[k], k - 1);
    }
  }

  lemma StartCounted()
    ensures Counted(Start(), 0)
  {
  }
}
