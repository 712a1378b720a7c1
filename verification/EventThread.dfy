/** The scheduler as the server keeps it: fields guarded by one lock, and a worker that waits with the lock released. */
module EventThread {
  import opened Bytes
  import opened Scheduler

  class EventScheduler {
    var eventList: seq<SchedulerTask>
    var eventIdMap: map<nat, SchedulerTask>
    var eventIdCount: nat
    var worker: Worker
    ghost var id: map<SchedulerTask, nat>
    ghost var stopped: set<SchedulerTask>
    ghost var ran: seq<Ran>
    ghost var deleted: seq<SchedulerTask>

    ghost function State(): State
      reads this
    {
      Scheduler.State(eventList, eventIdMap, eventIdCount, worker, id, stopped, ran, deleted)
    }

    /** The tasks carry the ids they were given. */
    ghost predicate Valid()
      reads this, id.Keys
    {
      Inv(State()) && forall t :: t in id.Keys ==> t.eventId == id[t]
    }

    constructor ()
      ensures Valid() && State() == Start() && eventIdCount == 1000
    {
      eventList, eventIdMap, eventIdCount, worker := [], map[], FIRST_ID, Idle;
      id, stopped, ran, deleted := map[], {}, [], [];
      new;
      StartInv();
    }

    /** `eventList.top()` */
    method Top() returns (i: nat)
      requires eventList != []
      ensures Earliest(eventList, i)
    {
      i := 0;
      var k := 1;
      while k < |eventList|
        invariant i < k <= |eventList| && forall j :: 0 <= j < k ==> eventList[i].cycle <= eventList[j].cycle
      {
        if eventList[k].cycle < eventList[i].cycle {
          i := k;
        }
        k := k + 1;
      }
    }

    /** Adds an event. The worker is signalled if the queue was empty, or if another event is due before this one. */
    method AddEvent(event: SchedulerTask) returns (eventId: nat, doSignal: bool)
      requires Valid() && event !in id.Keys
      modifies this, event`eventId
      ensures old(Usable(State(), event, IdFor(eventIdCount, event.eventId))) ==> Valid()
      ensures event in id && eventId == event.eventId == id[event]
      ensures eventId == if old(event.eventId) != 0 then old(event.eventId) else (old(eventIdCount) + 1) % UINT32
      ensures Step(old(State()), Event.AddEvent(event, old(event.eventId)), State())
      ensures doSignal <==> old(eventList) == [] || exists t :: t in old(eventList) && t.cycle < event.cycle
    {
      hide *;
      ValidMeans();
      StateIs();
      ghost var st, preset := State(), event.eventId;
      if Usable(st, event, IdFor(st.count, preset)) {
        AddKeeps(st, event, preset);
      }
      AddIs(st, event, preset);
      if event.eventId == 0 {
        eventIdCount := NextId(eventIdCount);
        event.eventId := eventIdCount;
      }
      eventIdMap := eventIdMap[event.eventId := event];
      var isEmpty := eventList == [];
      eventList := eventList + [event];
      id := id[event := event.eventId];
      doSignal := isEmpty;
      var top := Top();
      DueEarlier(st.queue, event, top);
      if event.cycle > eventList[top].cycle {
        doSignal := true;
      }
      eventId := event.eventId;
      StateIs();
      ValidMeans();
    }

    lemma StateIs()
      ensures State() == Scheduler.State(eventList, eventIdMap, eventIdCount, worker, id, stopped, ran, deleted)
    {
    }

    lemma ValidMeans()
      ensures Valid() <==> Inv(State()) && forall t :: t in id.Keys ==> t.eventId == id[t]
    {
    }

    /** Cancels an event that has not left the queue; it stays queued, but will not run. */
    method StopEvent(eventId: nat) returns (found: bool)
      requires Valid()
      modifies this
      ensures Valid() && Step(old(State()), Event.StopEvent(eventId, found), State())
    {
      StopKeeps(State(), eventId);
      found := eventId != 0 && eventId in eventIdMap;
      if found {
        stopped := stopped + {eventIdMap[eventId]};
        eventIdMap := eventIdMap - {eventId};
      }
    }

    /** The worker looks at the first event and begins to wait; the lock is released. */
    method BeginWait()
      requires Valid() && worker.Idle?
      modifies this`worker
      ensures Valid() && Step(old(State()), LookEvent, State())
      ensures if eventList == [] then worker.WaitingForSignal?
              else worker.WaitingUntil? && (exists t :: t in eventList && t.cycle == worker.deadline)
                   && forall t :: t in eventList ==> worker.deadline <= t.cycle
    {
      ghost var st := State();
      if eventList == [] {
        worker := WaitingForSignal;
      } else {
        var top := Top();
        worker := WaitingUntil(eventList[top].cycle);
      }
      LookKeeps(st, State());
    }

    /** The wait ends by a signal, or times out at `now`: then the first event leaves the queue. */
    method EndWait(timeout: bool, now: int)
      requires Valid() && (worker.WaitingForSignal? || worker.WaitingUntil?)
      requires timeout ==> worker.WaitingUntil? && worker.deadline <= now
      modifies this
      ensures Valid() && Step(old(State()), if timeout then TimeoutEvent(now) else SignalEvent, State())
      ensures if timeout then worker.Popped? && worker.due == now && worker.task in old(eventList) && worker.task.cycle <= now
              else worker.Idle? && eventList == old(eventList)
    {
      ghost var st := State();
      if timeout {
        InvWait(st);
        TimeoutPossible(st);
        var top := Top();
        var task := eventList[top];
        eventList := eventList[..top] + eventList[top + 1..];
        QueuedKnown(st, task);
        TimeoutDue(st, now, top);
        worker := Popped(task, task.eventId in eventIdMap, now);
        eventIdMap := eventIdMap - {task.eventId};
        assert State() == Pop(st, top, now);
        TimeoutKeeps(st, now, State());
      } else {
        worker := Idle;
        LookKeeps(st, State());
      }
    }

    /** With the lock released, what was taken out runs unless it was cancelled, and is deleted. */
    method RunTask()
      requires Valid() && worker.Popped?
      modifies this
      ensures Valid() && Step(old(State()), FinishEvent, State())
      ensures worker.Idle? && deleted == old(deleted) + [old(worker.task)]
      ensures ran == if old(worker.runs) then old(ran) + [Ran(old(worker.task), old(worker.due))] else old(ran)
    {
      ghost var st := State();
      if worker.runs {
        ran := ran + [Ran(worker.task, worker.due)];
      }
      deleted := deleted + [worker.task];
      worker := Idle;
      FinishKeeps(st, State());
    }
  }

  /** The counter has 32 bits. */
  function NextId(count: nat): nat {
    (count + 1) % UINT32
  }

  lemma AddIs(st: State, event: SchedulerTask, preset: nat)
    ensures NextId(st.count) == (st.count + 1) % UINT32
    ensures IdFor(st.count, preset) == if preset == 0 then NextId(st.count) else preset
    ensures var n := IdFor(st.count, preset);
            && Add(st, event, preset)
               == Scheduler.State(st.queue + [event], st.ids[n := event], if preset == 0 then n else st.count, st.worker,
                                  st.id[event := n], st.stopped, st.ran, st.deleted)
            && (event !in st.id ==> Step(st, Event.AddEvent(event, preset), Add(st, event, preset)))
  {
  }

  /** Another event is due before the new one exactly if the first of the queue is. */
  lemma DueEarlier(queue: seq<SchedulerTask>, event: SchedulerTask, top: nat)
    requires Earliest(queue + [event], top)
    ensures top < |queue| + 1
    ensures event.cycle > (queue + [event])[top].cycle <==> exists t :: t in queue && t.cycle < event.cycle
  {
    var all := queue + [event];
    if event.cycle > all[top].cycle {
      assert all[top] in queue;
    }
    forall t | t in queue && t.cycle < event.cycle ensures all[top].cycle < event.cycle {
      var i :| 0 <= i < |queue| && queue[i] == t;
      assert all[i] == t;
    }
  }

  lemma QueuedKnown(st: State, t: SchedulerTask)
    requires Inv(st) && t in st.queue
    ensures t in st.id
  {
  }
}
