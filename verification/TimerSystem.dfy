/**
 * TimerManager as a transition system: one step per section that runs under the lock, and
 * one for the detector's test of the stop flag, which it makes without the lock.
 *
 * Steps carry the clock readings they make. History fields record what no field of the
 * class keeps: what each timer was asked for, which runs were submitted, which timers were
 * removed by their users.
 */
module TimerSystem {
  import opened Common
  import opened TimerSchedule

  /** task numbers the callables: every added timer gets a new one, while ids are reused. */
  datatype Timer = Timer(plan: Plan, left: int, task: nat)

  datatype Entry = Entry(time: Time, id: int)

  /** A callable handed to the thread pool: the instant it was due and the reading it was submitted at. */
  datatype Fire = Fire(task: nat, due: Time, at: Time)

  datatype Asked = Asked(plan: Plan, repeat: int)

  datatype History = History(
    asked: seq<Asked>,         // indexed by task
    fires: seq<Fire>,
    period: nat,               // number of fires before the latest start
    removedAt: map<nat, nat>)  // task -> its fires when its user first removed it

  /** polled: the detector has found the stop flag clear and is on its way to the lock. */
  datatype State = State(
    running: bool,
    polled: bool,
    queue: seq<Entry>,
    timers: map<int, Timer>,
    currentId: int,
    h: History)

  datatype Step =
    | Add(plan: Plan, repeat: int, now: Time, id: int)
    | Remove(id: int)
    | Poll
    | Detect(now: Time, again: Time, top: nat)
    | Stop
    | Start(readings: map<int, Time>, rebuilt: seq<Entry>)

  function Initial(): State {
    State(true, false, [], map[], -1, History([], [], 0, map[]))
  }

  // ----- Id allocation -----

  function NextId(id: int): int {
    if id >= INT_MAX then 0 else id + 1
  }

  /** Position of id in the order in which the search visits the ids after current. */
  function Distance(current: int, id: int): int {
    if id > current then id - current else id - current + INT_MAX + 1
  }

  /** The id the wraparound search stops at: the first one after current that is not in use. */
  ghost predicate IsNewId(used: set<int>, current: int, id: int) {
    && 0 <= id <= INT_MAX && id !in used
    && forall other :: 0 <= other <= INT_MAX && other !in used ==> Distance(current, id) <= Distance(current, other)
  }

  lemma {:induction false} RangeSize(n: nat) returns (range: set<int>)
    ensures forall i :: i in range <==> 0 <= i < n
    ensures |range| == n
  {
    if n == 0 {
      range := {};
    } else {
      range := RangeSize(n - 1);
      range := range + {n - 1};
    }
  }

  /** A table that is not full leaves an id free. */
  lemma FreeIdExists(used: set<int>) returns (free: int)
    requires |used| <= INT_MAX
    ensures 0 <= free <= INT_MAX && free !in used
  {
    var range := RangeSize(INT_MAX + 1);
    if forall i :: i in range ==> i in used {
      SubsetSize(range, used);
    }
    free :| free in range && free !in used;
  }

  lemma {:induction false} SubsetSize<T>(a: set<T>, b: set<T>)
    requires a <= b
    ensures |a| <= |b|
  {
    if a != {} {
      var x :| x in a;
      SubsetSize(a - {x}, b - {x});
    }
  }

  /** The search has one possible result. */
  lemma NewIdUnique(used: set<int>, current: int, id: int, other: int)
    requires -1 <= current <= INT_MAX
    requires IsNewId(used, current, id) && IsNewId(used, current, other)
    ensures id == other
  {
  }

  // ----- Queue -----

  ghost predicate DistinctIds(q: seq<Entry>) {
    forall i, j :: 0 <= i < j < |q| ==> q[i].id != q[j].id
  }

  ghost predicate Queued(q: seq<Entry>, id: int) {
    exists i :: 0 <= i < |q| && q[i].id == id
  }

  /** The entry a min-time priority queue may hand out; ties are broken arbitrarily. */
  ghost predicate IsTop(q: seq<Entry>, top: nat) {
    top < |q| && forall j :: 0 <= j < |q| ==> q[top].time <= q[j].time
  }

  function Without<T>(q: seq<T>, i: nat): seq<T>
    requires i < |q|
  {
    q[..i] + q[i + 1..]
  }

  lemma {:induction false} TopExists(q: seq<Entry>) returns (top: nat)
    requires q != []
    ensures IsTop(q, top)
  {
    if |q| == 1 {
      top := 0;
    } else {
      top := TopExists(q[..|q| - 1]);
      if q[|q| - 1].time < q[top].time {
        top := |q| - 1;
      }
    }
  }

  // ----- Steps -----

  function Live(t: Timer, now: Time): bool
    requires WellFormed(t.plan)
  {
    RestartPoint(t.plan, t.left, now).Some?
  }

  ghost predicate PlansWellFormed(timers: map<int, Timer>) {
    forall id :: id in timers ==> WellFormed(timers[id].plan)
  }

  /** The queue start() builds: one entry, at its restart point, for each timer that is still valid. */
  ghost predicate IsRebuilt(timers: map<int, Timer>, readings: map<int, Time>, q: seq<Entry>)
    requires PlansWellFormed(timers) && timers.Keys <= readings.Keys
  {
    && DistinctIds(q)
    && (forall id :: id in timers && Live(timers[id], readings[id]) ==> Queued(q, id))
    && (forall i :: 0 <= i < |q| ==>
          && q[i].id in timers
          && RestartPoint(timers[q[i].id].plan, timers[q[i].id].left, readings[q[i].id]) == Some(q[i].time))
  }

  /** How far start() has come: the timers outside todo are queued or marked invalid. */
  ghost predicate Scanned(timers: map<int, Timer>, readings: map<int, Time>, todo: set<int>, q: seq<Entry>,
                          invalid: set<int>)
    requires PlansWellFormed(timers) && timers.Keys <= readings.Keys
  {
    && todo <= timers.Keys && invalid <= timers.Keys
    && DistinctIds(q)
    && (forall i :: 0 <= i < |q| ==>
          && q[i].id in timers && q[i].id !in todo
          && RestartPoint(timers[q[i].id].plan, timers[q[i].id].left, readings[q[i].id]) == Some(q[i].time))
    && (forall id :: id in timers && id !in todo ==>
          if Live(timers[id], readings[id]) then Queued(q, id) && id !in invalid else id in invalid)
    && todo !! invalid
  }

  /** After the whole table the timers not marked invalid are those that are still valid. */
  lemma ScannedAll(timers: map<int, Timer>, readings: map<int, Time>, q: seq<Entry>, invalid: set<int>)
    requires PlansWellFormed(timers) && timers.Keys <= readings.Keys
    requires Scanned(timers, readings, {}, q, invalid)
    ensures IsRebuilt(timers, readings, q)
    ensures timers - invalid == map id | id in timers && Live(timers[id], readings[id]) :: timers[id]
  {
    assert forall id :: id in timers ==> (id in invalid <==> !Live(timers[id], readings[id]));
  }

  lemma ScanOne(timers: map<int, Timer>, readings: map<int, Time>, todo: set<int>, q: seq<Entry>, invalid: set<int>,
                id: int)
    requires PlansWellFormed(timers) && timers.Keys <= readings.Keys
    requires Scanned(timers, readings, todo, q, invalid) && id in todo
    ensures var point := RestartPoint(timers[id].plan, timers[id].left, readings[id]);
            Scanned(timers, readings, todo - {id}, if point.Some? then q + [Entry(point.value, id)] else q,
                    if point.Some? then invalid else invalid + {id})
  {
    var point := RestartPoint(timers[id].plan, timers[id].left, readings[id]);
    forall other | other in timers && other !in todo - {id} && Live(timers[other], readings[other])
      ensures Queued(if point.Some? then q + [Entry(point.value, id)] else q, other)
    {
      if point.Some? {
        QueuedAfterAppend(q, Entry(point.value, id), other);
      }
    }
  }

  /** What the program and its callers guarantee about a step. */
  ghost predicate Enabled(s: State, step: Step) {
    match step
    case Add(plan, repeat, now, id) =>
      && WellFormed(plan) && 0 < repeat <= INT_MAX && now > DATETIME_MIN
      && (|s.timers| < INT_MAX ==> IsNewId(s.timers.Keys, s.currentId, id))
    case Remove(id) => true
    case Poll => s.running && !s.polled
    case Detect(now, again, top) => s.polled && again > DATETIME_MIN && (s.queue != [] ==> IsTop(s.queue, top))
    case Stop => true
    case Start(readings, rebuilt) =>
      !s.running ==>
        && !s.polled  // stop() has waited for the detector
        && PlansWellFormed(s.timers) && s.timers.Keys <= readings.Keys
        && (forall id :: id in readings ==> readings[id] > DATETIME_MIN)
        && IsRebuilt(s.timers, readings, rebuilt)
  }

  function Fires(fires: seq<Fire>, task: nat): nat {
    if fires == [] then 0
    else Fires(fires[..|fires| - 1], task) + if fires[|fires| - 1].task == task then 1 else 0
  }

  /** A new timer enters the table and its first run the queue. */
  function Insert(s: State, plan: Plan, repeat: int, e: Entry): State {
    s.(timers := s.timers[e.id := Timer(plan, repeat, |s.h.asked|)],
       queue := s.queue + [e],
       currentId := e.id,
       h := s.h.(asked := s.h.asked + [Asked(plan, repeat)]))
  }

  ghost function ApplyAdd(s: State, plan: Plan, repeat: int, now: Time, id: int): State
    requires WellFormed(plan)
  {
    var point := AddPoint(plan, repeat, now);
    if point.Failure? || |s.timers| >= INT_MAX then
      s
    else
      Insert(s, plan, repeat, Entry(point.value, id))
  }

  function ApplyRemove(s: State, id: int): State {
    if id in s.timers then
      var t := s.timers[id];
      s.(timers := s.timers[id := t.(left := 0)],
         h := if t.task in s.h.removedAt then s.h
              else s.h.(removedAt := s.h.removedAt[t.task := Fires(s.h.fires, t.task)]))
    else
      s
  }

  /** One submission: the popped entry e of a timer in the table. */
  function Submit(s: State, e: Entry, again: Time): State
    requires e.id in s.timers
  {
    var t := s.timers[e.id];
    var left := if t.left != INT_MAX then t.left - 1 else t.left;
    var next := NextPoint(t.plan, e.time, again);
    var h := s.h.(fires := s.h.fires + [Fire(t.task, e.time, again)]);
    if left <= 0 || PastEnd(t.plan, next) then
      s.(timers := s.timers - {e.id}, h := h)
    else
      s.(timers := s.timers[e.id := t.(left := left)], queue := s.queue + [Entry(next, e.id)], h := h)
  }

  function ApplyDetect(s: State, now: Time, again: Time, top: nat): State
    requires s.queue != [] ==> top < |s.queue|
  {
    if s.queue == [] || s.queue[top].time == DATETIME_MIN || s.queue[top].time > now then
      s
    else
      var e := s.queue[top];
      var popped := s.(queue := Without(s.queue, top));
      if e.id !in s.timers then popped else Submit(popped, e, again)
  }

  /** The detector holds the lock; after this iteration it tests the stop flag again. */
  function Entered(s: State): State {
    s.(polled := false)
  }

  ghost function ApplyStart(s: State, readings: map<int, Time>, rebuilt: seq<Entry>): State
    requires PlansWellFormed(s.timers) && s.timers.Keys <= readings.Keys
  {
    State(true, false, rebuilt, map id | id in s.timers && Live(s.timers[id], readings[id]) :: s.timers[id],
          s.currentId, s.h.(period := |s.h.fires|))
  }

  ghost function Apply(s: State, step: Step): State
    requires Enabled(s, step)
  {
    match step
    case Add(plan, repeat, now, id) => ApplyAdd(s, plan, repeat, now, id)
    case Remove(id) => ApplyRemove(s, id)
    case Poll => s.(polled := true)
    case Detect(now, again, top) => ApplyDetect(Entered(s), now, again, top)
    case Stop => if s.running then s.(running := false, queue := []) else s
    case Start(readings, rebuilt) => if s.running then s else ApplyStart(s, readings, rebuilt)
  }

  /** A run of the system: every interleaving of its steps, restarts included. */
  ghost predicate IsRun(states: seq<State>, steps: seq<Step>) {
    && |states| == |steps| + 1
    && states[0] == Initial()
    && forall i :: 0 <= i < |steps| ==> Enabled(states[i], steps[i]) && states[i + 1] == Apply(states[i], steps[i])
  }

  // ----- Queue and table -----

  /** While running, exactly one queue entry per timer; while stopped, at most one and no others. */
  ghost predicate QueueInv(s: State) {
    && DistinctIds(s.queue)
    && (forall i :: 0 <= i < |s.queue| ==> s.queue[i].id in s.timers)
    && (s.running ==> forall id :: id in s.timers ==> Queued(s.queue, id))
    && PlansWellFormed(s.timers)
    && (forall id :: id in s.timers ==> 0 <= id <= INT_MAX)
    && (forall i :: 0 <= i < |s.queue| ==> s.queue[i].time > DATETIME_MIN)
    && -1 <= s.currentId <= INT_MAX
    && |s.timers| <= INT_MAX
  }

  lemma QueuedAfterAppend(q: seq<Entry>, e: Entry, id: int)
    ensures Queued(q + [e], id) <==> Queued(q, id) || id == e.id
  {
    var r := q + [e];
    if Queued(q, id) {
      var i :| 0 <= i < |q| && q[i].id == id;
      assert r[i].id == id;
    } else if id == e.id {
      assert r[|q|].id == id;
    }
  }

  lemma QueuedAfterPop(q: seq<Entry>, top: nat, id: int)
    requires top < |q| && DistinctIds(q)
    ensures Queued(Without(q, top), id) <==> Queued(q, id) && id != q[top].id
  {
    var r := Without(q, top);
    if Queued(q, id) && id != q[top].id {
      var j :| 0 <= j < |q| && q[j].id == id;
      assert r[if j < top then j else j - 1].id == id;
    }
    if Queued(r, id) {
      var j :| 0 <= j < |r| && r[j].id == id;
      assert q[if j < top then j else j + 1].id == id;
    }
  }

  lemma InsertKeepsQueue(s: State, plan: Plan, repeat: int, e: Entry)
    requires QueueInv(s) && |s.timers| < INT_MAX && WellFormed(plan) && e.time > DATETIME_MIN
    requires 0 <= e.id <= INT_MAX && e.id !in s.timers
    ensures QueueInv(Insert(s, plan, repeat, e))
  {
    var after := Insert(s, plan, repeat, e);
    forall id | id in after.timers && s.running
      ensures Queued(after.queue, id)
    {
      QueuedAfterAppend(s.queue, e, id);
    }
    assert after.timers.Keys == s.timers.Keys + {e.id};
    assert |after.timers| == |s.timers| + 1;
  }

  lemma AddKeepsQueue(s: State, plan: Plan, repeat: int, now: Time, id: int)
    requires QueueInv(s) && Enabled(s, Add(plan, repeat, now, id))
    ensures QueueInv(ApplyAdd(s, plan, repeat, now, id))
  {
    var point := AddPoint(plan, repeat, now);
    if point.Success? && |s.timers| < INT_MAX {
      FirstPointsAreAfterMin(plan, repeat, now);
      InsertKeepsQueue(s, plan, repeat, Entry(point.value, id));
    }
  }

  lemma NextPointIsAfterMin(p: Plan, due: Time, now: Time)
    requires WellFormed(p) && due > DATETIME_MIN && now > DATETIME_MIN
    ensures NextPoint(p, due, now) > DATETIME_MIN
  {
  }

  lemma PopKeepsEntries(q: seq<Entry>, top: nat)
    requires top < |q| && DistinctIds(q)
    ensures DistinctIds(Without(q, top))
    ensures forall j :: 0 <= j < |q| - 1 ==> Without(q, top)[j] == q[if j < top then j else j + 1]
  {
  }

  /** The detector drops the timer of the entry at top. */
  lemma EraseKeepsQueue(s: State, top: nat, h: History)
    requires QueueInv(s) && top < |s.queue|
    ensures QueueInv(s.(timers := s.timers - {s.queue[top].id}, queue := Without(s.queue, top), h := h))
  {
    var e, rest := s.queue[top], Without(s.queue, top);
    PopKeepsEntries(s.queue, top);
    forall id | id in s.timers - {e.id} && s.running
      ensures Queued(rest, id)
    {
      QueuedAfterPop(s.queue, top, id);
    }
    SubsetSize((s.timers - {e.id}).Keys, s.timers.Keys);
  }

  /** The detector queues the timer of the entry at top again. */
  lemma RequeueKeepsQueue(s: State, top: nat, left: int, time: Time, h: History)
    requires QueueInv(s) && top < |s.queue| && time > DATETIME_MIN
    ensures s.queue[top].id in s.timers
    ensures var e := s.queue[top];
            QueueInv(s.(timers := s.timers[e.id := s.timers[e.id].(left := left)],
                        queue := Without(s.queue, top) + [Entry(time, e.id)], h := h))
  {
    var e, rest := s.queue[top], Without(s.queue, top);
    var after := s.timers[e.id := s.timers[e.id].(left := left)];
    assert after.Keys == s.timers.Keys;
    PopKeepsEntries(s.queue, top);
    forall id | id in after && s.running
      ensures Queued(rest + [Entry(time, e.id)], id)
    {
      QueuedAfterPop(s.queue, top, id);
      QueuedAfterAppend(rest, Entry(time, e.id), id);
    }
  }

  /** No assumption on the clock is needed for queue and table to agree. */
  lemma SubmitKeepsQueue(s: State, top: nat, again: Time)
    requires QueueInv(s) && top < |s.queue| && again > DATETIME_MIN
    ensures s.queue[top].id in s.timers
    ensures QueueInv(Submit(s.(queue := Without(s.queue, top)), s.queue[top], again))
  {
    var e := s.queue[top];
    var t := s.timers[e.id];
    var left := if t.left != INT_MAX then t.left - 1 else t.left;
    var next := NextPoint(t.plan, e.time, again);
    var h := s.h.(fires := s.h.fires + [Fire(t.task, e.time, again)]);
    NextPointIsAfterMin(t.plan, e.time, again);
    EraseKeepsQueue(s, top, h);
    RequeueKeepsQueue(s, top, left, next, h);
  }

  lemma StartKeepsQueue(s: State, readings: map<int, Time>, rebuilt: seq<Entry>)
    requires QueueInv(s) && !s.running && Enabled(s, Start(readings, rebuilt))
    ensures QueueInv(ApplyStart(s, readings, rebuilt))
  {
    var after := ApplyStart(s, readings, rebuilt);
    forall i | 0 <= i < |rebuilt|
      ensures rebuilt[i].time > DATETIME_MIN && rebuilt[i].id in after.timers
    {
      var t := s.timers[rebuilt[i].id];
      FirstPointsAreAfterMin(t.plan, t.left, readings[rebuilt[i].id]);
    }
    SubsetSize(after.timers.Keys, s.timers.Keys);
  }

  lemma RemoveKeepsQueue(s: State, id: int)
    requires QueueInv(s)
    ensures QueueInv(ApplyRemove(s, id))
  {
    assert ApplyRemove(s, id).timers.Keys == s.timers.Keys;
  }

  lemma DetectKeepsQueue(s: State, now: Time, again: Time, top: nat)
    requires QueueInv(s) && again > DATETIME_MIN && (s.queue != [] ==> top < |s.queue|)
    ensures QueueInv(ApplyDetect(s, now, again, top))
  {
    if s.queue != [] {
      SubmitKeepsQueue(s, top, again);
    }
  }

  lemma PolledKeepsQueue(s: State, polled: bool)
    requires QueueInv(s)
    ensures QueueInv(s.(polled := polled))
  {
  }

  lemma StopKeepsQueue(s: State)
    requires QueueInv(s)
    ensures QueueInv(s.(running := false, queue := []))
  {
  }

  lemma StepKeepsQueue(s: State, step: Step)
    requires QueueInv(s) && Enabled(s, step)
    ensures QueueInv(Apply(s, step))
  {
    match step
    case Add(plan, repeat, now, id) => AddKeepsQueue(s, plan, repeat, now, id);
    case Remove(id) => RemoveKeepsQueue(s, id);
    case Poll => PolledKeepsQueue(s, true);
    case Detect(now, again, top) =>
      PolledKeepsQueue(s, false);
      DetectKeepsQueue(Entered(s), now, again, top);
    case Stop => StopKeepsQueue(s);
    case Start(readings, rebuilt) =>
      if !s.running {
        StartKeepsQueue(s, readings, rebuilt);
      }
  }

  /** In every reachable state the queue and the table agree. */
  lemma {:induction false} QueueAndTableAgree(states: seq<State>, steps: seq<Step>, n: nat)
    requires IsRun(states, steps) && n < |states|
    ensures QueueInv(states[n])
  {
    if n > 0 {
      QueueAndTableAgree(states, steps, n - 1);
      StepKeepsQueue(states[n - 1], steps[n - 1]);
    }
  }

  /** The branch for a popped id without a timer, and the sentinel that ends the detector, are never taken. */
  lemma DetectorFindsItsTimer(states: seq<State>, steps: seq<Step>, n: nat)
    requires IsRun(states, steps) && n < |steps| && steps[n].Detect? && states[n].queue != []
    ensures states[n].queue[steps[n].top].id in states[n].timers
    ensures states[n].queue[steps[n].top].time != DATETIME_MIN
  {
    QueueAndTableAgree(states, steps, n);
  }

  /** In any run a step submits at most one callable: that of an entry no other precedes, once it is due. */
  lemma FiringIsEarliestAndDue(states: seq<State>, steps: seq<Step>, n: nat)
    requires IsRun(states, steps) && n < |steps|
    ensures var s, step := states[n], steps[n];
            if step.Detect? && s.queue != [] && s.queue[step.top].time <= step.now then
              var e := s.queue[step.top];
              && e.id in s.timers
              && (forall j :: 0 <= j < |s.queue| ==> e.time <= s.queue[j].time)
              && states[n + 1].h.fires == s.h.fires + [Fire(s.timers[e.id].task, e.time, step.again)]
            else
              states[n + 1].h.fires == s.h.fires
  {
    QueueAndTableAgree(states, steps, n);
  }

  // ----- Firing counts -----

  const FOREVER: int := INT_MAX

  ghost predicate TaskInv(s: State) {
    && (forall a, b :: a in s.timers && b in s.timers && a != b ==> s.timers[a].task != s.timers[b].task)
    && (forall id :: id in s.timers ==>
          s.timers[id].task < |s.h.asked| && s.timers[id].plan == s.h.asked[s.timers[id].task].plan)
    && (forall k :: 0 <= k < |s.h.fires| ==> s.h.fires[k].task < |s.h.asked|)
    && (forall task :: task in s.h.removedAt ==> task < |s.h.asked|)
    && s.h.period <= |s.h.fires|
  }

  /** A timer in the table that nobody removed still owes its remaining runs; a removed one owes none. */
  ghost predicate Owes(t: Timer, h: History)
    requires t.task < |h.asked|
  {
    if t.task in h.removedAt then
      && t.left == 0 && Fires(h.fires, t.task) == h.removedAt[t.task]
      && (h.asked[t.task].repeat == FOREVER || Fires(h.fires, t.task) < h.asked[t.task].repeat)
    else if h.asked[t.task].repeat == FOREVER then
      t.left == FOREVER
    else
      0 < t.left < FOREVER && Fires(h.fires, t.task) + t.left == h.asked[t.task].repeat
  }

  ghost predicate WithinBounds(task: nat, h: History)
    requires task < |h.asked|
  {
    && (h.asked[task].repeat == FOREVER || Fires(h.fires, task) <= h.asked[task].repeat)
    && (task in h.removedAt ==> Fires(h.fires, task) <= h.removedAt[task] + 1)
  }

  ghost predicate CountInv(s: State) {
    && TaskInv(s)
    && (forall id :: id in s.timers ==> Owes(s.timers[id], s.h))
    && (forall task :: 0 <= task < |s.h.asked| ==> WithinBounds(task, s.h))
  }

  lemma FiresOfAppend(fires: seq<Fire>, f: Fire, task: nat)
    ensures Fires(fires + [f], task) == Fires(fires, task) + if f.task == task then 1 else 0
  {
    assert (fires + [f])[..|fires|] == fires;
  }

  lemma {:induction false} FiresOfUnknown(fires: seq<Fire>, task: nat)
    requires forall k :: 0 <= k < |fires| ==> fires[k].task != task
    ensures Fires(fires, task) == 0
  {
    if fires != [] {
      FiresOfUnknown(fires[..|fires| - 1], task);
    }
  }

  lemma InsertKeepsCounts(s: State, plan: Plan, repeat: int, e: Entry)
    requires CountInv(s) && 0 < repeat <= INT_MAX && e.id !in s.timers
    ensures CountInv(Insert(s, plan, repeat, e))
  {
    var after := Insert(s, plan, repeat, e);
    FiresOfUnknown(s.h.fires, |s.h.asked|);
    forall task | 0 <= task < |after.h.asked|
      ensures WithinBounds(task, after.h)
    {
      assert task < |s.h.asked| ==> WithinBounds(task, s.h);
    }
    forall i | i in after.timers
      ensures Owes(after.timers[i], after.h)
    {
      assert i != e.id ==> Owes(s.timers[i], s.h);
    }
    assert TaskInv(after);
  }

  lemma AddKeepsCounts(s: State, plan: Plan, repeat: int, now: Time, id: int)
    requires CountInv(s) && Enabled(s, Add(plan, repeat, now, id))
    ensures CountInv(ApplyAdd(s, plan, repeat, now, id))
  {
    var point := AddPoint(plan, repeat, now);
    if point.Success? && |s.timers| < INT_MAX {
      InsertKeepsCounts(s, plan, repeat, Entry(point.value, id));
    }
  }

  lemma RemoveKeepsBounds(s: State, id: int, task: nat)
    requires CountInv(s) && task < |s.h.asked|
    ensures WithinBounds(task, ApplyRemove(s, id).h)
  {
    assert WithinBounds(task, s.h);
  }

  lemma RemoveKeepsOwes(s: State, id: int, i: int)
    requires CountInv(s) && i in ApplyRemove(s, id).timers
    ensures ApplyRemove(s, id).timers[i].task < |s.h.asked|
    ensures Owes(ApplyRemove(s, id).timers[i], ApplyRemove(s, id).h)
  {
    assert Owes(s.timers[i], s.h);
  }

  lemma RemoveKeepsTasks(s: State, id: int)
    requires TaskInv(s)
    ensures TaskInv(ApplyRemove(s, id)) && |ApplyRemove(s, id).h.asked| == |s.h.asked|
  {
  }

  lemma RemoveKeepsCounts(s: State, id: int)
    requires CountInv(s)
    ensures CountInv(ApplyRemove(s, id))
  {
    var after := ApplyRemove(s, id);
    RemoveKeepsTasks(s, id);
    forall task | 0 <= task < |after.h.asked|
      ensures WithinBounds(task, after.h)
    {
      RemoveKeepsBounds(s, id, task);
    }
    forall i | i in after.timers
      ensures Owes(after.timers[i], after.h)
    {
      RemoveKeepsOwes(s, id, i);
    }
  }

  lemma SubmitKeepsBounds(s: State, rest: seq<Entry>, e: Entry, again: Time, task: nat)
    requires CountInv(s) && e.id in s.timers && task < |s.h.asked|
    ensures WithinBounds(task, Submit(s.(queue := rest), e, again).h)
  {
    assert Owes(s.timers[e.id], s.h) && WithinBounds(task, s.h);
    FiresOfAppend(s.h.fires, Fire(s.timers[e.id].task, e.time, again), task);
  }

  lemma SubmitKeepsOwes(s: State, rest: seq<Entry>, e: Entry, again: Time, i: int)
    requires CountInv(s) && e.id in s.timers && i in Submit(s.(queue := rest), e, again).timers
    ensures i in s.timers && Submit(s.(queue := rest), e, again).timers[i].task == s.timers[i].task < |s.h.asked|
    ensures Owes(Submit(s.(queue := rest), e, again).timers[i], Submit(s.(queue := rest), e, again).h)
  {
    assert Owes(s.timers[e.id], s.h) && Owes(s.timers[i], s.h);
    FiresOfAppend(s.h.fires, Fire(s.timers[e.id].task, e.time, again), s.timers[i].task);
  }

  lemma SubmitKeepsCounts(s: State, rest: seq<Entry>, e: Entry, again: Time)
    requires CountInv(s) && e.id in s.timers
    ensures CountInv(Submit(s.(queue := rest), e, again))
  {
    var after := Submit(s.(queue := rest), e, again);
    SubmitKeepsTasks(s, rest, e, again);
    forall task | 0 <= task < |after.h.asked|
      ensures WithinBounds(task, after.h)
    {
      SubmitKeepsBounds(s, rest, e, again, task);
    }
    forall i | i in after.timers
      ensures Owes(after.timers[i], after.h)
    {
      SubmitKeepsOwes(s, rest, e, again, i);
    }
  }

  lemma SubmitKeepsTasks(s: State, rest: seq<Entry>, e: Entry, again: Time)
    requires TaskInv(s) && e.id in s.timers
    ensures TaskInv(Submit(s.(queue := rest), e, again))
  {
  }

  lemma StartKeepsCounts(s: State, readings: map<int, Time>, rebuilt: seq<Entry>)
    requires CountInv(s) && PlansWellFormed(s.timers) && s.timers.Keys <= readings.Keys
    ensures CountInv(ApplyStart(s, readings, rebuilt))
  {
    var after := ApplyStart(s, readings, rebuilt);
    forall task | 0 <= task < |after.h.asked|
      ensures WithinBounds(task, after.h)
    {
      assert WithinBounds(task, s.h);
    }
    forall i | i in after.timers
      ensures Owes(after.timers[i], after.h)
    {
      assert Owes(s.timers[i], s.h);
    }
  }

  lemma StepKeepsCounts(s: State, step: Step)
    requires QueueInv(s) && CountInv(s) && Enabled(s, step)
    ensures CountInv(Apply(s, step))
  {
    match step
    case Add(plan, repeat, now, id) => AddKeepsCounts(s, plan, repeat, now, id);
    case Remove(id) => RemoveKeepsCounts(s, id);
    case Poll =>
    case Detect(now, again, top) =>
      if s.queue != [] && s.queue[top].time <= now {
        SubmitKeepsCounts(Entered(s), Without(s.queue, top), s.queue[top], again);
      }
    case Stop =>
    case Start(readings, rebuilt) =>
      if !s.running {
        StartKeepsCounts(s, readings, rebuilt);
      }
  }

  /** Over any run, restarts included, the counts of every timer stay consistent. */
  lemma {:induction false} CountsAgree(states: seq<State>, steps: seq<Step>, n: nat)
    requires IsRun(states, steps) && n < |states|
    ensures CountInv(states[n])
  {
    if n > 0 {
      CountsAgree(states, steps, n - 1);
      QueueAndTableAgree(states, steps, n - 1);
      StepKeepsCounts(states[n - 1], steps[n - 1]);
    }
  }

  predicate Remembers(h: History, later: History) {
    forall task :: task in h.removedAt ==> task in later.removedAt && later.removedAt[task] == h.removedAt[task]
  }

  lemma StepRemembers(s: State, step: Step)
    requires Enabled(s, step)
    ensures Remembers(s.h, Apply(s, step).h)
  {
  }

  lemma RunRemembers(states: seq<State>, steps: seq<Step>, n: nat)
    requires IsRun(states, steps) && n < |steps|
    ensures Remembers(states[n].h, states[n + 1].h)
  {
    StepRemembers(states[n], steps[n]);
  }

  lemma {:induction false} AllRemember(states: seq<State>, m: nat, n: nat)
    requires m <= n < |states|
    requires forall i :: 0 <= i < |states| - 1 ==> Remembers(states[i].h, states[i + 1].h)
    ensures Remembers(states[m].h, states[n].h)
  {
    if m < n {
      AllRemember(states, m, n - 1);
      assert Remembers(states[n - 1].h, states[n].h);
    }
  }

  lemma RemovalIsRemembered(states: seq<State>, steps: seq<Step>, m: nat, n: nat)
    requires IsRun(states, steps) && m <= n < |states|
    ensures Remembers(states[m].h, states[n].h)
  {
    forall i | 0 <= i < |states| - 1
      ensures Remembers(states[i].h, states[i + 1].h)
    {
      RunRemembers(states, steps, i);
    }
    AllRemember(states, m, n);
  }

  /** Once its user has removed a timer it is submitted at most once more, however the run continues. */
  lemma AtMostOneRunAfterRemoval(states: seq<State>, steps: seq<Step>, m: nat, n: nat)
    requires IsRun(states, steps) && m < n < |states|
    requires steps[m].Remove? && steps[m].id in states[m].timers
    ensures var task := states[m].timers[steps[m].id].task;
            Fires(states[n].h.fires, task) <= Fires(states[m].h.fires, task) + 1
  {
    var task := states[m].timers[steps[m].id].task;
    CountsAgree(states, steps, m);
    assert Owes(states[m].timers[steps[m].id], states[m].h);
    assert states[m + 1] == Apply(states[m], steps[m]);
    RemovalIsRemembered(states, steps, m + 1, n);
    CountsAgree(states, steps, n);
    assert WithinBounds(task, states[n].h);
  }

  /** The detector is through with a timer: removed, all runs made, or the next one past its end. */
  ghost predicate IsDone(h: History, t: Timer, due: Time, again: Time)
    requires t.task < |h.asked|
  {
    || t.task in h.removedAt
    || (h.asked[t.task].repeat != FOREVER && Fires(h.fires, t.task) + 1 == h.asked[t.task].repeat)
    || (t.plan.endDate != DATETIME_MAX && NextPoint(t.plan, due, again) > t.plan.endDate + t.plan.endTime)
  }

  /** The detector drops exactly the timer whose entry it pops because it is due, if it is through with it. */
  lemma DroppedIff(states: seq<State>, steps: seq<Step>, n: nat, id: int)
    requires IsRun(states, steps) && n < |steps| && steps[n].Detect? && id in states[n].timers
    ensures states[n].timers[id].task < |states[n].h.asked|
    ensures id !in states[n + 1].timers
            <==> var s, step := states[n], steps[n];
                 && s.queue != [] && s.queue[step.top].time <= step.now && s.queue[step.top].id == id
                 && IsDone(s.h, s.timers[id], s.queue[step.top].time, step.again)
  {
    QueueAndTableAgree(states, steps, n);
    CountsAgree(states, steps, n);
    DropsIff(states[n], steps[n], id);
    assert states[n + 1] == Apply(states[n], steps[n]);
  }

  lemma DropsIff(s: State, step: Step, id: int)
    requires QueueInv(s) && CountInv(s) && Enabled(s, step) && step.Detect? && id in s.timers
    ensures id !in Apply(s, step).timers
            <==> && s.queue != [] && s.queue[step.top].time <= step.now && s.queue[step.top].id == id
                 && IsDone(s.h, s.timers[id], s.queue[step.top].time, step.again)
  {
    assert Owes(s.timers[id], s.h);
  }

  // ----- Order of the runs of one timer -----

  /** A later run of the same task: due later, by a duration without a window, and a day later for a daily timer. */
  ghost predicate RunsAfter(p: Plan, f: Fire, due: Time, at: Time) {
    && f.due < due
    && (Daily(p) ==> StartOfDay(f.at) < StartOfDay(at))
    && (!Daily(p) && !Windowed(p) ==> f.due + p.duration <= due)
  }

  ghost predicate EntryAfter(s: State, i: nat, k: nat)
    requires i < |s.queue| && k < |s.h.fires| && s.queue[i].id in s.timers
  {
    var t := s.timers[s.queue[i].id];
    s.h.fires[k].task == t.task ==> RunsAfter(t.plan, s.h.fires[k], s.queue[i].time, s.queue[i].time)
  }

  ghost predicate FireAfter(h: History, j: nat, k: nat)
    requires j < |h.fires| && k < |h.fires| && h.fires[k].task < |h.asked|
  {
    h.fires[j].task == h.fires[k].task ==>
      RunsAfter(h.asked[h.fires[k].task].plan, h.fires[j], h.fires[k].due, h.fires[k].at)
  }

  /** Within one running period the runs of a task are in strict order, and the queued run follows them. */
  ghost predicate OrderInv(s: State) {
    && QueueInv(s) && TaskInv(s)
    && (forall i, k :: 0 <= i < |s.queue| && s.h.period <= k < |s.h.fires| ==>
          EntryAfter(s, i, k))
    && (forall j, k :: s.h.period <= j < k < |s.h.fires| ==> FireAfter(s.h, j, k))
  }

  lemma InsertKeepsOrder(s: State, plan: Plan, repeat: int, e: Entry)
    requires OrderInv(s) && e.id !in s.timers
    requires QueueInv(Insert(s, plan, repeat, e)) && TaskInv(Insert(s, plan, repeat, e))
    ensures OrderInv(Insert(s, plan, repeat, e))
  {
    var after := Insert(s, plan, repeat, e);
    forall i, k | 0 <= i < |after.queue| && after.h.period <= k < |after.h.fires|
      ensures EntryAfter(after, i, k)
    {
      assert i < |s.queue| ==> EntryAfter(s, i, k);
    }
    forall j, k | after.h.period <= j < k < |after.h.fires|
      ensures FireAfter(after.h, j, k)
    {
      assert FireAfter(s.h, j, k);
    }
  }

  lemma RemoveKeepsOrder(s: State, id: int)
    requires OrderInv(s)
    requires QueueInv(ApplyRemove(s, id)) && TaskInv(ApplyRemove(s, id))
    ensures OrderInv(ApplyRemove(s, id))
  {
    var after := ApplyRemove(s, id);
    forall i, k | 0 <= i < |after.queue| && after.h.period <= k < |after.h.fires|
      ensures EntryAfter(after, i, k)
    {
      assert EntryAfter(s, i, k);
    }
    forall j, k | after.h.period <= j < k < |after.h.fires|
      ensures FireAfter(after.h, j, k)
    {
      assert FireAfter(s.h, j, k);
    }
  }

  lemma RunsAfterTrans(p: Plan, f: Fire, due: Time, again: Time)
    requires WellFormed(p) && due <= again && RunsAfter(p, f, due, due)
    ensures RunsAfter(p, f, due, again)
    ensures RunsAfter(p, f, NextPoint(p, due, again), NextPoint(p, due, again))
  {
    NextPointIsLater(p, due, again);
  }

  /** What a submission of the entry at top leaves. */
  ghost predicate Submitted(s: State, top: nat, again: Time, after: State)
    requires top < |s.queue| && s.queue[top].id in s.timers
  {
    var e, rest := s.queue[top], Without(s.queue, top);
    var t := s.timers[e.id];
    && after.h == s.h.(fires := s.h.fires + [Fire(t.task, e.time, again)])
    && (forall id :: id in after.timers ==>
          id in s.timers && after.timers[id].plan == s.timers[id].plan && after.timers[id].task == s.timers[id].task)
    && (|| after.queue == rest
        || (after.queue == rest + [Entry(NextPoint(t.plan, e.time, again), e.id)] && e.id in after.timers))
  }

  lemma SubmitShape(s: State, now: Time, again: Time, top: nat)
    requires top < |s.queue| && s.queue[top].id in s.timers && DATETIME_MIN < s.queue[top].time <= now
    ensures Submitted(s, top, again, ApplyDetect(Entered(s), now, again, top))
  {
  }

  /** What the new submission leaves behind: an older run is followed by it and by what is queued next. */
  lemma RunsBeforeSubmission(s: State, top: nat, again: Time, k: nat)
    requires OrderInv(s) && top < |s.queue| && s.queue[top].time <= again && s.h.period <= k < |s.h.fires|
    requires s.h.fires[k].task == s.timers[s.queue[top].id].task
    ensures var e, t := s.queue[top], s.timers[s.queue[top].id];
            && RunsAfter(t.plan, s.h.fires[k], e.time, again)
            && RunsAfter(t.plan, s.h.fires[k], NextPoint(t.plan, e.time, again), NextPoint(t.plan, e.time, again))
  {
    assert EntryAfter(s, top, k);
    RunsAfterTrans(s.timers[s.queue[top].id].plan, s.h.fires[k], s.queue[top].time, again);
  }

  lemma EntryFollowsFires(s: State, top: nat, again: Time, after: State, i: nat, k: nat)
    requires OrderInv(s) && top < |s.queue| && s.queue[top].time <= again && Submitted(s, top, again, after)
    requires QueueInv(after) && i < |after.queue| && s.h.period <= k < |after.h.fires|
    ensures EntryAfter(after, i, k)
  {
    var e, rest, last := s.queue[top], Without(s.queue, top), |s.h.fires|;
    var t := s.timers[e.id];
    if i == |rest| {
      NextPointIsLater(t.plan, e.time, again);
      if k < last && s.h.fires[k].task == t.task {
        RunsBeforeSubmission(s, top, again, k);
      }
    } else {
      var j := if i < top then i else i + 1;
      assert after.queue[i] == s.queue[j];
      assert k < last ==> EntryAfter(s, j, k);
    }
  }

  lemma FireFollowsFires(s: State, top: nat, again: Time, after: State, j: nat, k: nat)
    requires OrderInv(s) && top < |s.queue| && s.queue[top].time <= again && Submitted(s, top, again, after)
    requires TaskInv(after) && s.h.period <= j < k < |after.h.fires|
    ensures FireAfter(after.h, j, k)
  {
    if k < |s.h.fires| {
      assert FireAfter(s.h, j, k);
    } else if s.h.fires[j].task == s.timers[s.queue[top].id].task {
      RunsBeforeSubmission(s, top, again, j);
    }
  }

  lemma SubmitKeepsOrder(s: State, top: nat, again: Time, after: State)
    requires OrderInv(s) && top < |s.queue| && s.queue[top].time <= again && Submitted(s, top, again, after)
    requires QueueInv(after) && TaskInv(after)
    ensures OrderInv(after)
  {
    forall i, k | 0 <= i < |after.queue| && after.h.period <= k < |after.h.fires|
      ensures EntryAfter(after, i, k)
    {
      EntryFollowsFires(s, top, again, after, i, k);
    }
    forall j, k | after.h.period <= j < k < |after.h.fires|
      ensures FireAfter(after.h, j, k)
    {
      FireFollowsFires(s, top, again, after, j, k);
    }
  }

  lemma StartKeepsOrder(s: State, readings: map<int, Time>, rebuilt: seq<Entry>)
    requires QueueInv(s) && TaskInv(s) && !s.running && Enabled(s, Start(readings, rebuilt))
    ensures OrderInv(ApplyStart(s, readings, rebuilt))
  {
    StartKeepsQueue(s, readings, rebuilt);
  }

  lemma StepKeepsOrder(s: State, step: Step)
    requires OrderInv(s) && CountInv(s) && Enabled(s, step)
    requires step.Detect? ==> step.now <= step.again
    ensures OrderInv(Apply(s, step))
  {
    StepKeepsQueue(s, step);
    StepKeepsCounts(s, step);
    match step
    case Add(plan, repeat, now, id) =>
      var point := AddPoint(plan, repeat, now);
      if point.Success? && |s.timers| < INT_MAX {
        InsertKeepsOrder(s, plan, repeat, Entry(point.value, id));
      }
    case Remove(id) => RemoveKeepsOrder(s, id);
    case Poll => PolledKeepsOrder(s, true);
    case Detect(now, again, top) =>
      if s.queue != [] && s.queue[top].time <= now {
        SubmitShape(s, now, again, top);
        SubmitKeepsOrder(s, top, again, Apply(s, step));
      } else {
        PolledKeepsOrder(s, false);
      }
    case Stop => StopKeepsOrder(s);
    case Start(readings, rebuilt) =>
      if !s.running {
        StartKeepsOrder(s, readings, rebuilt);
      }
  }

  lemma PolledKeepsOrder(s: State, polled: bool)
    requires OrderInv(s)
    ensures OrderInv(s.(polled := polled))
  {
    var t := s.(polled := polled);
    forall i, k | 0 <= i < |t.queue| && t.h.period <= k < |t.h.fires|
      ensures EntryAfter(t, i, k)
    {
      assert EntryAfter(s, i, k);
    }
  }

  lemma StopKeepsOrder(s: State)
    requires OrderInv(s)
    ensures OrderInv(s.(running := false, queue := []))
  {
    forall j, k | s.h.period <= j < k < |s.h.fires|
      ensures FireAfter(s.(running := false, queue := []).h, j, k)
    {
      assert FireAfter(s.h, j, k);
    }
  }

  lemma {:induction false} RunsAreOrdered(states: seq<State>, steps: seq<Step>, n: nat)
    requires IsRun(states, steps) && n < |states|
    requires forall i :: 0 <= i < |steps| && steps[i].Detect? ==> steps[i].now <= steps[i].again
    ensures OrderInv(states[n])
  {
    if n > 0 {
      RunsAreOrdered(states, steps, n - 1);
      CountsAgree(states, steps, n - 1);
      StepKeepsOrder(states[n - 1], steps[n - 1]);
    }
  }

  /**
   * Between two starts, the runs of one timer fall due at strictly increasing instants, at
   * least a duration apart when it has no window, and on different calendar days when it is
   * a daily timer. The only assumption on the clock is that within one detector step the
   * second reading is not before the first.
   */
  lemma RunsAreSpaced(states: seq<State>, steps: seq<Step>, n: nat, j: nat, k: nat)
    requires IsRun(states, steps) && n < |states|
    requires forall i :: 0 <= i < |steps| && steps[i].Detect? ==> steps[i].now <= steps[i].again
    requires states[n].h.period <= j < k < |states[n].h.fires|
    requires states[n].h.fires[j].task == states[n].h.fires[k].task
    ensures states[n].h.fires[k].task < |states[n].h.asked|
    ensures var h := states[n].h;
            var p := h.asked[h.fires[k].task].plan;
            && h.fires[j].due < h.fires[k].due
            && (!Daily(p) && !Windowed(p) ==> h.fires[j].due + p.duration <= h.fires[k].due)
            && (Daily(p) ==> StartOfDay(h.fires[j].at) < StartOfDay(h.fires[k].at))
  {
    RunsAreOrdered(states, steps, n);
    assert FireAfter(states[n].h, j, k);
  }

  /** One more step at the end of a run. */
  lemma Extend(states: seq<State>, steps: seq<Step>, step: Step) returns (longer: seq<State>, more: seq<Step>)
    requires IsRun(states, steps) && Enabled(states[|steps|], step)
    ensures IsRun(longer, more) && more == steps + [step]
    ensures |longer| == |states| + 1 && longer[..|states|] == states
    ensures longer[|states|] == Apply(states[|steps|], step)
  {
    longer, more := states + [Apply(states[|steps|], step)], steps + [step];
    forall i | 0 <= i < |more|
      ensures Enabled(longer[i], more[i]) && longer[i + 1] == Apply(longer[i], more[i])
    {
      assert i < |steps| ==> longer[i] == states[i] && longer[i + 1] == states[i + 1] && more[i] == steps[i];
    }
  }

  /** One more iteration of the detector at the end of a run. */
  lemma Iterate(states: seq<State>, steps: seq<Step>, now: Time, again: Time, top: nat)
    returns (longer: seq<State>, more: seq<Step>)
    requires IsRun(states, steps) && states[|steps|].running && !states[|steps|].polled
    requires again > DATETIME_MIN && (states[|steps|].queue != [] ==> IsTop(states[|steps|].queue, top))
    ensures IsRun(longer, more) && more == steps + [Poll, Detect(now, again, top)]
    ensures |longer| == |states| + 2 && longer[..|states|] == states
    ensures longer[|states| + 1] == ApplyDetect(states[|steps|], now, again, top)
  {
    var s := states[|steps|];
    longer, more := Extend(states, steps, Poll);
    assert Entered(s.(polled := true)) == s;
    longer, more := Extend(longer, more, Detect(now, again, top));
  }
}
