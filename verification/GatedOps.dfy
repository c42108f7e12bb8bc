/**
 Operations on a device take turns through the request queue.  Each one reads the cached device, computes a new one,
 writes it to the store and then to the cache; the store may fail.  Here they run interleaved, one atomic action at a
 time, on top of the queue's step system.
 */
module GatedOps {
  import opened Voltha
  import Q = QueueSpec

  /** An operation: a change of the device, which may decide not to write, a reload from the store, or the final stop. */
  datatype Op<!D> = Change(f: D -> Option<D>) | Reload | Stop

  /** How far the holder of the lock is. */
  datatype Progress<D> = Fresh | HasRead(read: D) | Stored(written: D) | Removed | Done

  datatype State<T, D> = State(
    queue: Q.Queue<T>,
    progress: map<T, Progress<D>>,
    cached: D,              // the agent's copy
    stored: Option<D>,      // what the store has
    stopped: bool,
    history: seq<(T, bool)>) // operations that are done, in order, each with whether the store accepted its write

  datatype Act<T> =
    | Step(s: Q.Step<T>)
    | Read(k: nat)
    | Store(k: nat, ok: bool)
    | Cache(k: nat)
    | ReloadCache(k: nat, ok: bool)
    | Remove(k: nat, ok: bool)
    | MarkStopped(k: nat)

  function Init<T, D>(device: D): State<T, D> {
    State(Q.Empty(), map[], device, Some(device), false, [])
  }

  function ProgressOf<T, D>(st: State<T, D>, id: T): Progress<D> {
    if id in st.progress then st.progress[id] else Fresh
  }

  /** The request at position `k` holds the lock and is this far. */
  predicate HoldsAt<T(==), D>(st: State<T, D>, k: nat) {
    Q.InPhase(st.queue, k, Q.Holding)
  }

  function IdAt<T, D>(st: State<T, D>, k: nat): T
    requires k < |st.queue.live|
  {
    st.queue.live[k].id
  }

  ghost predicate Enabled<T(!new), D(!new)>(op: T -> Op<D>, st: State<T, D>, a: Act<T>) {
    match a
    case Step(s) => Q.Enabled(st.queue, s) && (s.Complete? ==> ProgressOf(st, IdAt(st, s.k)) == Done)
    case Read(k) => HoldsAt(st, k) && ProgressOf(st, IdAt(st, k)) == Fresh && op(IdAt(st, k)).Change?
    case Store(k, _) => HoldsAt(st, k) && ProgressOf(st, IdAt(st, k)).HasRead? && op(IdAt(st, k)).Change?
    case Cache(k) => HoldsAt(st, k) && ProgressOf(st, IdAt(st, k)).Stored?
    case ReloadCache(k, _) => HoldsAt(st, k) && ProgressOf(st, IdAt(st, k)) == Fresh && op(IdAt(st, k)).Reload?
    case Remove(k, _) => HoldsAt(st, k) && ProgressOf(st, IdAt(st, k)) == Fresh && op(IdAt(st, k)).Stop?
    case MarkStopped(k) => HoldsAt(st, k) && ProgressOf(st, IdAt(st, k)) == Removed
  }

  function Moved<T, D>(st: State<T, D>, id: T, p: Progress<D>): State<T, D> {
    st.(progress := st.progress[id := p])
  }

  function Finished<T, D>(st: State<T, D>, id: T, ok: bool): State<T, D> {
    Moved(st, id, Done).(history := st.history + [(id, ok)])
  }

  ghost function Next<T(!new), D(!new)>(op: T -> Op<D>, st: State<T, D>, a: Act<T>): State<T, D>
    requires Enabled(op, st, a)
  {
    match a
    case Step(s) => st.(queue := Q.Next(st.queue, s))
    case Read(k) => Moved(st, IdAt(st, k), HasRead(st.cached))
    case Store(k, ok) =>
      var id := IdAt(st, k);
      var d := op(id).f(ProgressOf(st, id).read);
      if d.None? || st.stopped || !ok then Finished(st, id, false) else Moved(st, id, Stored(d.value)).(stored := d)
    case Cache(k) => var id := IdAt(st, k); Finished(st.(cached := ProgressOf(st, id).written), id, true)
    case ReloadCache(k, ok) =>
      Finished(if ok && st.stored.Some? then st.(cached := st.stored.value) else st, IdAt(st, k), ok)
    case Remove(k, ok) => if ok then Moved(st, IdAt(st, k), Removed).(stored := None) else Finished(st, IdAt(st, k), false)
    case MarkStopped(k) => Finished(st.(stopped := true), IdAt(st, k), true)
  }

  ghost predicate ValidRun<T(!new), D(!new)>(op: T -> Op<D>, st: State<T, D>, acts: seq<Act<T>>)
    decreases |acts|
  {
    acts == [] || (Enabled(op, st, acts[0]) && ValidRun(op, Next(op, st, acts[0]), acts[1..]))
  }

  ghost function Exec<T(!new), D(!new)>(op: T -> Op<D>, st: State<T, D>, acts: seq<Act<T>>): State<T, D>
    requires ValidRun(op, st, acts)
    decreases |acts|
  {
    if acts == [] then st else Exec(op, Next(op, st, acts[0]), acts[1..])
  }

  // The same operations one after the other

  datatype Abs<D> = Abs(device: D, stopped: bool)

  function Apply<D>(a: Abs<D>, op: Op<D>, ok: bool): Abs<D> {
    match op
    case Change(f) => if ok && !a.stopped && f(a.device).Some? then a.(device := f(a.device).value) else a
    case Reload => a
    case Stop => if ok then a.(stopped := true) else a
  }

  function ApplyAll<T, D>(op: T -> Op<D>, a: Abs<D>, history: seq<(T, bool)>): Abs<D> {
    if history == [] then a
    else
      var n := |history| - 1;
      Apply(ApplyAll(op, a, history[..n]), op(history[n].0), history[n].1)
  }

  function Ids<T>(history: seq<(T, bool)>): (ids: seq<T>)
    ensures |ids| == |history| && forall i | 0 <= i < |ids| :: ids[i] == history[i].0
  {
    seq(|history|, i requires 0 <= i < |history| => history[i].0)
  }

  // The invariant

  predicate Held<T>(q: Q.Queue<T>) {
    q.live != [] && q.live[0].phase == Q.Holding
  }

  /** The store has what the cache has, or nothing once the agent is stopped. */
  predicate InSync<T, D(==)>(st: State<T, D>) {
    st.stored == if st.stopped then None else Some(st.cached)
  }

  /** What is known half way through the holder's operation. */
  ghost predicate HolderOk<T(!new), D(!new)>(op: T -> Op<D>, st: State<T, D>, id: T) {
    match ProgressOf(st, id)
    case Fresh => InSync(st)
    case HasRead(d) => InSync(st) && d == st.cached && op(id).Change?
    case Stored(d) => op(id).Change? && !st.stopped && st.stored == Some(d) && op(id).f(st.cached) == Some(d)
    case Removed => op(id).Stop? && st.stored == None
    case Done => InSync(st)
  }

  /** The cache is the result of the finished operations; only granted operations have begun. */
  ghost predicate Sequential<T(!new), D(!new)>(op: T -> Op<D>, init: Abs<D>, st: State<T, D>) {
    && ApplyAll(op, init, st.history) == Abs(st.cached, st.stopped)
    && forall x | x in st.progress :: x in st.queue.granted
  }

  /** While `id` holds the lock: it was granted last, and is in the history once it is done. */
  ghost predicate HeldOk<T(!new), D(!new)>(op: T -> Op<D>, init: Abs<D>, st: State<T, D>, id: T) {
    && Sequential(op, init, st) && HolderOk(op, st, id)
    && if ProgressOf(st, id) == Done then st.queue.granted == Ids(st.history) && id in st.queue.granted
       else st.queue.granted == Ids(st.history) + [id]
  }

  ghost predicate IdleOk<T(!new), D(!new)>(op: T -> Op<D>, init: Abs<D>, st: State<T, D>) {
    Sequential(op, init, st) && InSync(st) && st.queue.granted == Ids(st.history)
  }

  ghost predicate Inv<T(!new), D(!new)>(op: T -> Op<D>, init: Abs<D>, st: State<T, D>) {
    && Q.Inv(st.queue)
    && if Held(st.queue) then HeldOk(op, init, st, st.queue.live[0].id) else IdleOk(op, init, st)
  }

  /** A request that is not granted yet is not among the granted ones. */
  lemma NotYetGranted<T>(q: Q.Queue<T>)
    requires Q.Inv(q) && q.live != [] && !Held(q)
    ensures q.live[0].id !in q.granted
  {
    Q.WithoutDistinct(q.arrived, q.cancelled);
    var all := q.granted + Q.Pending(q.live);
    assert all[|q.granted|] == q.live[0].id;
    forall i | 0 <= i < |q.granted| ensures q.granted[i] != q.live[0].id {
      assert all[i] == q.granted[i];
    }
  }

  lemma OnlyHead<T>(q: Q.Queue<T>, k: nat)
    requires Q.Inv(q) && (Q.InPhase(q, k, Q.Holding) || Q.InPhase(q, k, Q.GreenSeen))
    ensures k == 0
  {
  }

  /** What a step of the queue does to the head and to the grants. */
  lemma HeadAfter<T>(q: Q.Queue<T>, s: Q.Step<T>)
    requires Q.Inv(q) && Q.Enabled(q, s)
    ensures var q' := Q.Next(q, s);
            && Q.Inv(q')
            && (s.Acquire? ==>
                  && !Held(q) && Held(q') && q.live != [] && q'.live[0].id == q.live[0].id
                  && q.live[0].id !in q.granted && q'.granted == q.granted + [q.live[0].id])
            && (s.Complete? ==> s.k == 0 && Held(q) && !Held(q') && q'.granted == q.granted)
            && (!s.Acquire? && !s.Complete? ==>
                  (Held(q') <==> Held(q)) && q'.granted == q.granted && (Held(q) ==> q'.live[0] == q.live[0]))
  {
    Q.StepKeepsInv(q, s);
    match s
    case Acquire(k) =>
      OnlyHead(q, k);
      NotYetGranted(q);
    case Complete(k) =>
      OnlyHead(q, k);
      assert Q.Next(q, s).live == q.live[1..];
    case Abort(k) =>
      assert k == 0 ==> Q.Next(q, s).live == q.live[1..];
    case _ =>
  }

  lemma QueueStepKeepsInv<T(!new), D(!new)>(op: T -> Op<D>, init: Abs<D>, st: State<T, D>, s: Q.Step<T>)
    requires Inv(op, init, st) && Enabled(op, st, Step(s))
    ensures Inv(op, init, Next(op, st, Step(s)))
  {
    HeadAfter(st.queue, s);
  }

  /** The holder's operation is done, and the history has it. */
  lemma FinishKeepsInv<T(!new), D(!new)>(op: T -> Op<D>, init: Abs<D>, st: State<T, D>, id: T, ok: bool, st': State<T, D>)
    requires HeldOk(op, init, st, id) && ProgressOf(st, id) != Done
    requires st' == Finished(st.(cached := st'.cached, stored := st'.stored, stopped := st'.stopped), id, ok)
    requires Apply(Abs(st.cached, st.stopped), op(id), ok) == Abs(st'.cached, st'.stopped) && InSync(st')
    ensures HeldOk(op, init, st', id)
  {
  }

  lemma ActKeepsInv<T(!new), D(!new)>(op: T -> Op<D>, init: Abs<D>, st: State<T, D>, a: Act<T>)
    requires !a.Step? && a.k == 0 && Enabled(op, st, a) && HeldOk(op, init, st, st.queue.live[0].id)
    ensures HeldOk(op, init, Next(op, st, a), st.queue.live[0].id) && Next(op, st, a).queue == st.queue
  {
    var id := st.queue.live[0].id;
    var st' := Next(op, st, a);
    match a
    case Cache(_) => FinishKeepsInv(op, init, st, id, true, st');
    case ReloadCache(_, ok) => FinishKeepsInv(op, init, st, id, ok, st');
    case MarkStopped(_) => FinishKeepsInv(op, init, st, id, true, st');
    case Store(_, ok) => if ProgressOf(st', id) == Done { FinishKeepsInv(op, init, st, id, false, st'); }
    case Remove(_, ok) => if !ok { FinishKeepsInv(op, init, st, id, false, st'); }
    case Read(_) =>
  }

  lemma NextKeepsInv<T(!new), D(!new)>(op: T -> Op<D>, init: Abs<D>, st: State<T, D>, a: Act<T>)
    requires Inv(op, init, st) && Enabled(op, st, a)
    ensures Inv(op, init, Next(op, st, a))
  {
    if a.Step? {
      QueueStepKeepsInv(op, init, st, a.s);
    } else {
      OnlyHead(st.queue, a.k);
      ActKeepsInv(op, init, st, a);
    }
  }

  lemma {:induction false} RunKeepsInv<T(!new), D(!new)>(op: T -> Op<D>, init: Abs<D>, st: State<T, D>, acts: seq<Act<T>>)
    requires Inv(op, init, st) && ValidRun(op, st, acts)
    ensures Inv(op, init, Exec(op, st, acts))
    decreases |acts|
  {
    if acts != [] {
      NextKeepsInv(op, init, st, acts[0]);
      RunKeepsInv(op, init, Next(op, st, acts[0]), acts[1..]);
    }
  }

  // Theorems over every interleaving

  /**
   No update is lost: the cached device is the result of the finished operations applied one after the other in the order
   in which they were granted the lock, and nothing else.
   */
  lemma InterleavingIsSequential<T(!new), D(!new)>(op: T -> Op<D>, device: D, acts: seq<Act<T>>)
    requires ValidRun(op, Init(device), acts)
    ensures var st := Exec(op, Init(device), acts);
            && Abs(st.cached, st.stopped) == ApplyAll(op, Abs(device, false), st.history)
            && Ids(st.history) <= st.queue.granted
            && |st.queue.granted| <= |st.history| + 1
            && st.queue.granted <= Q.Without(st.queue.arrived, st.queue.cancelled)
  {
    InitInv(op, device);
    RunKeepsInv(op, Abs(device, false), Init(device), acts);
  }

  lemma InitInv<T(!new), D(!new)>(op: T -> Op<D>, device: D)
    ensures Inv(op, Abs(device, false), Init<T, D>(device))
  {
  }

  /** Whenever no operation is in progress, the store has the cached device, or nothing after a successful stop. */
  lemma IdleIsInSync<T(!new), D(!new)>(op: T -> Op<D>, device: D, acts: seq<Act<T>>)
    requires ValidRun(op, Init(device), acts)
    ensures var st := Exec(op, Init(device), acts);
            !Held(st.queue) ==> InSync(st) && Ids(st.history) == st.queue.granted
  {
    InitInv(op, device);
    RunKeepsInv(op, Abs(device, false), Init(device), acts);
  }

  lemma StoppedStep<T(!new), D(!new)>(op: T -> Op<D>, init: Abs<D>, st: State<T, D>, a: Act<T>)
    requires Inv(op, init, st) && Enabled(op, st, a) && st.stopped
    ensures var st' := Next(op, st, a);
            st'.stopped && st'.stored == None && st'.cached == st.cached
  {
  }

  lemma {:induction false} StoppedRun<T(!new), D(!new)>(op: T -> Op<D>, init: Abs<D>, st: State<T, D>, acts: seq<Act<T>>)
    requires Inv(op, init, st) && ValidRun(op, st, acts) && st.stopped
    ensures var st' := Exec(op, st, acts);
            st'.stopped && st'.stored == st.stored == None && st'.cached == st.cached
    decreases |acts|
  {
    if acts != [] {
      NextKeepsInv(op, init, st, acts[0]);
      StoppedStep(op, init, st, acts[0]);
      StoppedRun(op, init, Next(op, st, acts[0]), acts[1..]);
    }
  }

  /** Once a run has stopped the agent, no continuation of it writes the device back or changes it. */
  lemma StoppedForGood<T(!new), D(!new)>(op: T -> Op<D>, device: D, acts: seq<Act<T>>, more: seq<Act<T>>)
    requires ValidRun(op, Init(device), acts) && ValidRun(op, Exec(op, Init(device), acts), more)
    requires Exec(op, Init(device), acts).stopped
    ensures var st := Exec(op, Init(device), acts);
            var st' := Exec(op, st, more);
            st'.stopped && st'.stored == st.stored == None && st'.cached == st.cached
  {
    InitInv(op, device);
    RunKeepsInv(op, Abs(device, false), Init(device), acts);
    StoppedRun(op, Abs(device, false), Exec(op, Init(device), acts), more);
  }
}
