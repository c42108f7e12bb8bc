/**
 The request queue as an interleaved step system.  A state holds the requests that are in the queue, each with the
 point its goroutine has reached, and the history the theorems talk about.  Every step is one atomic section of
 `WaitForGreenLight` or `RequestComplete`; any goroutine may take any enabled step at any time.
 */
module QueueSpec {

  /** Where the goroutine of a request stands. */
  datatype Phase =
    | Waiting    // blocked in the outer select
    | GreenSeen  // the select took the green light; `current` is not written yet
    | Aborting   // the select took the cancelled context; the mutex is not taken yet
    | Holding    // `current` is written, WaitForGreenLight returned nil

  datatype Entry<T> = Entry(id: T, phase: Phase)

  datatype Queue<T> = Queue(
    live: seq<Entry<T>>,  // requests in the queue, the one to be served first in front
    arrived: seq<T>,      // every request ever enqueued, in order
    granted: seq<T>,      // requests whose wait returned nil, in order
    cancelled: set<T>)    // requests whose wait returned the context's error

  /** Steps name the position in the queue of the request whose goroutine moves. */
  datatype Step<T> =
    | Enqueue(id: T)
    | SeeGreen(k: nat)
    | SeeDone(k: nat)
    | Acquire(k: nat)
    | Abort(k: nat)
    | Complete(k: nat)

  function Empty<T>(): Queue<T> {
    Queue([], [], [], {})
  }

  predicate InPhase<T>(q: Queue<T>, k: nat, phase: Phase) {
    k < |q.live| && q.live[k].phase == phase
  }

  /** The channel a request waits on is closed exactly while the request is at the head of the queue. */
  predicate Green(k: nat) {
    k == 0
  }

  predicate Enabled<T(==)>(q: Queue<T>, s: Step<T>) {
    match s
    case Enqueue(id) => id !in q.arrived
    case SeeGreen(k) => InPhase(q, k, Waiting) && Green(k)
    case SeeDone(k) => InPhase(q, k, Waiting)
    case Acquire(k) => InPhase(q, k, GreenSeen)
    case Abort(k) => InPhase(q, k, Aborting)
    case Complete(k) => InPhase(q, k, Holding)
  }

  function SetPhase<T>(live: seq<Entry<T>>, k: nat, phase: Phase): seq<Entry<T>>
    requires k < |live|
  {
    live[k := Entry(live[k].id, phase)]
  }

  function RemoveAt<T>(s: seq<T>, k: nat): seq<T>
    requires k < |s|
  {
    s[..k] + s[k + 1..]
  }

  function Next<T(==)>(q: Queue<T>, s: Step<T>): Queue<T>
    requires Enabled(q, s)
  {
    match s
    case Enqueue(id) => q.(live := q.live + [Entry(id, Waiting)], arrived := q.arrived + [id])
    case SeeGreen(k) => q.(live := SetPhase(q.live, k, GreenSeen))
    case SeeDone(k) => q.(live := SetPhase(q.live, k, Aborting))
    case Acquire(k) => q.(live := SetPhase(q.live, k, Holding), granted := q.granted + [q.live[k].id])
    case Abort(k) => q.(live := RemoveAt(q.live, k), cancelled := q.cancelled + {q.live[k].id})
    case Complete(k) => q.(live := RemoveAt(q.live, k))
  }

  // Runs

  predicate ValidRun<T(==)>(q: Queue<T>, steps: seq<Step<T>>)
    decreases |steps|
  {
    steps == [] || (Enabled(q, steps[0]) && ValidRun(Next(q, steps[0]), steps[1..]))
  }

  function Exec<T(==)>(q: Queue<T>, steps: seq<Step<T>>): Queue<T>
    requires ValidRun(q, steps)
    decreases |steps|
  {
    if steps == [] then q else Exec(Next(q, steps[0]), steps[1..])
  }

  // The invariant

  /** `ids` without the members of `out`, in the same order. */
  function Without<T(==)>(ids: seq<T>, out: set<T>): seq<T> {
    if ids == [] then []
    else
      var rest := Without(ids[1..], out);
      if ids[0] in out then rest else [ids[0]] + rest
  }

  function Ids<T>(live: seq<Entry<T>>): (ids: seq<T>)
    ensures |ids| == |live|
    ensures forall i | 0 <= i < |ids| :: ids[i] == live[i].id
  {
    seq(|live|, i requires 0 <= i < |live| => live[i].id)
  }

  /** The live requests that have not been granted yet. */
  function Pending<T>(live: seq<Entry<T>>): seq<T> {
    if live != [] && live[0].phase == Holding then Ids(live)[1..] else Ids(live)
  }

  predicate Distinct<T(==)>(s: seq<T>) {
    forall i, j | 0 <= i < j < |s| :: s[i] != s[j]
  }

  /** At most the head of the queue has seen its green light or holds the lock. */
  predicate TokenAtHead<T>(live: seq<Entry<T>>) {
    forall i | 0 < i < |live| :: live[i].phase == Waiting || live[i].phase == Aborting
  }

  /** Grants so far, then the requests still to be served, are the arrivals without the cancelled ones. */
  predicate InOrder<T(==)>(q: Queue<T>) {
    q.granted + Pending(q.live) == Without(q.arrived, q.cancelled)
  }

  predicate Inv<T(==)>(q: Queue<T>) {
    && Distinct(q.arrived)
    && Distinct(Ids(q.live))
    && (forall i | 0 <= i < |q.live| :: q.live[i].id in q.arrived && q.live[i].id !in q.cancelled)
    && q.cancelled <= (set x | x in q.arrived)
    && TokenAtHead(q.live)
    && InOrder(q)
  }

  // Facts about Without

  lemma {:induction false} WithoutAppend<T>(a: seq<T>, b: seq<T>, out: set<T>)
    ensures Without(a + b, out) == Without(a, out) + Without(b, out)
  {
    if a == [] {
      assert a + b == b;
    } else {
      WithoutAppend(a[1..], b, out);
      assert (a + b)[1..] == a[1..] + b && (a + b)[0] == a[0];
      var x, y := Without(a[1..], out), Without(b, out);
      assert [a[0]] + (x + y) == ([a[0]] + x) + y;
    }
  }

  lemma {:induction false} WithoutMembers<T>(ids: seq<T>, out: set<T>)
    ensures forall x :: x in Without(ids, out) <==> x in ids && x !in out
  {
    if ids != [] {
      WithoutMembers(ids[1..], out);
      assert ids == [ids[0]] + ids[1..];
    }
  }

  lemma {:induction false} WithoutDistinct<T>(ids: seq<T>, out: set<T>)
    requires Distinct(ids)
    ensures Distinct(Without(ids, out))
  {
    if ids != [] {
      WithoutDistinct(ids[1..], out);
      WithoutMembers(ids[1..], out);
      assert ids[0] !in ids[1..];
    }
  }

  /** Cancelling one more request drops exactly that request from what is kept. */
  lemma {:induction false} WithoutOneMore<T>(ids: seq<T>, out: set<T>, x: T)
    ensures Without(ids, out + {x}) == Without(Without(ids, out), {x})
  {
    if ids != [] {
      WithoutOneMore(ids[1..], out, x);
      var rest := Without(ids[1..], out);
      assert ([ids[0]] + rest)[1..] == rest;
    }
  }

  lemma {:induction false} WithoutAbsent<T>(ids: seq<T>, out: set<T>)
    requires forall x | x in ids :: x !in out
    ensures Without(ids, out) == ids
  {
    if ids != [] {
      WithoutAbsent(ids[1..], out);
      assert ids == [ids[0]] + ids[1..];
    }
  }

  /** Removing the element at `k` from a sequence without repetitions. */
  lemma {:induction false} WithoutAt<T>(ids: seq<T>, k: nat)
    requires Distinct(ids) && k < |ids|
    ensures Without(ids, {ids[k]}) == RemoveAt(ids, k)
  {
    if k == 0 {
      WithoutAbsent(ids[1..], {ids[0]});
      assert RemoveAt(ids, 0) == ids[1..];
    } else {
      WithoutAt(ids[1..], k - 1);
      assert RemoveAt(ids, k) == [ids[0]] + RemoveAt(ids[1..], k - 1);
    }
  }

  // Every step keeps the invariant

  lemma EnqueueKeepsInv<T>(q: Queue<T>, id: T)
    requires Inv(q) && Enabled(q, Enqueue(id))
    ensures Inv(Next(q, Enqueue(id)))
  {
    var q' := Next(q, Enqueue(id));
    assert Ids(q'.live) == Ids(q.live) + [id];
    WithoutAppend(q.arrived, [id], q.cancelled);
    assert Without([id], q.cancelled) == [id];
    assert Pending(q'.live) == Pending(q.live) + [id];
    assert q'.granted + Pending(q'.live) == (q.granted + Pending(q.live)) + [id];
  }

  lemma SelectKeepsInv<T>(q: Queue<T>, s: Step<T>)
    requires Inv(q) && Enabled(q, s) && (s.SeeGreen? || s.SeeDone?)
    ensures Inv(Next(q, s))
  {
    var q' := Next(q, s);
    assert Ids(q'.live) == Ids(q.live);
    assert Pending(q'.live) == Pending(q.live);
  }

  lemma AcquireKeepsInv<T>(q: Queue<T>, k: nat)
    requires Inv(q) && Enabled(q, Acquire(k))
    ensures Inv(Next(q, Acquire(k)))
  {
    var q' := Next(q, Acquire(k));
    var ids := Ids(q.live);
    assert Ids(q'.live) == ids;
    assert Pending(q.live) == ids && Pending(q'.live) == ids[1..];
    assert (q.granted + [ids[0]]) + ids[1..] == q.granted + ids;
  }

  lemma CompleteKeepsInv<T>(q: Queue<T>, k: nat)
    requires Inv(q) && Enabled(q, Complete(k))
    ensures Inv(Next(q, Complete(k)))
  {
    var q' := Next(q, Complete(k));
    assert q'.live == q.live[1..];
    assert Ids(q'.live) == Ids(q.live)[1..];
    assert Pending(q'.live) == Ids(q'.live);
  }

  lemma RemoveAtAppend<T>(a: seq<T>, b: seq<T>, j: nat)
    requires j < |b|
    ensures RemoveAt(a + b, |a| + j) == a + RemoveAt(b, j)
  {
  }

  /** Cancelling a request that is still to be served takes it out of what is to be served. */
  lemma CancelKeepsOrder<T>(arrived: seq<T>, cancelled: set<T>, granted: seq<T>, pending: seq<T>, j: nat)
    requires Distinct(arrived) && granted + pending == Without(arrived, cancelled) && j < |pending|
    ensures granted + RemoveAt(pending, j) == Without(arrived, cancelled + {pending[j]})
  {
    var kept := Without(arrived, cancelled);
    WithoutDistinct(arrived, cancelled);
    WithoutOneMore(arrived, cancelled, pending[j]);
    assert kept[|granted| + j] == pending[j];
    WithoutAt(kept, |granted| + j);
    RemoveAtAppend(granted, pending, j);
  }

  lemma IdsRemoveAt<T>(live: seq<Entry<T>>, k: nat)
    requires k < |live|
    ensures Ids(RemoveAt(live, k)) == RemoveAt(Ids(live), k)
  {
  }

  lemma DistinctRemoveAt<T>(s: seq<T>, k: nat)
    requires Distinct(s) && k < |s|
    ensures Distinct(RemoveAt(s, k)) && s[k] !in RemoveAt(s, k)
    ensures forall x | x in RemoveAt(s, k) :: x in s
  {
  }

  lemma PendingRemoveAt<T>(live: seq<Entry<T>>, k: nat) returns (j: nat)
    requires TokenAtHead(live) && k < |live| && live[k].phase == Aborting
    ensures j < |Pending(live)| && Pending(live)[j] == live[k].id
    ensures Pending(RemoveAt(live, k)) == RemoveAt(Pending(live), j)
    ensures TokenAtHead(RemoveAt(live, k))
  {
    var live' := RemoveAt(live, k);
    IdsRemoveAt(live, k);
    assert forall i | 0 <= i < |live'| :: live'[i] == live[if i < k then i else i + 1];
    if live[0].phase == Holding {
      j := k - 1;
      assert Ids(live')[1..] == RemoveAt(Ids(live)[1..], k - 1);
    } else {
      j := k;
    }
  }

  lemma AbortKeepsInv<T>(q: Queue<T>, k: nat)
    requires Inv(q) && Enabled(q, Abort(k))
    ensures Inv(Next(q, Abort(k)))
  {
    var j := PendingRemoveAt(q.live, k);
    CancelKeepsOrder(q.arrived, q.cancelled, q.granted, Pending(q.live), j);
    IdsRemoveAt(q.live, k);
    DistinctRemoveAt(Ids(q.live), k);
    var live' := RemoveAt(q.live, k);
    forall i | 0 <= i < |live'| ensures live'[i].id in q.arrived && live'[i].id !in q.cancelled + {q.live[k].id} {
      assert live'[i] == q.live[if i < k then i else i + 1];
      assert Ids(live')[i] in RemoveAt(Ids(q.live), k);
    }
  }

  lemma StepKeepsInv<T>(q: Queue<T>, s: Step<T>)
    requires Inv(q) && Enabled(q, s)
    ensures Inv(Next(q, s))
  {
    match s
    case Enqueue(id) => EnqueueKeepsInv(q, id);
    case SeeGreen(_) => SelectKeepsInv(q, s);
    case SeeDone(_) => SelectKeepsInv(q, s);
    case Acquire(k) => AcquireKeepsInv(q, k);
    case Abort(k) => AbortKeepsInv(q, k);
    case Complete(k) => CompleteKeepsInv(q, k);
  }

  lemma {:induction false} RunKeepsInv<T>(q: Queue<T>, steps: seq<Step<T>>)
    requires Inv(q) && ValidRun(q, steps)
    ensures Inv(Exec(q, steps))
    decreases |steps|
  {
    if steps != [] {
      StepKeepsInv(q, steps[0]);
      RunKeepsInv(Next(q, steps[0]), steps[1..]);
    }
  }

  // Theorems over every run from the empty queue

  predicate HasToken<T>(e: Entry<T>) {
    e.phase == GreenSeen || e.phase == Holding
  }

  /** At most one request at a time is past its green light, and it is the oldest one in the queue. */
  lemma MutualExclusion<T>(steps: seq<Step<T>>, i: nat, j: nat)
    requires ValidRun(Empty(), steps)
    requires var live := Exec(Empty(), steps).live;
             i < |live| && j < |live| && HasToken(live[i]) && HasToken(live[j])
    ensures i == j == 0
  {
    RunKeepsInv(Empty<T>(), steps);
  }

  /** Grants follow the order of arrival, skipping exactly the cancelled requests; nobody is skipped otherwise. */
  lemma GrantOrder<T>(steps: seq<Step<T>>)
    requires ValidRun(Empty(), steps)
    ensures var q := Exec(Empty(), steps);
            && q.granted <= Without(q.arrived, q.cancelled)
            && (q.live == [] ==> q.granted == Without(q.arrived, q.cancelled))
            && (forall x | x in q.cancelled :: x !in q.granted)
            && Distinct(q.granted)
  {
    RunKeepsInv(Empty<T>(), steps);
    var q := Exec(Empty<T>(), steps);
    var kept := Without(q.arrived, q.cancelled);
    WithoutMembers(q.arrived, q.cancelled);
    WithoutDistinct(q.arrived, q.cancelled);
    assert forall i | 0 <= i < |q.granted| :: q.granted[i] == kept[i] && kept[i] in kept;
  }

  // Waiting is bounded

  function Rank(p: Phase): nat {
    match p
    case Waiting => 3
    case GreenSeen => 2
    case Aborting => 1
    case Holding => 1
  }

  /** Steps that the requests in `live` can still take before all of them have left the queue. */
  function Work<T>(live: seq<Entry<T>>): nat {
    if live == [] then 0 else Rank(live[0].phase) + Work(live[1..])
  }

  lemma {:induction false} WorkAppend<T>(a: seq<Entry<T>>, b: seq<Entry<T>>)
    ensures Work(a + b) == Work(a) + Work(b)
  {
    if a == [] {
      assert a + b == b;
    } else {
      WorkAppend(a[1..], b);
      assert (a + b)[1..] == a[1..] + b;
    }
  }

  lemma WorkSplit<T>(live: seq<Entry<T>>, k: nat)
    requires k < |live|
    ensures Work(live) == Work(live[..k]) + Rank(live[k].phase) + Work(live[k + 1..])
  {
    assert live == live[..k] + ([live[k]] + live[k + 1..]);
    WorkAppend(live[..k], [live[k]] + live[k + 1..]);
    WorkAppend([live[k]], live[k + 1..]);
    assert Work([live[k]]) == Rank(live[k].phase) + Work<T>([]);
  }

  lemma {:induction false} WorkBound<T>(live: seq<Entry<T>>)
    ensures |live| <= Work(live) <= 3 * |live|
  {
    if live != [] {
      WorkBound(live[1..]);
    }
  }

  predicate Removes<T>(s: Step<T>) {
    s.Abort? || s.Complete?
  }

  /** The step is taken by a request in front of position `p`. */
  predicate InFront<T>(s: Step<T>, p: nat) {
    !s.Enqueue? && s.k < p
  }

  /** Where a step leaves the request at position `p`, when it does not remove it. */
  function Shift<T>(s: Step<T>, p: nat): nat {
    if Removes(s) && s.k < p then p - 1 else p
  }

  /** The request at position `p` is in the queue after every step of the run. */
  predicate Stays<T(==)>(q: Queue<T>, steps: seq<Step<T>>, p: nat)
    requires ValidRun(q, steps)
    decreases |steps|
  {
    && p < |q.live|
    && (steps != [] ==>
          && !(Removes(steps[0]) && steps[0].k == p)
          && Stays(Next(q, steps[0]), steps[1..], Shift(steps[0], p)))
  }

  function FinalPosition<T>(steps: seq<Step<T>>, p: nat): nat {
    if steps == [] then p else FinalPosition(steps[1..], Shift(steps[0], p))
  }

  /** The number of steps of the run taken by requests in front of the one that starts at `p`. */
  function StepsInFront<T>(steps: seq<Step<T>>, p: nat): nat {
    if steps == [] then 0
    else (if InFront(steps[0], p) then 1 else 0) + StepsInFront(steps[1..], Shift(steps[0], p))
  }

  lemma WorkRemoveAt<T>(live: seq<Entry<T>>, k: nat)
    requires k < |live|
    ensures Work(RemoveAt(live, k)) + Rank(live[k].phase) == Work(live)
  {
    WorkSplit(live, k);
    WorkAppend(live[..k], live[k + 1..]);
  }

  lemma WorkSetPhase<T>(live: seq<Entry<T>>, k: nat, phase: Phase)
    requires k < |live|
    ensures Work(SetPhase(live, k, phase)) + Rank(live[k].phase) == Work(live) + Rank(phase)
  {
    var live' := SetPhase(live, k, phase);
    WorkSplit(live, k);
    WorkSplit(live', k);
    assert live'[..k] == live[..k] && live'[k + 1..] == live[k + 1..];
  }

  /** No step adds work in front of a request; every step of a request in front of it removes some. */
  lemma StepAhead<T>(q: Queue<T>, s: Step<T>, p: nat)
    requires Enabled(q, s) && p < |q.live| && !(Removes(s) && s.k == p)
    ensures Shift(s, p) < |Next(q, s).live|
    ensures Next(q, s).live[Shift(s, p)].id == q.live[p].id
    ensures Work(Next(q, s).live[..Shift(s, p)]) + (if InFront(s, p) then 1 else 0) <= Work(q.live[..p])
  {
    var live, live' := q.live, Next(q, s).live;
    if !InFront(s, p) {
      assert live'[..p] == live[..p];
    } else if Removes(s) {
      assert live'[..p - 1] == RemoveAt(live[..p], s.k);
      WorkRemoveAt(live[..p], s.k);
    } else {
      var phase := live'[s.k].phase;
      assert live'[..p] == SetPhase(live[..p], s.k, phase);
      WorkSetPhase(live[..p], s.k, phase);
    }
  }

  /**
   However the other requests interleave, and however many new ones arrive, the requests in front of a waiting
   request take at most three steps each before it is at the head: the queue cannot starve anybody.
   */
  lemma {:induction false} BoundedWaiting<T>(q: Queue<T>, steps: seq<Step<T>>, p: nat)
    requires ValidRun(q, steps) && Stays(q, steps, p)
    ensures FinalPosition(steps, p) < |Exec(q, steps).live|
    ensures Exec(q, steps).live[FinalPosition(steps, p)].id == q.live[p].id
    ensures FinalPosition(steps, p) + StepsInFront(steps, p) <= 3 * p
    ensures Work(Exec(q, steps).live[..FinalPosition(steps, p)]) + StepsInFront(steps, p) <= Work(q.live[..p])
    decreases |steps|
  {
    WorkBound(q.live[..p]);
    if steps != [] {
      StepAhead(q, steps[0], p);
      BoundedWaiting(Next(q, steps[0]), steps[1..], Shift(steps[0], p));
    }
    WorkBound(Exec(q, steps).live[..FinalPosition(steps, p)]);
  }

  /** The step the head of the queue can always take: no wake-up is lost and the queue never blocks. */
  function HeadStep<T(==)>(q: Queue<T>): (s: Step<T>)
    requires q.live != []
    ensures Enabled(q, s) && !s.Enqueue? && s.k == 0
  {
    match q.live[0].phase
    case Waiting => SeeGreen(0)
    case GreenSeen => Acquire(0)
    case Aborting => Abort(0)
    case Holding => Complete(0)
  }

  /** From any state the requests in front of a waiting request can be served, until it is granted itself. */
  lemma {:induction false} EveryWaiterCanBeServed<T>(q: Queue<T>, p: nat) returns (steps: seq<Step<T>>)
    requires InPhase(q, p, Waiting)
    ensures ValidRun(q, steps)
    ensures InPhase(Exec(q, steps), 0, Holding) && Exec(q, steps).live[0].id == q.live[p].id
    ensures |steps| <= Work(q.live[..p]) + 2
    decreases Work(q.live[..p])
  {
    if p == 0 {
      steps := [SeeGreen(0), Acquire(0)];
      var q1 := Next(q, SeeGreen(0));
      var q2 := Next(q1, Acquire(0));
      assert steps[1..] == [Acquire(0)] && steps[1..][1..] == [];
      assert ValidRun(q2, []) && ValidRun(q1, steps[1..]);
      assert Exec(q1, steps[1..]) == Exec(q2, []) == q2;
    } else {
      var s := HeadStep(q);
      StepAhead(q, s, p);
      assert Next(q, s).live[Shift(s, p)].phase == Waiting;
      var rest := EveryWaiterCanBeServed(Next(q, s), Shift(s, p));
      steps := [s] + rest;
      assert steps[1..] == rest;
    }
  }
}
