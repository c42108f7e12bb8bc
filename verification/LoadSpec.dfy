/**
 Loading a device into memory, by any number of concurrent callers.  A caller is identified by the channel it would wait
 on.  Each step is one section under the loading lock, or one action outside of it; agents may also come and go for other
 reasons at any time.
 */
module LoadSpec {

  datatype Phase<C> =
    | Loading(device: string)                // made the entry; reads the model and starts the agent
    | Published(device: string)              // tried to put the agent into the map
    | Waiting(device: string, loader: C)     // blocked on its channel
    | Checking(device: string)               // about to look the agent up
    | Returned(found: bool)

  datatype State<C> = State(
    inProgress: map<string, seq<C>>,  // the channels per device, that of the loader first
    agents: set<string>,
    callers: map<C, Phase<C>>,
    closes: multiset<C>,              // how often each channel was closed
    attempts: set<C>)                 // loaders that have tried to publish

  datatype Step<C> =
    | Begin(c: C, device: string)
    | Publish(c: C, found: bool)
    | Announce(c: C)
    | Wake(c: C)
    | Check(c: C)
    | AgentAdded(device: string)
    | AgentRemoved(device: string)

  function Init<C>(agents: set<string>): State<C> {
    State(map[], agents, map[], multiset{}, {})
  }

  predicate In<C(==)>(s: State<C>, c: C, phase: Phase<C>) {
    c in s.callers && s.callers[c] == phase
  }

  predicate Enabled<C(==)>(s: State<C>, step: Step<C>) {
    match step
    case Begin(c, _) => c !in s.callers
    case Publish(c, _) => c in s.callers && s.callers[c].Loading?
    case Announce(c) => c in s.callers && s.callers[c].Published?
    case Wake(c) => c in s.callers && s.callers[c].Waiting? && s.closes[c] > 0
    case Check(c) => c in s.callers && s.callers[c].Checking?
    case AgentAdded(_) => true
    case AgentRemoved(_) => true
  }

  function Next<C(==)>(s: State<C>, step: Step<C>): State<C>
    requires Enabled(s, step)
  {
    match step
    case Begin(c, d) =>
      if d == "" then s.(callers := s.callers[c := Returned(false)])
      else if d in s.inProgress then
        var list := s.inProgress[d];
        s.(inProgress := s.inProgress[d := list + [c]], callers := s.callers[c := Waiting(d, if list == [] then c else list[0])])
      else if d in s.agents then s.(callers := s.callers[c := Checking(d)])
      else s.(inProgress := s.inProgress[d := [c]], callers := s.callers[c := Loading(d)])
    case Publish(c, found) =>
      var d := s.callers[c].device;
      s.(callers := s.callers[c := Published(d)], attempts := s.attempts + {c},
         agents := if found then s.agents + {d} else s.agents)
    case Announce(c) =>
      var d := s.callers[c].device;
      var s' := s.(callers := s.callers[c := Checking(d)]);
      if d in s.inProgress then s'.(closes := s.closes + multiset(s.inProgress[d]), inProgress := s.inProgress - {d}) else s'
    case Wake(c) => s.(callers := s.callers[c := Checking(s.callers[c].device)])
    case Check(c) => s.(callers := s.callers[c := Returned(s.callers[c].device in s.agents)])
    case AgentAdded(d) => s.(agents := s.agents + {d})
    case AgentRemoved(d) => s.(agents := s.agents - {d})
  }

  predicate ValidRun<C(==)>(s: State<C>, steps: seq<Step<C>>)
    decreases |steps|
  {
    steps == [] || (Enabled(s, steps[0]) && ValidRun(Next(s, steps[0]), steps[1..]))
  }

  function Exec<C(==)>(s: State<C>, steps: seq<Step<C>>): State<C>
    requires ValidRun(s, steps)
    decreases |steps|
  {
    if steps == [] then s else Exec(Next(s, steps[0]), steps[1..])
  }

  // The invariant

  predicate Loads<C(==)>(s: State<C>, c: C, d: string) {
    In(s, c, Loading(d)) || In(s, c, Published(d))
  }

  predicate Distinct<C(==)>(list: seq<C>) {
    forall i, j | 0 <= i < j < |list| :: list[i] != list[j]
  }

  /** An entry: its loader first, then callers that wait for it, all on open channels. */
  predicate EntryOk<C(==)>(s: State<C>, d: string)
    requires d in s.inProgress
  {
    var list := s.inProgress[d];
    && list != [] && Distinct(list) && Loads(s, list[0], d)
    && (forall i | 0 < i < |list| :: In(s, list[i], Waiting(d, list[0])))
    && (forall i | 0 <= i < |list| :: s.closes[list[i]] == 0)
  }

  /** What a caller's phase says about the entries and about its channel. */
  predicate CallerOk<C(==)>(s: State<C>, c: C)
    requires c in s.callers
  {
    match s.callers[c]
    case Loading(d) => d in s.inProgress && s.inProgress[d] != [] && s.inProgress[d][0] == c
    case Published(d) => d in s.inProgress && s.inProgress[d] != [] && s.inProgress[d][0] == c && c in s.attempts
    case Waiting(d, loader) =>
      if s.closes[c] == 0 then d in s.inProgress && c in s.inProgress[d] && s.inProgress[d][0] == loader
      else loader in s.attempts
    case _ => true
  }

  ghost predicate Inv<C(!new)>(s: State<C>) {
    && (forall d {:trigger EntryOk(s, d)} | d in s.inProgress :: EntryOk(s, d))
    && (forall c {:trigger CallerOk(s, c)} | c in s.callers :: CallerOk(s, c))
    && (forall c :: s.closes[c] <= 1 && (c !in s.callers ==> s.closes[c] == 0))
  }

  lemma BeginKeepsInv<C(!new)>(s: State<C>, c: C, device: string)
    requires Inv(s) && Enabled(s, Begin(c, device))
    ensures Inv(Next(s, Begin(c, device)))
  {
    var s' := Next(s, Begin(c, device));
    forall d {:trigger EntryOk(s', d)} | d in s'.inProgress ensures EntryOk(s', d) {
      if d in s.inProgress {
        assert EntryOk(s, d);
        NotListed(s, c, d);
      }
    }
    forall x {:trigger CallerOk(s', x)} | x in s'.callers ensures CallerOk(s', x) {
      if x != c {
        assert CallerOk(s, x);
      } else if device in s.inProgress {
        assert EntryOk(s, device);
      }
    }
  }

  /** A caller that has not begun is in no entry. */
  lemma NotListed<C(!new)>(s: State<C>, c: C, d: string)
    requires Inv(s) && c !in s.callers && d in s.inProgress
    ensures c !in s.inProgress[d]
  {
    assert EntryOk(s, d);
    var list := s.inProgress[d];
    assert forall i | 0 <= i < |list| :: list[i] in s.callers;
  }

  lemma PublishKeepsInv<C(!new)>(s: State<C>, c: C, found: bool)
    requires Inv(s) && Enabled(s, Publish(c, found))
    ensures Inv(Next(s, Publish(c, found)))
  {
    var s' := Next(s, Publish(c, found));
    assert CallerOk(s, c);
    forall d {:trigger EntryOk(s', d)} | d in s'.inProgress ensures EntryOk(s', d) {
      assert EntryOk(s, d);
    }
    forall x {:trigger CallerOk(s', x)} | x in s'.callers ensures CallerOk(s', x) {
      assert CallerOk(s, x);
    }
  }

  /** Entries of different devices have no caller in common. */
  lemma EntriesApart<C(!new)>(s: State<C>, d: string, e: string, x: C)
    requires Inv(s) && d in s.inProgress && e in s.inProgress && x in s.inProgress[d] && x in s.inProgress[e]
    ensures d == e
  {
    assert EntryOk(s, d) && EntryOk(s, e);
    var i :| 0 <= i < |s.inProgress[d]| && s.inProgress[d][i] == x;
    var j :| 0 <= j < |s.inProgress[e]| && s.inProgress[e][j] == x;
    assert s.callers[x].device == d && s.callers[x].device == e;
  }

  lemma {:induction false} CountDistinct<C>(list: seq<C>, x: C)
    requires Distinct(list)
    ensures multiset(list)[x] == if x in list then 1 else 0
  {
    if list != [] {
      var n := |list| - 1;
      assert list == list[..n] + [list[n]];
      CountDistinct(list[..n], x);
    }
  }

  /** Closing the channels of an entry closes each of them for the first time, and no other. */
  lemma AnnounceCloses<C(!new)>(s: State<C>, c: C, x: C)
    requires Inv(s) && Enabled(s, Announce(c))
    ensures var d := s.callers[c].device;
            && d in s.inProgress
            && Next(s, Announce(c)).closes[x] == (if x in s.inProgress[d] then 1 else s.closes[x])
            && (x in s.inProgress[d] ==> s.closes[x] == 0 && x in s.callers)
  {
    assert CallerOk(s, c);
    var d := s.callers[c].device;
    assert EntryOk(s, d);
    CountDistinct(s.inProgress[d], x);
  }

  lemma AnnounceKeepsInv<C(!new)>(s: State<C>, c: C)
    requires Inv(s) && Enabled(s, Announce(c))
    ensures Inv(Next(s, Announce(c)))
  {
    var s' := Next(s, Announce(c));
    var d := s.callers[c].device;
    assert CallerOk(s, c) && EntryOk(s, d);
    forall e {:trigger EntryOk(s', e)} | e in s'.inProgress ensures EntryOk(s', e) {
      assert EntryOk(s, e);
      var list := s.inProgress[e];
      forall i | 0 <= i < |list| ensures s'.closes[list[i]] == 0 && list[i] != c {
        AnnounceCloses(s, c, list[i]);
        if list[i] in s.inProgress[d] { EntriesApart(s, d, e, list[i]); }
      }
    }
    forall x {:trigger CallerOk(s', x)} | x in s'.callers ensures CallerOk(s', x) {
      assert CallerOk(s, x);
      AnnounceCloses(s, c, x);
      assert x in s.inProgress[d] && x != c ==> s.callers[x] == Waiting(d, c);
    }
    forall x ensures s'.closes[x] <= 1 && (x !in s'.callers ==> s'.closes[x] == 0) {
      AnnounceCloses(s, c, x);
    }
  }

  lemma OwnStepKeepsInv<C(!new)>(s: State<C>, step: Step<C>)
    requires Inv(s) && Enabled(s, step) && !step.Begin? && !step.Publish? && !step.Announce?
    ensures Inv(Next(s, step))
  {
    var s' := Next(s, step);
    forall d {:trigger EntryOk(s', d)} | d in s'.inProgress ensures EntryOk(s', d) {
      assert EntryOk(s, d);
      assert step.Wake? || step.Check? ==> step.c !in s.inProgress[d];
    }
    forall x {:trigger CallerOk(s', x)} | x in s'.callers ensures CallerOk(s', x) {
      assert CallerOk(s, x);
    }
  }

  lemma StepKeepsInv<C(!new)>(s: State<C>, step: Step<C>)
    requires Inv(s) && Enabled(s, step)
    ensures Inv(Next(s, step))
  {
    match step
    case Begin(c, d) => BeginKeepsInv(s, c, d);
    case Publish(c, found) => PublishKeepsInv(s, c, found);
    case Announce(c) => AnnounceKeepsInv(s, c);
    case _ => OwnStepKeepsInv(s, step);
  }

  lemma {:induction false} RunKeepsInv<C(!new)>(s: State<C>, steps: seq<Step<C>>)
    requires Inv(s) && ValidRun(s, steps)
    ensures Inv(Exec(s, steps))
    decreases |steps|
  {
    if steps != [] {
      StepKeepsInv(s, steps[0]);
      RunKeepsInv(Next(s, steps[0]), steps[1..]);
    }
  }

  // Theorems over every run

  /** At most one caller at a time loads a device, and a device has an entry exactly while one does. */
  lemma SingleFlight<C(!new)>(agents: set<string>, steps: seq<Step<C>>, d: string)
    requires ValidRun(Init(agents), steps)
    ensures var s := Exec(Init(agents), steps);
            && (forall a, b | Loads(s, a, d) && Loads(s, b, d) :: a == b)
            && (d in s.inProgress <==> exists c :: Loads(s, c, d))
  {
    RunKeepsInv(Init<C>(agents), steps);
    var s := Exec(Init<C>(agents), steps);
    forall c | Loads(s, c, d) ensures d in s.inProgress && s.inProgress[d] != [] && s.inProgress[d][0] == c {
      assert CallerOk(s, c);
    }
    if d in s.inProgress {
      assert EntryOk(s, d);
      assert Loads(s, s.inProgress[d][0], d);
    }
  }

  /** Every channel is closed at most once, and that of a waiter only after its loader has tried to publish. */
  lemma ClosedOnceAfterPublish<C(!new)>(agents: set<string>, steps: seq<Step<C>>, c: C)
    requires ValidRun(Init(agents), steps)
    ensures var s := Exec(Init(agents), steps);
            && s.closes[c] <= 1
            && (c in s.callers && s.callers[c].Waiting? && s.closes[c] == 1 ==> s.callers[c].loader in s.attempts)
  {
    RunKeepsInv(Init<C>(agents), steps);
    var s := Exec(Init<C>(agents), steps);
    assert c in s.callers ==> CallerOk(s, c);
  }

  /** The state after the loader's own remaining steps, whether or not it finds the device. */
  function AfterLoader<C(==)>(s: State<C>, loader: C, found: bool): State<C>
    requires loader in s.callers && (s.callers[loader].Loading? || s.callers[loader].Published?)
  {
    var s1 := if s.callers[loader].Loading? then Next(s, Publish(loader, found)) else s;
    Next(s1, Announce(loader))
  }

  /** A waiter is never forgotten: its channel is closed, or its loader is still there to close it. */
  lemma WaiterIsServed<C(!new)>(agents: set<string>, steps: seq<Step<C>>, c: C, found: bool)
    requires ValidRun(Init(agents), steps)
    requires var s := Exec(Init(agents), steps); c in s.callers && s.callers[c].Waiting?
    ensures var s := Exec(Init(agents), steps);
            var w := s.callers[c];
            || s.closes[c] == 1
            || (Loads(s, w.loader, w.device)
                && var s' := AfterLoader(s, w.loader, found);
                && s'.closes[c] == 1 && w.device !in s'.inProgress
                && (w.device in s'.agents <==> w.device in s.agents || (s.callers[w.loader].Loading? && found)))
  {
    RunKeepsInv(Init<C>(agents), steps);
    var s := Exec(Init<C>(agents), steps);
    var w := s.callers[c];
    assert CallerOk(s, c);
    if s.closes[c] == 0 {
      assert EntryOk(s, w.device);
      if s.callers[w.loader].Loading? {
        var s1 := Next(s, Publish(w.loader, found));
        StepKeepsInv(s, Publish(w.loader, found));
        AnnounceCloses(s1, w.loader, c);
      } else {
        AnnounceCloses(s, w.loader, c);
      }
    }
  }
}
