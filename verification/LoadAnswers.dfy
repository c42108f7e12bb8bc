/** What the callers of a device load are told, in terms of the events of a run alone. */
module LoadAnswers {
  import opened LoadSpec

  // Prefixes of runs

  lemma {:induction false} PrefixValid<C>(s: State<C>, steps: seq<Step<C>>, k: nat)
    requires ValidRun(s, steps) && k <= |steps|
    ensures ValidRun(s, steps[..k])
    decreases |steps|
  {
    if k > 0 {
      assert steps[..k][1..] == steps[1..][..k - 1];
      PrefixValid(Next(s, steps[0]), steps[1..], k - 1);
    }
  }

  /** The state after the first `k` steps. */
  ghost function After<C(!new)>(s: State<C>, steps: seq<Step<C>>, k: nat): State<C>
    requires ValidRun(s, steps) && k <= |steps|
  {
    PrefixValid(s, steps, k);
    Exec(s, steps[..k])
  }

  lemma {:induction false} AfterNext<C(!new)>(s: State<C>, steps: seq<Step<C>>, k: nat)
    requires ValidRun(s, steps) && k < |steps|
    ensures Enabled(After(s, steps, k), steps[k]) && After(s, steps, k + 1) == Next(After(s, steps, k), steps[k])
    decreases |steps|
  {
    if k == 0 {
      assert steps[..1][1..] == [] && steps[..0] == [];
      assert Exec(s, steps[..1]) == Exec(Next(s, steps[0]), []);
    } else {
      assert steps[..k][1..] == steps[1..][..k - 1] && steps[..k + 1][1..] == steps[1..][..k];
      AfterNext(Next(s, steps[0]), steps[1..], k - 1);
    }
  }

  lemma AfterAll<C(!new)>(s: State<C>, steps: seq<Step<C>>)
    requires ValidRun(s, steps)
    ensures After(s, steps, |steps|) == Exec(s, steps) && After(s, steps, 0) == s
  {
    assert steps[..|steps|] == steps && steps[..0] == [];
  }

  // Events

  /** The caller asks for the device within the first `k` steps. */
  predicate Asks<C(==)>(steps: seq<Step<C>>, k: nat, c: C, d: string)
    requires k <= |steps|
  {
    exists i | 0 <= i < k :: steps[i] == Begin(c, d)
  }

  /** The step puts an agent of the device into the map: by a loader of the device that found it, or for another reason. */
  predicate Brings<C(==)>(steps: seq<Step<C>>, i: nat, d: string)
    requires i < |steps|
  {
    steps[i] == AgentAdded(d) || (steps[i].Publish? && steps[i].found && Asks(steps, i, steps[i].c, d))
  }

  predicate NotRemoved<C(==)>(steps: seq<Step<C>>, from: nat, k: nat, d: string)
    requires k <= |steps|
  {
    forall j | from <= j < k :: steps[j] != AgentRemoved(d)
  }

  /** The device is in memory after the first `k` steps: it was there or was brought, and was not removed since. */
  predicate InMemory<C(==)>(agents: set<string>, steps: seq<Step<C>>, k: nat, d: string)
    requires k <= |steps|
  {
    || (d in agents && NotRemoved(steps, 0, k, d))
    || exists i {:trigger Brings(steps, i, d)} | 0 <= i < k :: Brings(steps, i, d) && NotRemoved(steps, i + 1, k, d)
  }

  lemma InMemoryNext<C>(agents: set<string>, steps: seq<Step<C>>, k: nat, d: string)
    requires k < |steps|
    ensures InMemory(agents, steps, k + 1, d) <==>
            Brings(steps, k, d) || (InMemory(agents, steps, k, d) && steps[k] != AgentRemoved(d))
  {
    if Brings(steps, k, d) {
      assert NotRemoved(steps, k + 1, k + 1, d);
    }
    if InMemory(agents, steps, k + 1, d) && !Brings(steps, k, d) && !(d in agents && NotRemoved(steps, 0, k + 1, d)) {
      var i :| 0 <= i < k + 1 && Brings(steps, i, d) && NotRemoved(steps, i + 1, k + 1, d);
      assert NotRemoved(steps, i + 1, k, d) && steps[k] != AgentRemoved(d);
    }
    if InMemory(agents, steps, k, d) && steps[k] != AgentRemoved(d) && !(d in agents && NotRemoved(steps, 0, k, d)) {
      var i :| 0 <= i < k && Brings(steps, i, d) && NotRemoved(steps, i + 1, k, d);
      assert NotRemoved(steps, i + 1, k + 1, d);
    }
  }

  // The state in terms of events

  /** The callers are those that asked, each for one device, which its phase names until it returns. */
  ghost predicate CallersTracked<C(!new)>(s: State<C>, steps: seq<Step<C>>, k: nat)
    requires k <= |steps|
  {
    && (forall c, d {:trigger Asks(steps, k, c, d)} | Asks(steps, k, c, d) ::
          c in s.callers && (s.callers[c].Returned? || s.callers[c].device == d))
    && (forall c | c in s.callers && !s.callers[c].Returned? :: Asks(steps, k, c, s.callers[c].device))
  }

  lemma AsksNext<C>(steps: seq<Step<C>>, k: nat, c: C, d: string)
    requires k < |steps|
    ensures Asks(steps, k + 1, c, d) <==> Asks(steps, k, c, d) || steps[k] == Begin(c, d)
  {
  }

  lemma CallersNext<C(!new)>(s: State<C>, steps: seq<Step<C>>, k: nat)
    requires k < |steps| && CallersTracked(s, steps, k) && Enabled(s, steps[k])
    ensures CallersTracked(Next(s, steps[k]), steps, k + 1)
  {
    var s' := Next(s, steps[k]);
    forall c, d {:trigger Asks(steps, k + 1, c, d)} | Asks(steps, k + 1, c, d)
      ensures c in s'.callers && (s'.callers[c].Returned? || s'.callers[c].device == d)
    {
      AsksNext(steps, k, c, d);
    }
    forall c | c in s'.callers && !s'.callers[c].Returned? ensures Asks(steps, k + 1, c, s'.callers[c].device) {
      AsksNext(steps, k, c, s'.callers[c].device);
    }
  }

  lemma {:induction false} Tracked<C(!new)>(agents: set<string>, steps: seq<Step<C>>, k: nat)
    requires ValidRun(Init(agents), steps) && k <= |steps|
    ensures CallersTracked(After(Init(agents), steps, k), steps, k)
    decreases k
  {
    if k == 0 {
      AfterAll(Init<C>(agents), steps);
    } else {
      Tracked(agents, steps, k - 1);
      AfterNext(Init<C>(agents), steps, k - 1);
      CallersNext(After(Init<C>(agents), steps, k - 1), steps, k - 1);
    }
  }

  lemma AgentsNext<C(!new)>(s: State<C>, step: Step<C>, d: string)
    requires Enabled(s, step)
    ensures d in Next(s, step).agents <==>
            || step == AgentAdded(d) || (step.Publish? && step.found && s.callers[step.c].device == d)
            || (d in s.agents && step != AgentRemoved(d))
  {
  }

  /** The map of agents holds the devices that are in memory by the events. */
  lemma {:induction false} AgentsAre<C(!new)>(agents: set<string>, steps: seq<Step<C>>, k: nat, d: string)
    requires ValidRun(Init(agents), steps) && k <= |steps|
    ensures d in After(Init(agents), steps, k).agents <==> InMemory(agents, steps, k, d)
    decreases k
  {
    if k == 0 {
      AfterAll(Init<C>(agents), steps);
    } else {
      AgentsAre(agents, steps, k - 1, d);
      AfterNext(Init<C>(agents), steps, k - 1);
      Tracked(agents, steps, k - 1);
      AgentsNext(After(Init<C>(agents), steps, k - 1), steps[k - 1], d);
      InMemoryNext(agents, steps, k - 1, d);
    }
  }

  // What a caller is told

  /** Once a caller has returned, nothing changes what it was told. */
  lemma {:induction false} StaysReturned<C(!new)>(s: State<C>, steps: seq<Step<C>>, i: nat, k: nat, c: C)
    requires ValidRun(s, steps) && i <= k <= |steps|
    requires c in After(s, steps, i).callers && After(s, steps, i).callers[c].Returned?
    ensures c in After(s, steps, k).callers && After(s, steps, k).callers[c] == After(s, steps, i).callers[c]
    decreases k
  {
    if k > i {
      StaysReturned(s, steps, i, k - 1, c);
      AfterNext(s, steps, k - 1);
    }
  }

  /** The lookup at the end of a load tells the caller whether the device is in memory at that moment. */
  lemma CheckTells<C(!new)>(agents: set<string>, steps: seq<Step<C>>, i: nat, c: C, d: string)
    requires ValidRun(Init(agents), steps) && i < |steps| && steps[i] == Check(c) && Asks(steps, |steps|, c, d)
    ensures c in Exec(Init(agents), steps).callers
    ensures Exec(Init(agents), steps).callers[c] == Returned(InMemory(agents, steps, i, d))
  {
    var s := After(Init<C>(agents), steps, i);
    AfterNext(Init<C>(agents), steps, i);
    Tracked(agents, steps, i);
    AsksOnce(agents, steps, i, c, s.callers[c].device, d);
    AgentsAre(agents, steps, i, d);
    StaysReturned(Init<C>(agents), steps, i + 1, |steps|, c);
    AfterAll(Init<C>(agents), steps);
  }

  /** A caller asks for one device. */
  lemma {:induction false} AsksOnce<C(!new)>(agents: set<string>, steps: seq<Step<C>>, k: nat, c: C, d: string, e: string)
    requires ValidRun(Init(agents), steps) && k <= |steps| && Asks(steps, k, c, d) && Asks(steps, |steps|, c, e)
    ensures d == e
  {
    var i :| 0 <= i < |steps| && steps[i] == Begin(c, d);
    var j :| 0 <= j < |steps| && steps[j] == Begin(c, e);
    BeginsOnce(agents, steps, i, j, c);
  }

  lemma BeginsOnce<C(!new)>(agents: set<string>, steps: seq<Step<C>>, i: nat, j: nat, c: C)
    requires ValidRun(Init(agents), steps) && i < |steps| && j < |steps|
    requires steps[i].Begin? && steps[i].c == c && steps[j].Begin? && steps[j].c == c
    ensures i == j
  {
    if i != j {
      var a, b := if i < j then i else j, if i < j then j else i;
      Tracked(agents, steps, b);
      AfterNext(Init<C>(agents), steps, b);
      assert Asks(steps, b, c, steps[a].device);
    }
  }

  lemma ReturnsBy<C(!new)>(s: State<C>, step: Step<C>, c: C)
    requires Enabled(s, step) && c in Next(s, step).callers && Next(s, step).callers[c].Returned?
    requires !(c in s.callers && s.callers[c].Returned?)
    ensures step == Check(c) || (step == Begin(c, "") && Next(s, step).callers[c] == Returned(false))
  {
  }

  /** Whoever has returned asked for the empty id, or looked the device up. */
  lemma {:induction false} ReturnedChecked<C(!new)>(agents: set<string>, steps: seq<Step<C>>, k: nat, c: C)
    requires ValidRun(Init(agents), steps) && k <= |steps|
    requires c in After(Init(agents), steps, k).callers && After(Init(agents), steps, k).callers[c].Returned?
    ensures (exists i | 0 <= i < k :: steps[i] == Check(c))
            || (After(Init(agents), steps, k).callers[c] == Returned(false) && Asks(steps, k, c, ""))
    decreases k
  {
    if k == 0 {
      AfterAll(Init<C>(agents), steps);
    } else {
      AfterNext(Init<C>(agents), steps, k - 1);
      var s := After(Init<C>(agents), steps, k - 1);
      if c in s.callers && s.callers[c].Returned? {
        ReturnedChecked(agents, steps, k - 1, c);
        StaysReturned(Init<C>(agents), steps, k - 1, k, c);
        AsksNext(steps, k - 1, c, "");
      } else {
        ReturnsBy(s, steps[k - 1], c);
        AsksNext(steps, k - 1, c, "");
      }
    }
  }

  /**
   Over every run: a caller that asked for the empty id is refused; any other that has returned was told, when it looked the
   device up, whether the device was in memory at that moment.
   */
  lemma AnswerIff<C(!new)>(agents: set<string>, steps: seq<Step<C>>, c: C, d: string)
    requires ValidRun(Init(agents), steps) && Asks(steps, |steps|, c, d)
    requires c in Exec(Init(agents), steps).callers && Exec(Init(agents), steps).callers[c].Returned?
    ensures var found := Exec(Init(agents), steps).callers[c].found;
            || (d == "" && !found)
            || exists i | 0 <= i < |steps| :: steps[i] == Check(c) && (found <==> InMemory(agents, steps, i, d))
  {
    AfterAll(Init<C>(agents), steps);
    ReturnedChecked(agents, steps, |steps|, c);
    if i :| 0 <= i < |steps| && steps[i] == Check(c) {
      CheckTells(agents, steps, i, c, d);
    } else {
      AsksOnce(agents, steps, |steps|, c, "", d);
    }
  }

  /** A device that nothing brings is not found by anybody. */
  lemma NeverBrought<C(!new)>(agents: set<string>, steps: seq<Step<C>>, c: C, d: string)
    requires ValidRun(Init(agents), steps) && Asks(steps, |steps|, c, d)
    requires d !in agents && forall i | 0 <= i < |steps| :: !Brings(steps, i, d)
    ensures c in Exec(Init(agents), steps).callers && Exec(Init(agents), steps).callers[c] != Returned(true)
  {
    AfterAll(Init<C>(agents), steps);
    Tracked(agents, steps, |steps|);
    if Exec(Init(agents), steps).callers[c].Returned? {
      AnswerIff(agents, steps, c, d);
    }
  }

  // Loaders and waiters

  /** A loader that has published does not load again. */
  lemma {:induction false} LoadsOnce<C(!new)>(s: State<C>, steps: seq<Step<C>>, p: nat, k: nat, l: C)
    requires ValidRun(s, steps) && p < k <= |steps| && steps[p].Publish? && steps[p].c == l
    ensures l in After(s, steps, k).callers && !After(s, steps, k).callers[l].Loading?
    decreases k
  {
    AfterNext(s, steps, k - 1);
    if k - 1 > p {
      LoadsOnce(s, steps, p, k - 1, l);
    }
  }

  lemma PublishesOnce<C(!new)>(s: State<C>, steps: seq<Step<C>>, p: nat, q: nat, l: C)
    requires ValidRun(s, steps) && p < |steps| && q < |steps|
    requires steps[p].Publish? && steps[p].c == l && steps[q].Publish? && steps[q].c == l
    ensures p == q
  {
    AfterNext(s, steps, p);
    AfterNext(s, steps, q);
    if p < q {
      LoadsOnce(s, steps, p, q, l);
    } else if q < p {
      LoadsOnce(s, steps, q, p, l);
    }
  }

  /** A device that its loader has published and nobody removed is found. */
  lemma PublishedIsFound<C(!new)>(agents: set<string>, steps: seq<Step<C>>, p: nat, i: nat, l: C, c: C, d: string)
    requires ValidRun(Init(agents), steps) && p < i < |steps| && steps[p] == Publish(l, true) && Asks(steps, |steps|, l, d)
    requires steps[i] == Check(c) && Asks(steps, |steps|, c, d) && NotRemoved(steps, p + 1, i, d)
    ensures c in Exec(Init(agents), steps).callers && Exec(Init(agents), steps).callers[c] == Returned(true)
  {
    CheckTells(agents, steps, i, c, d);
    AfterNext(Init<C>(agents), steps, p);
    Tracked(agents, steps, p);
    AsksOnce(agents, steps, p, l, After(Init<C>(agents), steps, p).callers[l].device, d);
    assert Brings(steps, p, d);
  }

  /** A loader looks the device up after it has published. */
  lemma LoaderIsTold<C(!new)>(agents: set<string>, steps: seq<Step<C>>, p: nat, i: nat, l: C, d: string)
    requires ValidRun(Init(agents), steps) && p < |steps| && i < |steps| && Asks(steps, |steps|, l, d)
    requires steps[p] == Publish(l, true) && steps[i] == Check(l) && NotRemoved(steps, p + 1, i, d)
    ensures p < i
    ensures l in Exec(Init(agents), steps).callers && Exec(Init(agents), steps).callers[l] == Returned(true)
  {
    if i < p {
      AfterNext(Init<C>(agents), steps, i);
      StaysReturned(Init<C>(agents), steps, i + 1, p, l);
    }
    AfterNext(Init<C>(agents), steps, p);
    PublishedIsFound(agents, steps, p, i, l, l, d);
  }

  lemma InvAfter<C(!new)>(agents: set<string>, steps: seq<Step<C>>, k: nat)
    requires ValidRun(Init(agents), steps) && k <= |steps|
    ensures Inv(After(Init(agents), steps, k))
  {
    PrefixValid(Init<C>(agents), steps, k);
    RunKeepsInv(Init<C>(agents), steps[..k]);
  }

  /** A caller waits for a loader of the same device. */
  ghost predicate WaitsFor<C(!new)>(s: State<C>, steps: seq<Step<C>>, k: nat, c: C)
    requires k <= |steps|
  {
    c in s.callers && s.callers[c].Waiting? ==> Asks(steps, k, s.callers[c].loader, s.callers[c].device)
  }

  lemma {:induction false} WaitersAre<C(!new)>(agents: set<string>, steps: seq<Step<C>>, k: nat, c: C)
    requires ValidRun(Init(agents), steps) && k <= |steps|
    ensures WaitsFor(After(Init(agents), steps, k), steps, k, c)
    decreases k
  {
    if k == 0 {
      AfterAll(Init<C>(agents), steps);
    } else {
      WaitersAre(agents, steps, k - 1, c);
      Tracked(agents, steps, k - 1);
      InvAfter(agents, steps, k - 1);
      AfterNext(Init<C>(agents), steps, k - 1);
      WaiterNext(After(Init<C>(agents), steps, k - 1), steps, k - 1, c);
    }
  }

  lemma WaiterNext<C(!new)>(s: State<C>, steps: seq<Step<C>>, k: nat, c: C)
    requires k < |steps| && Enabled(s, steps[k]) && Inv(s) && CallersTracked(s, steps, k) && WaitsFor(s, steps, k, c)
    ensures WaitsFor(Next(s, steps[k]), steps, k + 1, c)
  {
    var s' := Next(s, steps[k]);
    if c in s'.callers && s'.callers[c].Waiting? {
      var d, l := s'.callers[c].device, s'.callers[c].loader;
      WaitingSince(s, steps[k], c);
      if steps[k] == Begin(c, d) {
        assert EntryOk(s, d);
      }
      AsksNext(steps, k, l, d);
    }
  }

  /** Whoever waits waited before, or has just asked for a device that somebody loads. */
  lemma WaitingSince<C(!new)>(s: State<C>, step: Step<C>, c: C)
    requires Enabled(s, step) && c in Next(s, step).callers && Next(s, step).callers[c].Waiting?
    ensures var w := Next(s, step).callers[c];
            || (c in s.callers && s.callers[c] == w)
            || (step == Begin(c, w.device) && w.device in s.inProgress
                && (s.inProgress[w.device] != [] ==> w.loader == s.inProgress[w.device][0]))
  {
  }

  lemma {:induction false} AttemptsAre<C(!new)>(agents: set<string>, steps: seq<Step<C>>, k: nat, l: C)
    requires ValidRun(Init(agents), steps) && k <= |steps| && l in After(Init(agents), steps, k).attempts
    ensures exists q | 0 <= q < k :: steps[q].Publish? && steps[q].c == l
    decreases k
  {
    if k == 0 {
      AfterAll(Init<C>(agents), steps);
    } else {
      AfterNext(Init<C>(agents), steps, k - 1);
      if l in After(Init<C>(agents), steps, k - 1).attempts {
        AttemptsAre(agents, steps, k - 1, l);
      }
    }
  }

  /** A caller that waits for a loader goes on waiting until the loader has published. */
  lemma {:induction false} WaitsUntilPublished<C(!new)>(agents: set<string>, steps: seq<Step<C>>, m: nat, k: nat, c: C)
    requires ValidRun(Init(agents), steps) && m <= k <= |steps|
    requires c in After(Init(agents), steps, m).callers && After(Init(agents), steps, m).callers[c].Waiting?
    ensures var w := After(Init(agents), steps, m).callers[c];
            || (c in After(Init(agents), steps, k).callers && After(Init(agents), steps, k).callers[c] == w)
            || exists q | 0 <= q < k :: steps[q].Publish? && steps[q].c == w.loader
    decreases k
  {
    if k > m {
      WaitsUntilPublished(agents, steps, m, k - 1, c);
      AfterNext(Init<C>(agents), steps, k - 1);
      var s, w := After(Init<C>(agents), steps, k - 1), After(Init<C>(agents), steps, m).callers[c];
      if c in s.callers && s.callers[c] == w && steps[k - 1] == Wake(c) {
        InvAfter(agents, steps, k - 1);
        assert CallerOk(s, c);
        AttemptsAre(agents, steps, k - 1, w.loader);
      }
    }
  }

  /** A waiter looks the device up after its loader has published, and is told of it. */
  lemma WaiterIsTold<C(!new)>(agents: set<string>, steps: seq<Step<C>>, m: nat, p: nat, i: nat, c: C, l: C, d: string)
    requires ValidRun(Init(agents), steps) && m <= |steps| && p < |steps| && i < |steps|
    requires c in After(Init(agents), steps, m).callers && After(Init(agents), steps, m).callers[c] == Waiting(d, l)
    requires steps[p] == Publish(l, true) && steps[i] == Check(c) && NotRemoved(steps, p + 1, i, d)
    ensures p < i
    ensures c in Exec(Init(agents), steps).callers && Exec(Init(agents), steps).callers[c] == Returned(true)
  {
    AfterNext(Init<C>(agents), steps, i);
    if i < m {
      StaysReturned(Init<C>(agents), steps, i + 1, m, c);
    }
    WaitsUntilPublished(agents, steps, m, i, c);
    var q :| 0 <= q < i && steps[q].Publish? && steps[q].c == l;
    PublishesOnce(Init<C>(agents), steps, p, q, l);
    WaitersAre(agents, steps, m, c);
    Tracked(agents, steps, m);
    PublishedIsFound(agents, steps, p, i, l, c, d);
  }

  // Who loads

  /** Somebody loads the device. */
  ghost predicate IsLoading<C(!new)>(s: State<C>, d: string) {
    exists l :: Loads(s, l, d)
  }

  /**
   Whoever asks waits if somebody loads the device; otherwise it loads the device itself if and only if it is not in memory.
   */
  lemma BeginIff<C(!new)>(agents: set<string>, steps: seq<Step<C>>, i: nat, c: C, d: string)
    requires ValidRun(Init(agents), steps) && i < |steps| && steps[i] == Begin(c, d) && d != ""
    ensures c in After(Init(agents), steps, i + 1).callers
    ensures var s, phase := After(Init(agents), steps, i), After(Init(agents), steps, i + 1).callers[c];
            if IsLoading(s, d) then phase.Waiting? && phase.device == d && Loads(s, phase.loader, d)
            else phase == if InMemory(agents, steps, i, d) then Checking(d) else Loading(d)
  {
    var s := After(Init<C>(agents), steps, i);
    AfterNext(Init<C>(agents), steps, i);
    AgentsAre(agents, steps, i, d);
    InvAfter(agents, steps, i);
    if d in s.inProgress {
      assert EntryOk(s, d);
    }
    if l :| Loads(s, l, d) {
      assert CallerOk(s, l);
    }
  }
}
