/**
 The request queue itself: requests linked in both directions, each holding the channel that its completion closes.
 Every method is one atomic section of the code (the part under the mutex, or a single channel or field access) and
 is proved to take exactly one step of `QueueSpec`, so everything proved there about every run holds of this class
 under every interleaving.
 */
module RequestQueues {
  import opened QueueSpec

  /** A channel that carries no value: it can only be closed, once. */
  class Channel {
    var closed: bool

    constructor (closed: bool)
      ensures this.closed == closed
    {
      this.closed := closed;
    }

    /** Closing a closed channel panics, hence the precondition. */
    method Close()
      requires !closed
      modifies this
      ensures closed
    {
      closed := true;
    }
  }

  /** A request, with the two locals of its goroutine: the channel it waits on and how far it has come. */
  class Request {
    var prev: Request?
    var next: Request?
    var notifyOnComplete: Channel
    const waitingOn: Channel
    var phase: Phase

    constructor (waitingOn: Channel, notifyOnComplete: Channel)
      ensures this.waitingOn == waitingOn && this.notifyOnComplete == notifyOnComplete
      ensures prev == null && next == null && phase == Waiting
    {
      this.waitingOn := waitingOn;
      this.notifyOnComplete := notifyOnComplete;
      prev, next, phase := null, null, Waiting;
    }
  }

  class RequestQueue {
    var last: Request?
    var current: Request?
    var lastCompleteCh: Channel

    ghost var live: seq<Request>    // the requests in the queue, oldest first
    ghost var spec: Queue<Request>  // the state of the step system that this queue stands for
    ghost var Repr: set<object>

    /** Around the live request at `i` the list is linked in both directions. */
    ghost predicate LinkedAt(i: nat)
      requires i < |live|
      reads this, Repr
    {
      && live[i] in Repr
      && (i > 0 ==> live[i].prev == live[i - 1])
      && live[i].next == if i + 1 < |live| then live[i + 1] else null
    }

    /**
     The live request at `i` will close an open channel.  The oldest request waits on a closed channel, every other
     one waits on exactly the channel that its predecessor will close.
     */
    ghost predicate ChainedAt(i: nat)
      requires i < |live|
      reads this, Repr
    {
      && live[i] in Repr && live[i].notifyOnComplete in Repr && live[i].waitingOn in Repr
      && !live[i].notifyOnComplete.closed
      && (i == 0 ==> live[0].waitingOn.closed)
      && (i > 0 ==> live[i - 1] in Repr && live[i].waitingOn == live[i - 1].notifyOnComplete)
    }

    /** Two live requests differ, and so do the channels they will close. */
    ghost predicate Apart(i: nat, j: nat)
      requires i < |live| && j < |live|
      reads this, Repr
    {
      && live[i] in Repr && live[j] in Repr
      && live[i] != live[j] && live[i].notifyOnComplete != live[j].notifyOnComplete
    }

    /** `spec` knows the request at `i` and its phase; only the oldest request is past its green light. */
    ghost predicate StandsAt(i: nat)
      requires i < |live|
      reads this, Repr
    {
      && live[i] in Repr && i < |spec.live|
      && spec.live[i] == Entry(live[i], live[i].phase)
      && (i > 0 ==> live[i].phase == Waiting || live[i].phase == Aborting)
    }

    ghost predicate Chain()
      reads this, Repr
    {
      && this in Repr && lastCompleteCh in Repr && (last != null ==> last in Repr)
      && (forall r | r in spec.arrived :: r in Repr)
      && (forall i | 0 <= i < |live| :: LinkedAt(i))
      && (forall i | 0 <= i < |live| :: ChainedAt(i))
      && (forall i, j | 0 <= i < j < |live| :: Apart(i, j))
      && (if live == [] then lastCompleteCh.closed
          else last == live[|live| - 1] && lastCompleteCh == last.notifyOnComplete)
    }

    ghost predicate Valid()
      reads this, Repr
    {
      && Chain()
      && |spec.live| == |live|
      && (forall i | 0 <= i < |live| :: StandsAt(i))
      && (InPhase(spec, 0, Holding) ==> current == live[0])
    }

    ghost function Index(r: Request): (k: nat)
      requires r in live
      reads this
      ensures k < |live| && live[k] == r
    {
      var k :| 0 <= k < |live| && live[k] == r; k
    }

    /** The green light of a request is on exactly when no older request is live: no wake-up is lost. */
    lemma OnlyTheOldestIsGreen(k: nat)
      requires Valid() && k < |live|
      ensures live[k].waitingOn.closed <==> k == 0
      ensures k > 0 ==> live[k].prev == live[k - 1]
    {
      assert LinkedAt(k) && ChainedAt(k);
      if k > 0 {
        assert ChainedAt(k - 1);
      }
    }

    constructor ()
      ensures Valid() && fresh(Repr)
      ensures spec == Empty()
    {
      var ch := new Channel(true);
      lastCompleteCh := ch;
      last, current := null, null;
      live, spec := [], Empty();
      Repr := {this, ch};
    }

    /** Joins the end of the queue (the first section under the mutex). */
    method Enqueue() returns (r: Request)
      requires Valid()
      modifies Repr
      ensures Valid() && fresh(Repr - old(Repr))
      ensures Enabled(old(spec), QueueSpec.Step.Enqueue(r))
      ensures spec == Next(old(spec), QueueSpec.Step.Enqueue(r))
    {
      var waitingOn := lastCompleteCh;
      var ch := new Channel(false);
      lastCompleteCh := ch;
      r := new Request(waitingOn, ch);
      if last != null {
        last.next, r.prev := r, last;
      }
      last := r;
      live := live + [r];
      spec := Next(spec, QueueSpec.Step.Enqueue(r));
      Repr := Repr + {r, ch};
      Grown(r);
    }

    /** What `Enqueue` writes extends the chain by one request. */
    twostate lemma Grown(new r: Request)
      requires old(Valid()) && fresh(r) && fresh(r.notifyOnComplete) && r.waitingOn == old(lastCompleteCh)
      requires Repr == old(Repr) + {r, r.notifyOnComplete} && live == old(live) + [r]
      requires last == r && r.prev == old(last) && r.next == null && r.phase == Waiting && current == old(current)
      requires lastCompleteCh == r.notifyOnComplete && !r.notifyOnComplete.closed
      requires forall c: Channel | c in old(Repr) :: c.closed == old(c.closed)
      requires forall x: Request | x in old(Repr) ::
                 && x.prev == old(x.prev) && x.notifyOnComplete == old(x.notifyOnComplete) && x.phase == old(x.phase)
                 && x.next == if x == old(last) then r else old(x.next)
      requires Enabled(old(spec), QueueSpec.Step.Enqueue(r)) && spec == Next(old(spec), QueueSpec.Step.Enqueue(r))
      ensures Valid()
    {
      var n := |old(live)|;
      forall i | 0 <= i < n ensures LinkedAt(i) && ChainedAt(i) && StandsAt(i) && Apart(i, n) {
        assert old(LinkedAt(i)) && old(ChainedAt(i)) && old(StandsAt(i));
        assert i < n - 1 ==> old(Apart(i, n - 1));
      }
      assert n > 0 ==> old(ChainedAt(n - 1));
      assert LinkedAt(n) && ChainedAt(n) && StandsAt(n);
      forall i, j | 0 <= i < j < n ensures Apart(i, j) {
        assert old(Apart(i, j));
      }
    }

    /** The select takes the green light: possible only for the oldest request. */
    method SeeGreen(r: Request)
      requires Valid() && r in live && r.phase == Waiting
      requires r.waitingOn.closed
      modifies Repr
      ensures Valid() && Repr == old(Repr)
      ensures Enabled(old(spec), QueueSpec.Step.SeeGreen(0)) && r == old(live[0])
      ensures spec == Next(old(spec), QueueSpec.Step.SeeGreen(0))
    {
      OnlyTheOldestIsGreen(Index(r));
      assert StandsAt(0);
      r.phase := GreenSeen;
      spec := Next(spec, QueueSpec.Step.SeeGreen(0));
      PhaseOnly(0);
    }

    /** The select takes the cancelled context; nothing shared changes yet. */
    method SeeDone(r: Request)
      requires Valid() && r in live && r.phase == Waiting
      modifies Repr
      ensures Valid() && Repr == old(Repr)
      ensures Enabled(old(spec), QueueSpec.Step.SeeDone(old(Index(r))))
      ensures spec == Next(old(spec), QueueSpec.Step.SeeDone(old(Index(r))))
    {
      ghost var k := Index(r);
      assert StandsAt(k);
      r.phase := Aborting;
      spec := Next(spec, QueueSpec.Step.SeeDone(k));
      PhaseOnly(k);
    }

    /** Writes `current`, outside the mutex, and returns nil. */
    method Acquire(r: Request)
      requires Valid() && r in live && r.phase == GreenSeen
      modifies Repr
      ensures Valid() && Repr == old(Repr) && current == r
      ensures Enabled(old(spec), QueueSpec.Step.Acquire(0)) && r == old(live[0])
      ensures spec == Next(old(spec), QueueSpec.Step.Acquire(0))
    {
      assert StandsAt(Index(r));
      current := r;
      r.phase := Holding;
      spec := Next(spec, QueueSpec.Step.Acquire(0));
      PhaseOnly(0);
    }

    /** The cleanup of a cancelled wait (the second section under the mutex). */
    method Abort(r: Request)
      requires Valid() && r in live && r.phase == Aborting
      modifies Repr
      ensures Valid() && Repr == old(Repr)
      ensures Enabled(old(spec), QueueSpec.Step.Abort(old(Index(r))))
      ensures spec == Next(old(spec), QueueSpec.Step.Abort(old(Index(r))))
    {
      ghost var k := Index(r);
      OnlyTheOldestIsGreen(k);
      assert LinkedAt(k) && ChainedAt(k) && StandsAt(k);
      assert k + 1 < |live| ==> LinkedAt(k + 1);
      if r.waitingOn.closed {
        current := r;
        ReleaseWithoutLock();
        spec := Next(spec, QueueSpec.Step.Abort(k));
        Released();
      } else {
        SkipPosition(r, k);
      }
    }

    /** Gives up a position in the middle or at the end of the queue. */
    method SkipPosition(r: Request, ghost k: nat)
      requires Valid() && 0 < k < |live| && live[k] == r && r in Repr && r.phase == Aborting && r.prev == live[k - 1]
      requires Enabled(spec, QueueSpec.Step.Abort(k))
      modifies Repr
      ensures Valid() && Repr == old(Repr)
      ensures spec == Next(old(spec), QueueSpec.Step.Abort(k))
    {
      assert LinkedAt(k) && LinkedAt(k - 1) && StandsAt(0) && Apart(k - 1, k);
      assert k + 1 < |live| ==> LinkedAt(k + 1);
      r.prev.notifyOnComplete := r.notifyOnComplete;
      if r.next != null {
        r.prev.next := r.next;
        r.next.prev := r.prev;
      } else {
        last := r.prev;
        r.prev.next := null;
      }
      live := RemoveAt(live, k);
      spec := Next(spec, QueueSpec.Step.Abort(k));
      Skipped(k);
    }

    /** What a cancelled wait writes leaves a valid queue with one request less. */
    twostate lemma Skipped(k: nat)
      requires old(Valid()) && 0 < k < |old(live)| && Repr == old(Repr) && live == RemoveAt(old(live), k)
      requires current == old(current) && lastCompleteCh == old(lastCompleteCh)
      requires var was := old(live);
               last == if k + 1 < |was| then old(last) else was[k - 1]
      requires forall c: Channel | c in Repr :: c.closed == old(c.closed)
      requires var was := old(live);
               forall x: Request | x in Repr ::
                 && x.phase == old(x.phase)
                 && x.prev == (if k + 1 < |was| && x == was[k + 1] then was[k - 1] else old(x.prev))
                 && x.next == (if x != was[k - 1] then old(x.next) else if k + 1 < |was| then was[k + 1] else null)
                 && x.notifyOnComplete == (if x == was[k - 1] then old(live[k].notifyOnComplete) else old(x.notifyOnComplete))
      requires Enabled(old(spec), QueueSpec.Step.Abort(k)) && spec == Next(old(spec), QueueSpec.Step.Abort(k))
      ensures Valid()
    {
      assert old(LinkedAt(k - 1)) && old(StandsAt(0));
      SkippedLinks(k);
      SkippedChannels(k);
      forall i | 0 <= i < |live| ensures StandsAt(i) {
        var m := if i < k then i else i + 1;
        assert old(StandsAt(m)) && live[i] == old(live)[m];
      }
    }

    /** The gap at `k` is closed in the list: the neighbours of the cancelled request become neighbours. */
    twostate lemma SkippedLinks(k: nat)
      requires old(Valid()) && 0 < k < |old(live)| && Repr == old(Repr) && live == RemoveAt(old(live), k)
      requires var was := old(live);
               forall x: Request | x in Repr ::
                 && x.prev == (if k + 1 < |was| && x == was[k + 1] then was[k - 1] else old(x.prev))
                 && x.next == (if x != was[k - 1] then old(x.next) else if k + 1 < |was| then was[k + 1] else null)
      ensures forall i | 0 <= i < |live| :: LinkedAt(i)
    {
      var was := old(live);
      assert old(LinkedAt(k)) && old(LinkedAt(k - 1));
      forall i | 0 <= i < |live| ensures LinkedAt(i) {
        var m := if i < k then i else i + 1;
        assert old(LinkedAt(m));
        assert m < k - 1 ==> old(Apart(m, k - 1));
        assert m > k ==> old(Apart(k - 1, m));
        assert k + 1 < |was| && m < k ==> old(Apart(m, k + 1));
        assert k + 1 < m ==> old(Apart(k + 1, m));
      }
    }

    /** The gap at `k` is closed in the chain: the successor waits on the channel the predecessor will now close. */
    twostate lemma SkippedChannels(k: nat)
      requires old(Valid()) && 0 < k < |old(live)| && Repr == old(Repr) && live == RemoveAt(old(live), k)
      requires forall c: Channel | c in Repr :: c.closed == old(c.closed)
      requires var was := old(live);
               forall x: Request | x in Repr ::
                 x.notifyOnComplete == if x == was[k - 1] then old(live[k].notifyOnComplete) else old(x.notifyOnComplete)
      ensures forall i | 0 <= i < |live| :: ChainedAt(i)
      ensures forall i, j | 0 <= i < j < |live| :: Apart(i, j)
      ensures k < |old(live)| - 1 ==> live[|live| - 1].notifyOnComplete == old(live[|live| - 1].notifyOnComplete)
      ensures k == |old(live)| - 1 ==> live[|live| - 1].notifyOnComplete == old(live[k].notifyOnComplete)
    {
      assert old(ChainedAt(k)) && old(ChainedAt(k - 1));
      assert k < |old(live)| - 1 ==> old(Apart(k - 1, |live| - 1));
      forall i | 0 <= i < |live| ensures ChainedAt(i) {
        var m := if i < k then i else i + 1;
        assert old(ChainedAt(m));
        assert m < k - 1 ==> old(Apart(m, k - 1));
        assert 0 < m < k ==> old(Apart(m - 1, k - 1));
        assert m > k ==> old(Apart(k - 1, m));
        assert k + 1 < m ==> old(ChainedAt(m - 1)) && old(Apart(k - 1, m - 1));
      }
      forall i, j | 0 <= i < j < |live| ensures Apart(i, j) {
        var m, n := if i < k then i else i + 1, if j < k then j else j + 1;
        assert old(Apart(m, n));
        assert m < k ==> old(Apart(m, k));
        assert n > k ==> old(Apart(k, n)) && old(Apart(k - 1, n));
        assert m > k ==> old(Apart(k - 1, m));
        assert m < k - 1 ==> old(Apart(m, k - 1));
        assert n < k - 1 ==> old(Apart(n, k - 1));
      }
    }

    /** Called by the request that holds the lock, as its callers promise. */
    method RequestComplete()
      requires Valid() && InPhase(spec, 0, Holding)
      modifies Repr
      ensures Valid() && Repr == old(Repr)
      ensures spec == Next(old(spec), QueueSpec.Step.Complete(0))
    {
      assert LinkedAt(0) && ChainedAt(0) && StandsAt(0);
      assert 1 < |live| ==> LinkedAt(1);
      ReleaseWithoutLock();
      spec := Next(spec, QueueSpec.Step.Complete(0));
      Released();
    }

    /** Closes the channel of the current request, which wakes the next one. */
    method ReleaseWithoutLock()
      requires this in Repr && live != [] && current != null && current in Repr && current.notifyOnComplete in Repr
      requires !current.notifyOnComplete.closed && (current.next != null ==> current.next in Repr)
      modifies Repr
      ensures Repr == old(Repr) && live == old(live)[1..] && spec == old(spec) && current == old(current)
      ensures last == old(last) && lastCompleteCh == old(lastCompleteCh)
      ensures forall c: Channel | c in Repr :: c.closed == (old(c.closed) || c == old(current.notifyOnComplete))
      ensures forall x: Request | x in Repr ::
                && x.next == old(x.next) && x.notifyOnComplete == old(x.notifyOnComplete) && x.phase == old(x.phase)
                && x.prev == if x == old(current.next) then null else old(x.prev)
    {
      current.notifyOnComplete.Close();
      if current.next != null {
        current.next.prev := null;
      }
      live := live[1..];
    }

    /** After a release the next request is the oldest one and its green light is on. */
    twostate lemma Released()
      requires old(Valid()) && old(live) != [] && Repr == old(Repr) && live == old(live)[1..]
      requires last == old(last) && lastCompleteCh == old(lastCompleteCh)
      requires old(live)[0] in Repr && spec.arrived == old(spec.arrived) && spec.live == old(spec.live)[1..]
      requires forall c: Channel | c in Repr :: c.closed == (old(c.closed) || c == old(live[0].notifyOnComplete))
      requires forall x: Request | x in Repr ::
                 && x.next == old(x.next) && x.notifyOnComplete == old(x.notifyOnComplete) && x.phase == old(x.phase)
                 && x.prev == if x == old(live[0].next) then null else old(x.prev)
      ensures Valid()
    {
      assert old(LinkedAt(0)) && old(ChainedAt(0));
      assert live != [] ==> old(StandsAt(1));
      forall i | 0 <= i < |live| ensures LinkedAt(i) && ChainedAt(i) && StandsAt(i) {
        assert old(LinkedAt(i + 1)) && old(ChainedAt(i + 1)) && old(StandsAt(i + 1)) && old(Apart(0, i + 1));
        assert i > 0 ==> old(Apart(1, i + 1)) && old(Apart(0, i));
      }
      forall i, j | 0 <= i < j < |live| ensures Apart(i, j) {
        assert old(Apart(i + 1, j + 1));
      }
    }

    /** The chain survives a change of one request's phase. */
    twostate lemma PhaseOnly(k: nat)
      requires old(Valid()) && Repr == old(Repr) && live == old(live) && k < |live|
      requires last == old(last) && lastCompleteCh == old(lastCompleteCh) && spec.arrived == old(spec.arrived)
      requires forall c: Channel | c in Repr :: c.closed == old(c.closed)
      requires forall r: Request | r in Repr ::
                 && r.prev == old(r.prev) && r.next == old(r.next) && r.notifyOnComplete == old(r.notifyOnComplete)
                 && (r != live[k] ==> r.phase == old(r.phase))
      requires live[k] in Repr && (k > 0 ==> live[k].phase == Aborting)
      requires spec.live == old(spec.live)[k := Entry(live[k], live[k].phase)]
      ensures Chain()
      ensures forall i | 0 <= i < |live| :: StandsAt(i)
    {
      forall i | 0 <= i < |live| ensures LinkedAt(i) && ChainedAt(i) && StandsAt(i) {
        assert old(LinkedAt(i)) && old(ChainedAt(i)) && old(StandsAt(i));
        if i < k { assert old(Apart(i, k)); }
        if i > k { assert old(Apart(k, i)); }
      }
      forall i, j | 0 <= i < j < |live| ensures Apart(i, j) {
        assert old(Apart(i, j));
      }
    }
  }
}
