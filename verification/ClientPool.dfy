/** The pool of client ids shared by price loads (data/loader.py): eight ids, a lock and a condition.

    A step is what one thread does while it holds the lock. Waiting threads are woken by a release or,
    at any moment, by their timeout. */
module ClientPool {
  import opened Foundations

  type Thread = nat

  const FIRST: int := 2001
  const LAST: int := 2008

  function Ids(): set<int> { {2001, 2002, 2003, 2004, 2005, 2006, 2007, 2008} }

  /** Threads trying for an id, threads asleep, the ids held and by whom, the holders that are connected,
      and the loads that go on from the cache without an id; and how many ids were ever taken and given back. */
  datatype Pool = Pool(
    active: set<int>, trying: set<Thread>, asleep: set<Thread>,
    holding: map<Thread, int>, connected: set<Thread>, cached: set<Thread>,
    taken: nat, returned: nat)

  const Fresh: Pool := Pool({}, {}, {}, map[], {}, {}, 0, 0)

  datatype Event =
    | Begin(t: Thread)
    | Try(t: Thread)
    | TimeOut(t: Thread)
    | Connected(t: Thread)
    | ConnectFailed(t: Thread, woken: Option<Thread>)   // gives the id back and goes on from the cache
    | Finish(t: Thread, woken: Option<Thread>)          // the end of a load, by return or by exception

  predicate Busy(p: Pool, t: Thread) {
    t in p.trying || t in p.asleep || t in p.holding || t in p.cached
  }

  /** The condition wakes one sleeper if there is one. */
  predicate Wakes(p: Pool, woken: Option<Thread>) {
    if p.asleep == {} then woken == None else woken.Some? && woken.value in p.asleep
  }

  predicate Enabled(p: Pool, ev: Event) {
    match ev
    case Begin(t) => !Busy(p, t)
    case Try(t) => t in p.trying
    case TimeOut(t) => t in p.asleep
    case Connected(t) => t in p.holding && t !in p.connected
    case ConnectFailed(t, woken) => t in p.holding && t !in p.connected && Wakes(p, woken)
    case Finish(t, woken) =>
      if t in p.connected then t in p.holding && Wakes(p, woken) else (t in p.cached && woken == None)
  }

  /** The first id of the pool that is not in use. */
  function FirstFree(active: set<int>, from: int): (r: Option<int>)
    requires FIRST <= from <= LAST + 1
    ensures r.Some? ==> from <= r.value <= LAST && r.value !in active
    ensures r.Some? ==> forall i :: from <= i < r.value ==> i in active
    ensures r.None? ==> forall i :: from <= i <= LAST ==> i in active
    decreases LAST + 1 - from
  {
    if from > LAST then None else if from !in active then Some(from) else FirstFree(active, from + 1)
  }

  function GiveBack(p: Pool, t: Thread, woken: Option<Thread>): Pool
    requires t in p.holding
  {
    var w := if woken.Some? then {woken.value} else {};
    p.(active := p.active - {p.holding[t]}, holding := p.holding - {t}, connected := p.connected - {t},
       asleep := p.asleep - w, trying := p.trying + w, returned := p.returned + 1)
  }

  /** One pass over the ids: the first free one is taken, or the thread goes to sleep. */
  function Tried(p: Pool, t: Thread): Pool {
    var free := FirstFree(p.active, FIRST);
    if free.None? then p.(trying := p.trying - {t}, asleep := p.asleep + {t})
    else p.(trying := p.trying - {t}, active := p.active + {free.value}, holding := p.holding[t := free.value],
            taken := p.taken + 1)
  }

  function Step(p: Pool, ev: Event): Pool
    requires Enabled(p, ev)
  {
    match ev
    case Begin(t) => p.(trying := p.trying + {t})
    case Try(t) => Tried(p, t)
    case TimeOut(t) => p.(asleep := p.asleep - {t}, trying := p.trying + {t})
    case Connected(t) => p.(connected := p.connected + {t})
    case ConnectFailed(t, woken) => var g := GiveBack(p, t, woken); g.(cached := g.cached + {t})
    case Finish(t, woken) => if t in p.connected then GiveBack(p, t, woken) else p.(cached := p.cached - {t})
  }

  ghost predicate Possible(p: Pool, evs: seq<Event>)
    decreases |evs|
  {
    |evs| == 0 || (Enabled(p, evs[0]) && Possible(Step(p, evs[0]), evs[1..]))
  }

  function Run(p: Pool, evs: seq<Event>): Pool
    requires Possible(p, evs)
    decreases |evs|
  {
    if |evs| == 0 then p else Run(Step(p, evs[0]), evs[1..])
  }

  // ---- What every step keeps ----

  /** A thread is in one place at a time. */
  ghost predicate Apart(p: Pool) {
    && p.trying !! p.asleep && p.trying !! p.holding.Keys && p.trying !! p.cached
    && p.asleep !! p.holding.Keys && p.asleep !! p.cached && p.holding.Keys !! p.cached
    && p.connected <= p.holding.Keys
  }

  /** No id is held twice, and the ids in use are those held. */
  ghost predicate Exclusive(p: Pool) {
    && (forall t, u :: t in p.holding && u in p.holding && p.holding[t] == p.holding[u] ==> t == u)
    && (forall t :: t in p.holding ==> p.holding[t] in p.active)
    && (forall i :: i in p.active ==> FIRST <= i <= LAST && exists t :: t in p.holding && p.holding[t] == i)
  }

  /** Every id taken was given back once or is still held. */
  ghost predicate Counted(p: Pool) {
    |p.active| == |p.holding| && p.taken == p.returned + |p.holding| && p.active <= Ids()
  }

  /** Ids not in use. */
  function Free(p: Pool): set<int> { Ids() - p.active }

  /** Whoever sleeps while ids are free can count on as many threads awake to take them. */
  ghost predicate NobodyForgotten(p: Pool) {
    p.asleep != {} ==> |Free(p)| <= |p.trying|
  }

  ghost predicate Inv(p: Pool) { Apart(p) && Exclusive(p) && Counted(p) && NobodyForgotten(p) }

  lemma StepKeepsApart(p: Pool, ev: Event)
    requires Enabled(p, ev) && Apart(p)
    ensures Apart(Step(p, ev))
  {}

  lemma StepKeepsExclusive(p: Pool, ev: Event)
    requires Enabled(p, ev) && Apart(p) && Exclusive(p)
    ensures Exclusive(Step(p, ev))
  {
    var r := Step(p, ev);
    match ev {
      case Try(t) =>
        var free := FirstFree(p.active, FIRST);
        if free.Some? {
          assert r.holding[t] == free.value;
          forall i | i in r.active ensures exists u :: u in r.holding && r.holding[u] == i {
            if i != free.value {
              var u :| u in p.holding && p.holding[u] == i;
              assert r.holding[u] == i;
            }
          }
        }
      case ConnectFailed(t, woken) => GiveBackKeepsExclusive(p, t, woken);
      case Finish(t, woken) => if t in p.connected { GiveBackKeepsExclusive(p, t, woken); }
      case _ =>
    }
  }

  lemma GiveBackKeepsExclusive(p: Pool, t: Thread, woken: Option<Thread>)
    requires t in p.holding && Exclusive(p)
    ensures Exclusive(GiveBack(p, t, woken))
  {
    var r := GiveBack(p, t, woken);
    forall i | i in r.active ensures exists u :: u in r.holding && r.holding[u] == i {
      var u :| u in p.holding && p.holding[u] == i;
      assert u != t && r.holding[u] == i;
    }
  }

  lemma GiveBackCounts(p: Pool, t: Thread, woken: Option<Thread>)
    requires t in p.holding && Exclusive(p) && Counted(p) && Apart(p) && Wakes(p, woken) && NobodyForgotten(p)
    ensures var r := GiveBack(p, t, woken); Counted(r) && NobodyForgotten(r)
  {
    hide Ids;
    var r, i := GiveBack(p, t, woken), p.holding[t];
    assert r.holding.Keys == p.holding.Keys - {t};
    assert i in p.active;
    assert |r.active| == |p.active| - 1;
    assert Free(r) == Free(p) + {i};
    if woken.Some? { assert r.trying == p.trying + {woken.value}; }
  }

  lemma StepCounts(p: Pool, ev: Event)
    requires Enabled(p, ev) && Inv(p)
    ensures Counted(Step(p, ev)) && NobodyForgotten(Step(p, ev))
  {
    match ev {
      case Begin(t) =>
      case Try(t) => TryCounts(p, t);
      case TimeOut(t) =>
      case Connected(t) =>
      case ConnectFailed(t, woken) => GiveBackCounts(p, t, woken);
      case Finish(t, woken) => if t in p.connected { GiveBackCounts(p, t, woken); }
    }
  }

  lemma TryCounts(p: Pool, t: Thread)
    requires t in p.trying && Apart(p) && Counted(p) && NobodyForgotten(p)
    ensures Counted(Tried(p, t)) && NobodyForgotten(Tried(p, t))
  {
    hide Ids, FirstFree;
    assert t !in p.holding;
    FreeOrFull(p.active);
    TriesLess(p, t);
    var free := FirstFree(p.active, FIRST);
    if free.Some? { TakeCounts(p, t, free.value); }
  }

  lemma TriesLess(p: Pool, t: Thread)
    requires t in p.trying
    ensures |p.trying - {t}| == |p.trying| - 1
  {}

  lemma FreeOrFull(active: set<int>)
    ensures var free := FirstFree(active, FIRST);
            if free.Some? then free.value in Ids() && free.value !in active else Ids() - active == {}
  {
    hide Ids;
    IdsAreEight();
  }

  lemma TakeCounts(p: Pool, t: Thread, i: int)
    requires t !in p.holding && i in Ids() && i !in p.active
    ensures |p.active + {i}| == |p.active| + 1 && |p.holding[t := i]| == |p.holding| + 1
    ensures |Ids() - (p.active + {i})| == |Free(p)| - 1
  {
    hide Ids;
    assert p.holding[t := i].Keys == p.holding.Keys + {t};
    assert Free(p) == (Ids() - (p.active + {i})) + {i};
  }

  lemma StepKeepsInv(p: Pool, ev: Event)
    requires Enabled(p, ev) && Inv(p)
    ensures Inv(Step(p, ev))
  {
    hide Step, Apart, Exclusive, Counted, NobodyForgotten;
    StepKeepsApart(p, ev);
    StepKeepsExclusive(p, ev);
    StepCounts(p, ev);
  }

  lemma {:induction false} RunKeepsInv(p: Pool, evs: seq<Event>)
    requires Possible(p, evs) && Inv(p)
    ensures Inv(Run(p, evs))
    decreases |evs|
  {
    if |evs| > 0 {
      hide Inv, Step;
      StepKeepsInv(p, evs[0]);
      RunKeepsInv(Step(p, evs[0]), evs[1..]);
    }
  }

  lemma IdsAreEight()
    ensures |Ids()| == 8 && forall i :: i in Ids() <==> FIRST <= i <= LAST
  {}

  /** Over every interleaving of loads: no two threads hold the same id, at most eight are held, every id
      taken is given back exactly once or still held, a try goes to sleep exactly when all eight are
      held, and no wake-up is lost. */
  lemma LoadsShareThePool(evs: seq<Event>, t: Thread, u: Thread)
    requires Possible(Fresh, evs)
    ensures var p := Run(Fresh, evs);
            && (t in p.holding && u in p.holding && t != u ==> p.holding[t] != p.holding[u])
            && |p.holding| <= 8 && p.taken == p.returned + |p.holding|
            && (t in p.trying ==> (t in Step(p, Try(t)).asleep <==> |p.holding| == 8))
            && (p.asleep != {} && |p.holding| < 8 ==> p.trying != {})
  {
    hide Ids, Step, Apart, NobodyForgotten;
    assert Inv(Fresh) by { FreshIsInv(); }
    RunKeepsInv(Fresh, evs);
    var p := Run(Fresh, evs);
    IdsAreEight();
    SubsetSize(p.active, Ids());
    if t in p.trying { SleepsOnlyWhenAllHeld(p, t); }
    if p.asleep != {} && p.trying == {} { ForgottenMeans(p); }
  }

  /** In every interleaving: a try takes the lowest id nobody holds; a load whose connection fails goes on from
      the cache, and it and a load that ends hold no id any more, the one they held is free again, and nobody
      else's is. */
  lemma LoadsLetGo(evs: seq<Event>, t: Thread, woken: Option<Thread>)
    requires Possible(Fresh, evs)
    ensures var p := Run(Fresh, evs);
            && (t in p.trying && |p.holding| < 8 ==>
                  var r := Step(p, Try(t));
                  && t in r.holding && r.holding == p.holding[t := r.holding[t]] && 2001 <= r.holding[t] <= 2008
                  && r.holding[t] !in p.holding.Values
                  && (forall i :: 2001 <= i < r.holding[t] ==> i in p.holding.Values))
            && (Enabled(p, ConnectFailed(t, woken)) ==>
                  var r := Step(p, ConnectFailed(t, woken));
                  && r.holding == p.holding - {t} && p.holding[t] !in r.holding.Values && t in r.cached)
            && (Enabled(p, Finish(t, woken)) ==>
                  var r := Step(p, Finish(t, woken));
                  && !Busy(r, t) && r.holding == p.holding - {t}
                  && (t in p.holding ==> p.holding[t] !in r.holding.Values))
  {
    hide Ids, NobodyForgotten, Apart;
    assert Inv(Fresh) by { FreshIsInv(); }
    RunKeepsInv(Fresh, evs);
    var p := Run(Fresh, evs);
    if t in p.trying && |p.holding| < 8 { LowestIsTaken(p, t); }
    if Enabled(p, ConnectFailed(t, woken)) { GivenBack(p, t, woken); }
    if Enabled(p, Finish(t, woken)) { LoadIsOver(p, t, woken); }
  }

  lemma LowestIsTaken(p: Pool, t: Thread)
    requires t in p.trying && Exclusive(p) && Counted(p) && |p.holding| < 8
    ensures var r := Step(p, Try(t));
            && t in r.holding && r.holding == p.holding[t := r.holding[t]] && 2001 <= r.holding[t] <= 2008
            && r.holding[t] !in p.holding.Values
            && (forall i :: 2001 <= i < r.holding[t] ==> i in p.holding.Values)
  {
    hide Ids;
    FreeOrFull(p.active);
    IdsAreEight();
    SubsetSize(p.active, Ids());
    HeldAreActive(p);
    assert Ids() - p.active != {};
  }

  lemma HeldAreActive(p: Pool)
    requires Exclusive(p)
    ensures p.holding.Values == p.active
  {
    forall i | i in p.active ensures i in p.holding.Values {
      var u :| u in p.holding && p.holding[u] == i;
    }
  }

  lemma GivenBack(p: Pool, t: Thread, woken: Option<Thread>)
    requires t in p.holding && Exclusive(p)
    ensures p.holding[t] !in (p.holding - {t}).Values
  {}

  lemma LoadIsOver(p: Pool, t: Thread, woken: Option<Thread>)
    requires Enabled(p, Finish(t, woken)) && Apart(p) && Exclusive(p)
    ensures var r := Step(p, Finish(t, woken));
            && !Busy(r, t) && r.holding == p.holding - {t}
            && (t in p.holding ==> p.holding[t] !in r.holding.Values)
  {
    if t in p.holding { GivenBack(p, t, woken); }
  }

  lemma FreshIsInv()
    ensures Inv(Fresh)
  {}

  lemma SleepsOnlyWhenAllHeld(p: Pool, t: Thread)
    requires t in p.trying && Apart(p) && p.active <= Ids()
    ensures t in Step(p, Try(t)).asleep <==> |p.active| == 8
  {
    hide Ids;
    IdsAreEight();
    SubsetSize(p.active, Ids());
    var free := FirstFree(p.active, FIRST);
    if free.None? { assert Ids() == p.active; } else { assert free.value in Free(p); }
  }

  lemma ForgottenMeans(p: Pool)
    requires NobodyForgotten(p) && p.asleep != {} && p.trying == {}
    ensures |Free(p)| == 0
  {}

  lemma SubsetSize(a: set<int>, b: set<int>)
    requires a <= b
    ensures |a| <= |b| && |b - a| == |b| - |a|
  {
    assert b == a + (b - a);
  }

  // ---- The pool itself ----

  /** `_active_data_client_ids` with its lock and condition; threads asleep on the condition and threads
      on their way to a try are kept for the record. */
  class ClientIds {
    var active: set<int>
    ghost var asleep: set<Thread>
    ghost var trying: set<Thread>

    constructor ()
      ensures active == {} && asleep == {} && trying == {}
    {
      active := {};
      asleep, trying := {}, {};
    }

    /** One pass over the pool under the lock; with none free the thread waits on the condition. */
    method TryNextClientId(ghost t: Thread) returns (cid: Option<int>)
      modifies this
      ensures cid == FirstFree(old(active), FIRST)
      ensures active == (if cid.Some? then old(active) + {cid.value} else old(active))
      ensures trying == old(trying) - {t}
      ensures asleep == if cid.None? then old(asleep) + {t} else old(asleep)
    {
      trying := trying - {t};
      var i := FIRST;
      while i <= LAST
        invariant FIRST <= i <= LAST + 1
        invariant active == old(active) && trying == old(trying) - {t} && asleep == old(asleep)
        invariant FirstFree(active, FIRST) == FirstFree(active, i)
      {
        if i !in active {
          active := active + {i};
          return Some(i);
        }
        i := i + 1;
      }
      asleep := asleep + {t};
      return None;
    }

    /** Giving back an id wakes one sleeper, if there is one; giving back one not in use frees nothing and
        still wakes. */
    method ReleaseClientId(cid: int) returns (ghost woken: Option<Thread>)
      modifies this
      ensures active == old(active) - {cid}
      ensures if old(asleep) == {} then woken == None else woken.Some? && woken.value in old(asleep)
      ensures asleep == (if woken.Some? then old(asleep) - {woken.value} else old(asleep))
      ensures trying == if woken.Some? then old(trying) + {woken.value} else old(trying)
    {
      active := active - {cid};
      woken := Notify();
    }

    /** The condition's notify. */
    ghost method Notify() returns (woken: Option<Thread>)
      modifies this`asleep, this`trying
      ensures if old(asleep) == {} then woken == None else woken.Some? && woken.value in old(asleep)
      ensures asleep == (if woken.Some? then old(asleep) - {woken.value} else old(asleep))
      ensures trying == if woken.Some? then old(trying) + {woken.value} else old(trying)
    {
      if asleep == {} { return None; }
      var t :| t in asleep;
      asleep, trying := asleep - {t}, trying + {t};
      return Some(t);
    }
  }
}
