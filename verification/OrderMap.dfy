/** Order submission with crash recovery in IBKRExecutionEngine (execution/ibkr_engine.py).

    A submission is a sequence of steps over memory, the order-map file and the broker; a crash can
    fall between any two of them, after which only the file and the broker are left. Saving the map is
    one step, because the file is replaced atomically. Map writes are taken to succeed, and a
    placement either places the order or raises. */
module OrderMap {
  type Id = string

  /** Where the single submitting thread is. */
  datatype Pc =
    | Idle
    | Connecting(id: Id)                          // past the idempotency guard
    | Placing(id: Id, attempt: nat)               // about to call placeOrder
    | Placed(id: Id)                              // the broker has the order, nothing noted yet
    | Noted(id: Id)                               // in the order map and, as permId 0, in the persisted map
    | Polling(id: Id)                             // saved; waiting for a permId
    | Confirmed(id: Id)                           // permId noted in memory, not saved yet
    | Matching(found: seq<(Id, nat)>, hits: nat)  // reconciling open orders, some still to look at

  /** The engine and its world: the persisted map and its file, the live order map, the orders
      waiting for confirmation; and, for the record, how often each order was placed and how many of
      those placements a crash erased. */
  datatype Engine = Engine(
    pc: Pc, persisted: map<Id, nat>, disk: map<Id, nat>, live: set<Id>, pending: set<Id>,
    placed: map<Id, nat>, lost: map<Id, nat>)

  const MAX_ATTEMPTS: nat := 3

  /** How one call of placeOrder ends. */
  datatype Attempt = Places | Transient | Fatal

  /** The first attempt that does not end in a transient error. */
  ghost function Reached(tries: seq<Attempt>): nat {
    if tries == [] || tries[0] != Transient then 0 else 1 + Reached(tries[1..])
  }

  /** The first reading of the polls for a permId that is not 0, or 0 if none is. */
  ghost function FirstNonZero(perms: seq<nat>): nat {
    if perms == [] then 0 else if perms[0] != 0 then perms[0] else FirstNonZero(perms[1..])
  }

  lemma {:induction false} NoReading(perms: seq<nat>)
    requires forall j :: 0 <= j < |perms| ==> perms[j] == 0
    ensures FirstNonZero(perms) == 0
  {
    if perms != [] { NoReading(perms[1..]); }
  }

  lemma {:induction false} FirstReading(perms: seq<nat>, k: nat)
    requires k < |perms| && perms[k] != 0 && forall j :: 0 <= j < k ==> perms[j] == 0
    ensures FirstNonZero(perms) == perms[k]
  {
    if k > 0 { FirstReading(perms[1..], k - 1); }
  }

  function Boot(disk: map<Id, nat>): Engine { Engine(Idle, disk, disk, {}, {}, map[], map[]) }

  function Count(m: map<Id, nat>, id: Id): nat { if id in m then m[id] else 0 }

  function Bump(m: map<Id, nat>, id: Id): map<Id, nat> { m[id := Count(m, id) + 1] }

  datatype Event =
    | Submit(id: Id)
    | Connect(ok: bool)
    | PlaceOk
    | PlaceRaises(transient: bool)
    | Note
    | Save
    | PermId(perm: nat)            // 0: the poll timed out
    | Disconnect
    | Reconcile(open: seq<(Id, nat)>)
    | Match
    | FailMatching                 // the exception path of reconciliation
    | Crash

  predicate Enabled(e: Engine, ev: Event) {
    match ev
    case Submit(_) => e.pc == Idle
    case Connect(_) => e.pc.Connecting?
    case PlaceOk => e.pc.Placing?
    case PlaceRaises(_) => e.pc.Placing?
    case Note => e.pc.Placed?
    case Save => e.pc.Noted? || e.pc.Confirmed? || (e.pc.Matching? && e.pc.found == [])
    case PermId(_) => e.pc.Polling?
    case Disconnect => true
    case Reconcile(_) => e.pc == Idle
    case Match => e.pc.Matching? && e.pc.found != []
    case FailMatching => e.pc.Matching?
    case Crash => true
  }

  function Step(e: Engine, ev: Event): Engine
    requires Enabled(e, ev)
  {
    match ev
    case Submit(id) => if id in e.persisted then e else e.(pc := Connecting(id))
    case Connect(ok) => e.(pc := if ok then Placing(e.pc.id, 0) else Idle)
    case PlaceOk => e.(pc := Placed(e.pc.id), placed := Bump(e.placed, e.pc.id))
    case PlaceRaises(transient) =>
      e.(pc := if transient && e.pc.attempt + 1 < MAX_ATTEMPTS then Placing(e.pc.id, e.pc.attempt + 1) else Idle)
    case Note =>
      e.(pc := Noted(e.pc.id), live := e.live + {e.pc.id}, persisted := e.persisted[e.pc.id := 0])
    case Save =>
      match e.pc {
        case Noted(id) => e.(pc := Polling(id), disk := e.persisted)
        case Confirmed(id) => e.(pc := Idle, disk := e.persisted, pending := e.pending - {id})
        case _ => e.(pc := Idle, disk := if e.pc.Matching? && e.pc.hits > 0 then e.persisted else e.disk)
      }
    case PermId(perm) =>
      if perm != 0 then e.(pc := Confirmed(e.pc.id), persisted := e.persisted[e.pc.id := perm])
      else e.(pc := Idle, pending := e.pending + {e.pc.id})
    case Disconnect =>
      if e.live == {} then e else e.(pending := e.pending + e.live, live := {}, disk := e.persisted)
    case Reconcile(open) => if e.pending == {} then e else e.(pc := Matching(open, 0))
    case Match =>
      var (ref, perm) := e.pc.found[0];
      if ref in e.pending && perm != 0
      then e.(pc := Matching(e.pc.found[1..], e.pc.hits + 1),
              persisted := e.persisted[ref := perm], pending := e.pending - {ref})
      else e.(pc := Matching(e.pc.found[1..], e.pc.hits))
    case FailMatching => e.(pc := Idle)
    case Crash =>
      Engine(Idle, e.disk, e.disk, {}, {}, e.placed,
             if (e.pc.Placed? || e.pc.Noted?) && e.pc.id !in e.disk then Bump(e.lost, e.pc.id) else e.lost)
  }

  ghost predicate Possible(e: Engine, evs: seq<Event>)
    decreases |evs|
  {
    |evs| == 0 || (Enabled(e, evs[0]) && Possible(Step(e, evs[0]), evs[1..]))
  }

  function Run(e: Engine, evs: seq<Event>): Engine
    requires Possible(e, evs)
    decreases |evs|
  {
    if |evs| == 0 then e else Run(Step(e, evs[0]), evs[1..])
  }

  // ---- What holds after every step ----

  /** Placements an order has now: one if the engine still knows of it or holds it. */
  function Known(e: Engine, id: Id, prior: set<Id>): nat {
    if (id in e.persisted && id !in prior) || (e.pc.Placed? && e.pc.id == id) then 1 else 0
  }

  /** Memory knows every order in the file, and what is live or pending is known. */
  ghost predicate Shape(e: Engine) {
    && e.live <= e.persisted.Keys && e.pending <= e.persisted.Keys && e.disk.Keys <= e.persisted.Keys
    && (forall id :: id in e.persisted && id !in e.disk ==> e.pc == Noted(id))
    && Working(e)
  }

  /** An order about to be placed is not known yet; one that is placed has no permId until it is read, and
      is in the file from its save on. */
  predicate Working(e: Engine) {
    match e.pc
    case Idle | Matching(_, _) => true
    case Connecting(_) | Placing(_, _) | Placed(_) => e.pc.id !in e.persisted
    case Noted(id) => id in e.persisted && e.persisted[id] == 0
    case Polling(id) => id in e.persisted && e.persisted[id] == 0 && id in e.disk && e.disk[id] == 0
    case Confirmed(id) => id in e.disk
  }

  predicate Balanced(e: Engine, id: Id, prior: set<Id>) {
    Count(e.placed, id) == Count(e.lost, id) + Known(e, id, prior)
  }

  /** `prior` are the orders already in the file when the first engine was started. */
  ghost predicate Inv(e: Engine, prior: set<Id>) {
    Shape(e) && prior <= e.disk.Keys && forall id :: Balanced(e, id, prior)
  }

  lemma StepKeepsWorking(e: Engine, ev: Event)
    requires Enabled(e, ev) && Shape(e)
    ensures Working(Step(e, ev))
  {}

  lemma StepKeepsLive(e: Engine, ev: Event)
    requires Enabled(e, ev) && Shape(e)
    ensures Step(e, ev).live <= Step(e, ev).persisted.Keys
  {
    hide Working;
  }

  lemma StepKeepsPending(e: Engine, ev: Event)
    requires Enabled(e, ev) && Shape(e)
    ensures Step(e, ev).pending <= Step(e, ev).persisted.Keys
  {}

  lemma StepKeepsCopied(e: Engine, ev: Event)
    requires Enabled(e, ev) && Shape(e)
    ensures Step(e, ev).disk.Keys <= Step(e, ev).persisted.Keys
  {
    hide Working;
  }

  lemma StepKeepsFile(e: Engine, ev: Event)
    requires Enabled(e, ev) && Shape(e)
    ensures e.disk.Keys <= Step(e, ev).disk.Keys
  {}

  lemma StepKeepsSaves(e: Engine, ev: Event, id: Id)
    requires Enabled(e, ev) && Shape(e)
    ensures var r := Step(e, ev); id in r.persisted && id !in r.disk ==> r.pc == Noted(id)
  {}

  lemma StepKeepsShape(e: Engine, ev: Event)
    requires Enabled(e, ev) && Shape(e)
    ensures Shape(Step(e, ev)) && e.disk.Keys <= Step(e, ev).disk.Keys
  {
    hide Step, Working;
    var r := Step(e, ev);
    StepKeepsWorking(e, ev);
    StepKeepsLive(e, ev);
    StepKeepsPending(e, ev);
    StepKeepsCopied(e, ev);
    StepKeepsFile(e, ev);
    forall id | id in r.persisted && id !in r.disk ensures r.pc == Noted(id) {
      StepKeepsSaves(e, ev, id);
    }
  }

  lemma StepKeepsBalance(e: Engine, ev: Event, id: Id, prior: set<Id>)
    requires Enabled(e, ev) && Shape(e) && prior <= e.disk.Keys && Balanced(e, id, prior)
    ensures Balanced(Step(e, ev), id, prior)
  {
    if ev.Crash? { CrashKeepsBalance(e, id, prior); } else { LiveStepKeepsBalance(e, ev, id, prior); }
  }

  lemma LiveStepKeepsBalance(e: Engine, ev: Event, id: Id, prior: set<Id>)
    requires Enabled(e, ev) && Shape(e) && prior <= e.disk.Keys && Balanced(e, id, prior) && ev != Crash
    ensures Balanced(Step(e, ev), id, prior)
  {
    assert Step(e, ev).lost == e.lost;
  }

  lemma CrashKeepsBalance(e: Engine, id: Id, prior: set<Id>)
    requires Shape(e) && prior <= e.disk.Keys && Balanced(e, id, prior)
    ensures Balanced(Step(e, Crash), id, prior)
  {}

  lemma StepKeepsInv(e: Engine, ev: Event, prior: set<Id>)
    requires Enabled(e, ev) && Inv(e, prior)
    ensures Inv(Step(e, ev), prior)
  {
    hide Step, Shape, Balanced;
    StepKeepsShape(e, ev);
    forall id ensures Balanced(Step(e, ev), id, prior) {
      StepKeepsBalance(e, ev, id, prior);
    }
  }

  lemma {:induction false} RunKeepsInv(e: Engine, evs: seq<Event>, prior: set<Id>)
    requires Possible(e, evs) && Inv(e, prior)
    ensures Inv(Run(e, evs), prior)
    decreases |evs|
  {
    if |evs| > 0 {
      StepKeepsInv(e, evs[0], prior);
      RunKeepsInv(Step(e, evs[0]), evs[1..], prior);
    }
  }

  /** Exactly-once up to lost notes: in every run of crashes, retries, disconnects and resubmissions,
      an order is placed once more than the crashes that fell between a placement and the save that
      records it, when it is known or held, and exactly that many times when it is not; so never more
      than one plus those crashes. Live and pending orders are always recorded ones. */
  lemma PlacedOncePlusLostNotes(disk: map<Id, nat>, evs: seq<Event>, id: Id)
    requires Possible(Boot(disk), evs)
    ensures var r := Run(Boot(disk), evs);
            && Count(r.placed, id) == Count(r.lost, id) + Known(r, id, disk.Keys)
            && Count(r.placed, id) <= Count(r.lost, id) + 1
            && (id in disk ==> Count(r.placed, id) == 0)
            && r.live <= r.persisted.Keys && r.pending <= r.persisted.Keys
  {
    RunKeepsInv(Boot(disk), evs, disk.Keys);
    assert Balanced(Run(Boot(disk), evs), id, disk.Keys);
    if id in disk { NeverPlacedAgain(Boot(disk), evs, disk.Keys, id); }
  }

  lemma {:induction false} NeverPlacedAgain(e: Engine, evs: seq<Event>, prior: set<Id>, id: Id)
    requires Possible(e, evs) && Inv(e, prior) && id in e.disk
    ensures Count(Run(e, evs).placed, id) == Count(e.placed, id)
    decreases |evs|
  {
    if |evs| > 0 {
      StepKeepsInv(e, evs[0], prior);
      SavedStaysSaved(e, evs[0], prior, id);
      NeverPlacedAgain(Step(e, evs[0]), evs[1..], prior, id);
    }
  }

  lemma SavedStaysSaved(e: Engine, ev: Event, prior: set<Id>, id: Id)
    requires Enabled(e, ev) && Inv(e, prior) && id in e.disk
    ensures id in Step(e, ev).disk
    ensures Step(e, ev).placed == e.placed || (e.pc.Placing? && e.pc.id != id)
  {}

  // ---- Nothing saved is forgotten ----

  /** Memory has a permId wherever the file has one. */
  ghost predicate Informed(e: Engine) {
    forall id :: id in e.disk && e.disk[id] != 0 ==> id in e.persisted && e.persisted[id] != 0
  }

  lemma StepInforms(e: Engine, ev: Event, prior: set<Id>, id: Id)
    requires Enabled(e, ev) && Inv(e, prior) && Informed(e)
    ensures var r := Step(e, ev);
            && (id in r.disk && r.disk[id] != 0 ==> id in r.persisted && r.persisted[id] != 0)
            && (id in e.disk ==> id in r.disk && (e.disk[id] != 0 ==> r.disk[id] != 0))
  {
    assert Working(e);
    assert id in e.disk && e.disk[id] != 0 ==> e.persisted[id] != 0;
    assert e.pc.Noted? ==> e.persisted[e.pc.id] == 0;
  }

  lemma StepKeepsInformed(e: Engine, ev: Event, prior: set<Id>)
    requires Enabled(e, ev) && Inv(e, prior) && Informed(e)
    ensures Informed(Step(e, ev))
    ensures forall id :: id in e.disk ==> id in Step(e, ev).disk && (e.disk[id] != 0 ==> Step(e, ev).disk[id] != 0)
  {
    hide Step, Balanced, Working;
    StepKeepsInv(e, ev, prior);
    var r := Step(e, ev);
    forall id ensures id in r.disk && r.disk[id] != 0 ==> id in r.persisted && r.persisted[id] != 0 {
      StepInforms(e, ev, prior, id);
    }
    forall id | id in e.disk ensures id in r.disk && (e.disk[id] != 0 ==> r.disk[id] != 0) {
      StepInforms(e, ev, prior, id);
    }
  }

  /** Across crashes, an order in the file stays in the file, and once it has a permId there it never
      falls back to 0. */
  lemma {:induction false} SavedForever(e: Engine, evs: seq<Event>, prior: set<Id>)
    requires Possible(e, evs) && Inv(e, prior) && Informed(e)
    ensures var r := Run(e, evs);
            forall id :: id in e.disk ==> id in r.disk && (e.disk[id] != 0 ==> r.disk[id] != 0)
    decreases |evs|
  {
    if |evs| > 0 {
      StepKeepsInv(e, evs[0], prior);
      StepKeepsInformed(e, evs[0], prior);
      SavedForever(Step(e, evs[0]), evs[1..], prior);
    }
  }

  lemma {:induction false} RunKeepsInformed(e: Engine, evs: seq<Event>, prior: set<Id>)
    requires Possible(e, evs) && Inv(e, prior) && Informed(e)
    ensures Informed(Run(e, evs))
    decreases |evs|
  {
    if |evs| > 0 {
      hide Inv, Informed, Step, Enabled;
      StepKeepsInv(e, evs[0], prior);
      StepKeepsInformed(e, evs[0], prior);
      RunKeepsInformed(Step(e, evs[0]), evs[1..], prior);
    }
  }

  /** At any point of any run from a first start, what is in the file then is never lost later. */
  lemma FileOnlyGrows(disk: map<Id, nat>, before: seq<Event>, after: seq<Event>, id: Id)
    requires Possible(Boot(disk), before) && Possible(Run(Boot(disk), before), after)
    ensures var e := Run(Boot(disk), before);
            var r := Run(e, after);
            id in e.disk ==> id in r.disk && (e.disk[id] != 0 ==> r.disk[id] != 0)
  {
    hide Run, Possible, Step;
    RunKeepsInv(Boot(disk), before, disk.Keys);
    RunKeepsInformed(Boot(disk), before, disk.Keys);
    SavedForever(Run(Boot(disk), before), after, disk.Keys);
  }

  ghost predicate NoCrash(evs: seq<Event>) { Crash !in evs }

  /** Within one process the same holds of memory. */
  lemma StepRemembers(e: Engine, ev: Event, id: Id)
    requires Enabled(e, ev) && Shape(e) && ev != Crash && id in e.persisted
    ensures var r := Step(e, ev); id in r.persisted && (e.persisted[id] != 0 ==> r.persisted[id] != 0)
  {}

  lemma {:induction false} RememberedUntilACrash(e: Engine, evs: seq<Event>, prior: set<Id>, id: Id)
    requires Possible(e, evs) && Inv(e, prior) && NoCrash(evs) && id in e.persisted
    ensures var r := Run(e, evs); id in r.persisted && (e.persisted[id] != 0 ==> r.persisted[id] != 0)
    decreases |evs|
  {
    if |evs| > 0 {
      hide Step, Enabled, Balanced, Working;
      assert evs[0] in evs && forall v :: v in evs[1..] ==> v in evs;
      StepKeepsInv(e, evs[0], prior);
      StepRemembers(e, evs[0], id);
      RememberedUntilACrash(Step(e, evs[0]), evs[1..], prior, id);
    }
  }

  // ---- Limits of the recovery ----

  /** A crash between placing and saving does repeat the order: the bound is reached. */
  lemma LostNoteRepeatsTheOrder(id: Id)
    ensures var evs := [Submit(id), Connect(true), PlaceOk, Crash, Submit(id), Connect(true), PlaceOk];
            && Possible(Boot(map[]), evs)
            && Count(Run(Boot(map[]), evs).placed, id) == 2
            && Count(Run(Boot(map[]), evs).lost, id) == 1
  {
    var e0 := Boot(map[]);
    var e1 := e0.(pc := Connecting(id));
    var e2 := e1.(pc := Placing(id, 0));
    var e3 := e2.(pc := Placed(id), placed := map[id := 1]);
    var e4 := e0.(placed := map[id := 1], lost := map[id := 1]);
    var e5, e6 := e4.(pc := Connecting(id)), e4.(pc := Placing(id, 0));
    var e7 := e4.(pc := Placed(id), placed := map[id := 2]);
    assert Bump(map[], id) == map[id := 1] && Bump(map[id := 1], id) == map[id := 2];
    RunCons(e6, PlaceOk, []);
    RunCons(e5, Connect(true), [PlaceOk]);
    RunCons(e4, Submit(id), [Connect(true), PlaceOk]);
    RunCons(e3, Crash, [Submit(id), Connect(true), PlaceOk]);
    RunCons(e2, PlaceOk, [Crash, Submit(id), Connect(true), PlaceOk]);
    RunCons(e1, Connect(true), [PlaceOk, Crash, Submit(id), Connect(true), PlaceOk]);
    RunCons(e0, Submit(id), [Connect(true), PlaceOk, Crash, Submit(id), Connect(true), PlaceOk]);
  }

  lemma RunCons(e: Engine, ev: Event, rest: seq<Event>)
    requires Enabled(e, ev) && Possible(Step(e, ev), rest)
    ensures Possible(e, [ev] + rest) && Run(e, [ev] + rest) == Run(Step(e, ev), rest)
  {
    assert ([ev] + rest)[1..] == rest;
  }

  // ---- When a permId can still be filled in ----

  /** The protocol is working on the order. */
  predicate Busy(pc: Pc, id: Id) {
    !pc.Idle? && !pc.Matching? && pc.id == id
  }

  /** No reported order carries a reference. */
  predicate Blank(open: seq<(Id, nat)>) { forall i :: 0 <= i < |open| ==> open[i].0 == "" }

  /** Nobody is working on the saved order, and reconciliation cannot match it: it is neither waiting nor
      about to, or (`blank`) what the broker reports carries no reference. */
  ghost predicate Settled(e: Engine, id: Id, perm: nat, blank: bool) {
    && id in e.disk && id in e.persisted && e.disk[id] == perm && e.persisted[id] == perm
    && !Busy(e.pc, id)
    && (if blank then id != "" && (e.pc.Matching? ==> Blank(e.pc.found)) else id !in e.pending && id !in e.live)
  }

  ghost predicate Unreferenced(evs: seq<Event>) {
    forall i :: 0 <= i < |evs| && evs[i].Reconcile? ==> Blank(evs[i].open)
  }

  lemma StepKeepsSettled(e: Engine, ev: Event, id: Id, perm: nat, blank: bool)
    requires Enabled(e, ev) && Settled(e, id, perm, blank) && (blank && ev.Reconcile? ==> Blank(ev.open))
    requires e.live <= e.persisted.Keys && e.pending <= e.persisted.Keys
    ensures Settled(Step(e, ev), id, perm, blank)
  {}

  lemma {:induction false} SettledForever(e: Engine, evs: seq<Event>, prior: set<Id>, id: Id, perm: nat, blank: bool)
    requires Possible(e, evs) && Inv(e, prior) && Settled(e, id, perm, blank) && (blank ==> Unreferenced(evs))
    ensures Settled(Run(e, evs), id, perm, blank)
    decreases |evs|
  {
    if |evs| > 0 {
      hide Settled, Step, Blank, Enabled;
      StepKeepsInv(e, evs[0], prior);
      assert e.live <= e.persisted.Keys && e.pending <= e.persisted.Keys;
      assert Unreferenced(evs) ==> Unreferenced(evs[1..]);
      StepKeepsSettled(e, evs[0], id, perm, blank);
      SettledForever(Step(e, evs[0]), evs[1..], prior, id, perm, blank);
    }
  }

  /** Orders waiting for confirmation live in memory only. So a crash settles every saved order: whatever
      is resubmitted, reconciled, lost or crashes after it, the file keeps the permId it had then. One
      saved with 0 stays at 0 for good, and is filled in afterwards if and only if it already was. */
  lemma CrashSettlesPermIds(disk: map<Id, nat>, before: seq<Event>, after: seq<Event>, id: Id)
    requires Possible(Boot(disk), before)
    requires Possible(Step(Run(Boot(disk), before), Crash), after)
    ensures var e := Run(Boot(disk), before);
            var r := Run(Step(e, Crash), after);
            id in e.disk ==>
              && id in r.disk && r.disk[id] == e.disk[id]
              && id in r.persisted && r.persisted[id] == e.disk[id]
  {
    var e := Run(Boot(disk), before);
    hide Run, Possible;
    RunKeepsInv(Boot(disk), before, disk.Keys);
    StepKeepsInv(e, Crash, disk.Keys);
    if id in e.disk { SettledForever(Step(e, Crash), after, disk.Keys, id, e.disk[id], false); }
  }

  /** In particular a restart over a file with a permId of 0, the case reconciliation is documented for,
      never fills it in. */
  lemma RestartForgetsPending(disk: map<Id, nat>, evs: seq<Event>, id: Id)
    requires Possible(Boot(disk), evs) && id in disk
    ensures var r := Run(Boot(disk), evs); id in r.disk && r.disk[id] == disk[id]
  {
    hide Run, Possible;
    assert Inv(Boot(disk), disk.Keys);
    SettledForever(Boot(disk), evs, disk.Keys, id, disk[id], false);
  }

  /** Placed orders are given no reference, so the broker reports none for them; then reconciliation
      confirms nothing even without a crash: once its poll has timed out, an order stays at 0. */
  lemma UnreferencedOrdersStayUnconfirmed(disk: map<Id, nat>, before: seq<Event>, after: seq<Event>, id: Id)
    requires Possible(Boot(disk), before) && id != ""
    requires Run(Boot(disk), before).pc == Polling(id)
    requires Possible(Step(Run(Boot(disk), before), PermId(0)), after) && Unreferenced(after)
    ensures var e := Run(Boot(disk), before);
            var r := Run(Step(e, PermId(0)), after);
            id in r.disk && r.disk[id] == 0
  {
    var e := Run(Boot(disk), before);
    hide Run, Possible;
    RunKeepsInv(Boot(disk), before, disk.Keys);
    StepKeepsInv(e, PermId(0), disk.Keys);
    assert Working(e);
    SettledForever(Step(e, PermId(0)), after, disk.Keys, id, 0, true);
  }

  /** Both ways a timed-out order can go: reconciled in the process that placed it, by a report with its
      reference, it gets its permId; with a crash in between the same report, and every later one, does
      nothing. */
  lemma TimedOutOrderIsLost(id: Id, perm: nat, later: seq<Event>)
    requires perm != 0
    ensures var sent := [Submit(id), Connect(true), PlaceOk, Note, Save, PermId(0)];
            var lucky := sent + [Reconcile([(id, perm)]), Match, Save];
            && Possible(Boot(map[]), sent) && Possible(Boot(map[]), lucky)
            && Run(Boot(map[]), lucky).disk == map[id := perm]
            && (Possible(Boot(map[id := 0]), later) ==>
                  Step(Run(Boot(map[]), sent), Crash).disk == map[id := 0]
                  && id in Run(Boot(map[id := 0]), later).disk && Run(Boot(map[id := 0]), later).disk[id] == 0)
  {
    hide Possible, Run, Step;
    var sent := [Submit(id), Connect(true), PlaceOk, Note, Save, PermId(0)];
    var e := TimedOut(id);
    ReconciledAtOnce(e, id, perm);
    if Possible(Boot(map[id := 0]), later) { RestartForgetsPending(map[id := 0], later, id); }
    RunMore(Boot(map[]), sent, Reconcile([(id, perm)]));
    RunMore(Boot(map[]), sent + [Reconcile([(id, perm)])], Match);
    RunMore(Boot(map[]), sent + [Reconcile([(id, perm)])] + [Match], Save);
    assert sent + [Reconcile([(id, perm)]), Match, Save] == sent + [Reconcile([(id, perm)])] + [Match] + [Save];
  }

  lemma ReconciledAtOnce(e: Engine, id: Id, perm: nat)
    requires perm != 0 && e == Engine(Idle, map[id := 0], map[id := 0], {id}, {id}, map[id := 1], map[])
    ensures var open := [(id, perm)];
            && Enabled(e, Reconcile(open)) && Enabled(Step(e, Reconcile(open)), Match)
            && Enabled(Step(Step(e, Reconcile(open)), Match), Save)
            && Step(Step(Step(e, Reconcile(open)), Match), Save).disk == map[id := perm]
            && Step(e, Crash).disk == map[id := 0]
  {
    var open := [(id, perm)];
    assert open[1..] == [] && e.persisted[id := perm] == map[id := perm];
    assert Step(e, Reconcile(open)) == e.(pc := Matching(open, 0));
    assert Step(e.(pc := Matching(open, 0)), Match)
           == e.(pc := Matching([], 1), persisted := map[id := perm], pending := e.pending - {id});
  }

  lemma TimedOut(id: Id) returns (e: Engine)
    ensures var sent := [Submit(id), Connect(true), PlaceOk, Note, Save, PermId(0)];
            Possible(Boot(map[]), sent) && e == Run(Boot(map[]), sent)
    ensures e == Engine(Idle, map[id := 0], map[id := 0], {id}, {id}, map[id := 1], map[])
  {
    hide Run, Possible;
    var e0 := Boot(map[]);
    var e1, e2 := e0.(pc := Connecting(id)), e0.(pc := Placing(id, 0));
    var e3 := e0.(pc := Placed(id), placed := map[id := 1]);
    var e4 := e3.(pc := Noted(id), live := {id}, persisted := map[id := 0]);
    var e5 := e4.(pc := Polling(id), disk := map[id := 0]);
    e := e5.(pc := Idle, pending := {id});
    assert Bump(e2.placed, id) == map[id := 1] && e3.persisted[id := 0] == map[id := 0];
    assert e3.live + {id} == {id} && e5.pending + {id} == {id};
    SixSteps(id, e0, e1, e2, e3, e4, e5, e);
  }

  lemma SixSteps(id: Id, e0: Engine, e1: Engine, e2: Engine, e3: Engine, e4: Engine, e5: Engine, e6: Engine)
    requires Enabled(e0, Submit(id)) && e1 == Step(e0, Submit(id))
    requires Enabled(e1, Connect(true)) && e2 == Step(e1, Connect(true))
    requires Enabled(e2, PlaceOk) && e3 == Step(e2, PlaceOk) && Enabled(e3, Note) && e4 == Step(e3, Note)
    requires Enabled(e4, Save) && e5 == Step(e4, Save) && Enabled(e5, PermId(0)) && e6 == Step(e5, PermId(0))
    ensures var sent := [Submit(id), Connect(true), PlaceOk, Note, Save, PermId(0)];
            Possible(e0, sent) && Run(e0, sent) == e6
  {
    hide Run, Possible, Step, Enabled;
    RunNone(e0);
    var s1, s2, s3 := [] + [Submit(id)], [Submit(id)] + [Connect(true)], [Submit(id), Connect(true)] + [PlaceOk];
    RunMore(e0, [], Submit(id));
    assert s1 == [Submit(id)];
    RunMore(e0, [Submit(id)], Connect(true));
    assert s2 == [Submit(id), Connect(true)];
    RunMore(e0, [Submit(id), Connect(true)], PlaceOk);
    RunMore(e0, s3, Note);
    RunMore(e0, s3 + [Note], Save);
    RunMore(e0, s3 + [Note] + [Save], PermId(0));
    assert s3 + [Note] + [Save] + [PermId(0)] == [Submit(id), Connect(true), PlaceOk, Note, Save, PermId(0)];
  }

  // ---- What reconciliation confirms ----

  /** The permId the broker's list gives an order: the first that is not 0, or 0. */
  function First(open: seq<(Id, nat)>, id: Id): nat {
    if open == [] then 0 else if open[0].0 == id && open[0].1 != 0 then open[0].1 else First(open[1..], id)
  }

  function Matches(n: nat): (evs: seq<Event>)
    ensures |evs| == n
  {
    if n == 0 then [] else [Match] + Matches(n - 1)
  }

  /** What a stretch of reconciliation does to one order. */
  ghost predicate ConfirmedBy(e: Engine, r: Engine, open: seq<(Id, nat)>, id: Id) {
    if id in e.pending && First(open, id) != 0
    then id !in r.pending && id in r.persisted && r.persisted[id] == First(open, id)
    else (id in r.pending <==> id in e.pending) && (id in r.persisted <==> id in e.persisted)
         && (id in e.persisted ==> r.persisted[id] == e.persisted[id])
  }

  /** Looking through the list resolves each pending order by its first permId and touches no other. */
  lemma {:induction false} MatchingConfirms(e: Engine, id: Id)
    requires e.pc.Matching?
    ensures var evs := Matches(|e.pc.found|);
            && Possible(e, evs)
            && var r := Run(e, evs);
            && r.pc.Matching? && r.pc.found == [] && r.pc.hits >= e.pc.hits && r.disk == e.disk && r.live == e.live
            && ConfirmedBy(e, r, e.pc.found, id)
            && (id in e.pending && First(e.pc.found, id) != 0 ==> r.pc.hits > 0)
            && (r.pc.hits == e.pc.hits ==> r.persisted == e.persisted)
    decreases |e.pc.found|
  {
    hide Possible, Run;
    var found := e.pc.found;
    if found == [] {
      RunNone(e);
    } else {
      var e' := Step(e, Match);
      assert e'.pc.found == found[1..];
      MatchingConfirms(e', id);
      RunCons(e, Match, Matches(|found| - 1));
    }
  }

  /** Reconciliation from any idle state with pending orders, carried to its save: every pending order the
      list gives a permId has it in memory and in the file, every other one is still pending. */
  lemma ReconciliationConfirms(e: Engine, open: seq<(Id, nat)>, id: Id)
    requires e.pc == Idle && e.pending != {}
    ensures var evs := [Reconcile(open)] + (Matches(|open|) + [Save]);
            && Possible(e, evs)
            && var r := Run(e, evs);
            && r.pc == Idle && r.live == e.live && ConfirmedBy(e, r, open, id)
            && (r.disk == r.persisted || (r.disk == e.disk && r.persisted == e.persisted))
            && (id in e.pending && First(open, id) != 0 ==> r.disk == r.persisted)
  {
    hide Possible, Run, First, Matches;
    var m := e.(pc := Matching(open, 0));
    MatchingConfirms(m, id);
    RunMore(m, Matches(|open|), Save);
    assert Step(e, Reconcile(open)) == m;
    RunCons(e, Reconcile(open), Matches(|open|) + [Save]);
  }

  /** From any reachable idle state: an order live at a disconnect waits for confirmation and is saved; the
      next reconciliation gives it the permId the broker lists for it, in the file too, and leaves it
      waiting, with the permId it had, if and only if the broker lists none. */
  lemma DisconnectedOrdersAreConfirmed(disk: map<Id, nat>, evs: seq<Event>, id: Id, open: seq<(Id, nat)>)
    requires Possible(Boot(disk), evs)
    requires var e := Run(Boot(disk), evs); e.pc == Idle && id in e.live
    ensures var e := Run(Boot(disk), evs);
            var dropped := Step(e, Disconnect);
            && id in dropped.pending && dropped.live == {} && dropped.disk == dropped.persisted == e.persisted
            && var more := [Disconnect] + ([Reconcile(open)] + (Matches(|open|) + [Save]));
            && Possible(e, more)
            && var r := Run(e, more);
            && id in e.persisted && id in r.disk && id in r.persisted && (id in r.pending <==> First(open, id) == 0)
            && r.disk[id] == r.persisted[id] == if First(open, id) != 0 then First(open, id) else e.persisted[id]
  {
    hide Possible, Run, First, Matches, Step, Inv, Shape;
    var e := Run(Boot(disk), evs);
    ReachedShape(disk, evs);
    DisconnectMoves(e, id);
    var dropped := Step(e, Disconnect);
    assert dropped.pending != {};
    ReconciliationConfirms(dropped, open, id);
    RunCons(e, Disconnect, [Reconcile(open)] + (Matches(|open|) + [Save]));
  }

  lemma ReachedShape(disk: map<Id, nat>, evs: seq<Event>)
    requires Possible(Boot(disk), evs)
    ensures Shape(Run(Boot(disk), evs))
  {
    RunKeepsInv(Boot(disk), evs, disk.Keys);
  }

  lemma DisconnectMoves(e: Engine, id: Id)
    requires Shape(e) && e.pc == Idle && id in e.live
    ensures var r := Step(e, Disconnect);
            && id in e.persisted && id in r.pending && r.live == {} && r.pc == Idle
            && r.disk == r.persisted == e.persisted
  {}

  lemma RunNone(e: Engine)
    ensures Possible(e, []) && Run(e, []) == e
  {}

  // ---- The engine object ----

  class IBKRExecutionEngine {
    var persisted: map<Id, nat>
    var orderMap: set<Id>
    var pending: set<Id>
    var disk: map<Id, nat>
    ghost var placed: map<Id, nat>
    ghost var lost: map<Id, nat>

    /** The engine between calls. */
    ghost function View(): Engine
      reads this
    {
      Engine(Idle, persisted, disk, orderMap, pending, placed, lost)
    }

    /** Start of a process: the map is restored from the file. */
    constructor (disk: map<Id, nat>)
      ensures View() == Boot(disk)
    {
      this.disk, persisted := disk, disk;
      orderMap, pending := {}, {};
      placed, lost := map[], map[];
    }

    method SaveOrderMap()
      modifies this`disk
      ensures disk == persisted
    {
      disk := persisted;
    }

    /** `_place_order_with_retry`: up to three attempts, retried while they end in a transient error. */
    method PlaceOrderWithRetry(id: Id, tries: seq<Attempt>, ghost start: Engine, ghost before: seq<Event>)
      returns (ok: bool, ghost evs: seq<Event>)
      requires |tries| == MAX_ATTEMPTS
      requires Reaches(start, before, View().(pc := Placing(id, 0)))
      modifies this`placed
      ensures Reaches(start, evs, View().(pc := if ok then Placed(id) else Idle))
      ensures ok <==> Reached(tries) < MAX_ATTEMPTS && tries[Reached(tries)] == Places
      ensures placed == if ok then Bump(old(placed), id) else old(placed)
    {
      hide Reaches, Bump;
      evs := before;
      var attempt := 0;
      while attempt < MAX_ATTEMPTS && tries[attempt] == Transient
        invariant attempt <= MAX_ATTEMPTS && Reached(tries[attempt..]) + attempt == Reached(tries)
        invariant placed == old(placed)
        invariant Reaches(start, evs, View().(pc := if attempt < MAX_ATTEMPTS then Placing(id, attempt) else Idle))
      {
        evs := ReachMore(start, evs, View().(pc := Placing(id, attempt)), PlaceRaises(true));
        attempt := attempt + 1;
      }
      ok := attempt < MAX_ATTEMPTS && tries[attempt] == Places;
      if ok {
        evs := ReachMore(start, evs, View().(pc := Placing(id, attempt)), PlaceOk);
        placed := Bump(placed, id);
      } else if attempt < MAX_ATTEMPTS {
        evs := ReachMore(start, evs, View().(pc := Placing(id, attempt)), PlaceRaises(false));
      }
    }

    /** The poll for a permId: the first nonzero reading is recorded, none leaves the order pending. */
    method AwaitPermId(id: Id, perms: seq<nat>, ghost start: Engine, ghost before: seq<Event>)
      returns (ghost evs: seq<Event>)
      requires Reaches(start, before, View().(pc := Polling(id)))
      modifies this`persisted, this`disk, this`pending
      ensures Reaches(start, evs, View())
      ensures persisted == if FirstNonZero(perms) == 0 then old(persisted)
                           else old(persisted)[id := FirstNonZero(perms)]
      ensures disk == if FirstNonZero(perms) == 0 then old(disk) else persisted
      ensures pending == if FirstNonZero(perms) == 0 then old(pending) + {id} else old(pending) - {id}
    {
      hide Reaches;
      var perm := 0;
      for i := 0 to |perms|
        invariant perm == 0 && FirstNonZero(perms[i..]) == FirstNonZero(perms)
      {
        if perms[i] != 0 {
          perm := perms[i];
          break;
        }
      }
      evs := ReachMore(start, before, View().(pc := Polling(id)), PermId(perm));
      if perm != 0 {
        persisted := persisted[id := perm];
        evs := ReachMore(start, evs, View().(pc := Confirmed(id)), Save);
        SaveOrderMap();
        pending := pending - {id};
      } else {
        pending := pending + {id};
      }
    }

    /** `submit_order` run to its end: `connects` and `tries` say how the connection and each placement
        attempt go, `perms` what each poll for the permId reads. It succeeds when the id was known or an
        attempt, after nothing but transient errors, places; an error is reported by `ok == false`. */
    method SubmitOrder(id: Id, connects: bool, tries: seq<Attempt>, perms: seq<nat>)
      returns (ok: bool, ghost evs: seq<Event>)
      requires |tries| == MAX_ATTEMPTS
      modifies this
      ensures Reaches(old(View()), evs, View())
      ensures ok <==> id in old(persisted)
                      || (connects && Reached(tries) < MAX_ATTEMPTS && tries[Reached(tries)] == Places)
      ensures placed == if ok && id !in old(persisted) then Bump(old(placed), id) else old(placed)
      ensures ok && id !in old(persisted) ==>
                orderMap == old(orderMap) + {id} && disk == persisted
                && persisted == old(persisted)[id := FirstNonZero(perms)]
                && pending == if FirstNonZero(perms) == 0 then old(pending) + {id} else old(pending) - {id}
      ensures !ok || id in old(persisted) ==>
                orderMap == old(orderMap) && disk == old(disk) && persisted == old(persisted)
                && pending == old(pending)
    {
      hide Reaches, Bump, FirstNonZero, Reached;
      ghost var start := View();
      evs := ReachNone(start);
      evs := ReachMore(start, evs, start, Submit(id));
      if id in persisted { return true, evs; }
      evs := ReachMore(start, evs, start.(pc := Connecting(id)), Connect(connects));
      if !connects { return false, evs; }
      ok, evs := PlaceOrderWithRetry(id, tries, start, evs);
      if !ok { return; }
      evs := NotePlaced(id, perms, start, evs);
    }

    /** A placed order is noted and saved before its permId is known. */
    method NotePlaced(id: Id, perms: seq<nat>, ghost start: Engine, ghost before: seq<Event>)
      returns (ghost evs: seq<Event>)
      requires Reaches(start, before, View().(pc := Placed(id)))
      modifies this`orderMap, this`persisted, this`disk, this`pending
      ensures Reaches(start, evs, View())
      ensures orderMap == old(orderMap) + {id} && disk == persisted
      ensures persisted == old(persisted)[id := FirstNonZero(perms)]
      ensures pending == if FirstNonZero(perms) == 0 then old(pending) + {id} else old(pending) - {id}
    {
      hide Reaches, FirstNonZero;
      evs := ReachMore(start, before, View().(pc := Placed(id)), Note);
      orderMap := orderMap + {id};
      persisted := persisted[id := 0];
      evs := ReachMore(start, evs, View().(pc := Noted(id)), Save);
      SaveOrderMap();
      evs := AwaitPermId(id, perms, start, evs);
    }

    /** `_on_disconnect`: live orders become pending and the map is saved. */
    method OnDisconnect()
      modifies this
      ensures View() == Step(old(View()), Disconnect)
      ensures pending == old(pending) + old(orderMap) && orderMap == {} && persisted == old(persisted)
      ensures disk == if old(orderMap) != {} then persisted else old(disk)
    {
      if orderMap != {} {
        pending := pending + orderMap;
        orderMap := {};
        SaveOrderMap();
      }
    }

    /** One reported order: a pending one with a permId is resolved. */
    method MatchOne(ref: Id, perm: nat, ghost all: set<Id>) returns (hit: bool)
      requires pending <= all
      modifies this`persisted, this`pending
      ensures hit <==> ref in old(pending) && perm != 0
      ensures persisted == if hit then old(persisted)[ref := perm] else old(persisted)
      ensures pending == if hit then old(pending) - {ref} else old(pending)
      ensures |all - pending| == |all - old(pending)| + if hit then 1 else 0
    {
      hit := false;
      if ref in pending {
        if perm != 0 {
          hit := true;
          persisted := persisted[ref := perm];
          assert all - (pending - {ref}) == (all - pending) + {ref};
          pending := pending - {ref};
        }
      }
    }

    /** `reconcile_pending_confirm` when nothing raises: every pending order the broker reports with a
        permId is resolved, each once, and the map is saved if any was. */
    method ReconcilePendingConfirm(open: seq<(Id, nat)>) returns (resolved: nat, ghost evs: seq<Event>)
      modifies this
      ensures Reaches(old(View()), evs, View())
      ensures resolved == |old(pending) - pending| && pending <= old(pending)
      ensures Left(old(pending), pending, open) && Named(old(persisted), old(pending), persisted, open)
      ensures orderMap == old(orderMap) && disk == if resolved > 0 then persisted else old(disk)
    {
      hide Reaches, First, Step, Left, Named;
      ghost var start := View();
      evs := ReachNone(start);
      evs := ReachReconcile(start, evs, start, open);
      if pending == {} {
        assert old(pending) - pending == {};
        NoneLeft(persisted, open);
        return 0, evs;
      }
      resolved := 0;
      assert open[0..] == open && open[..0] == [] && open[|open|..] == [];
      LeftAll(pending, persisted);
      for i := 0 to |open|
        invariant orderMap == start.live && placed == start.placed && lost == start.lost && disk == start.disk
        invariant Reaches(start, evs, View().(pc := Matching(open[i..], resolved)))
        invariant pending <= start.pending && resolved == |start.pending - pending|
        invariant Left(start.pending, pending, open[..i])
        invariant Named(start.persisted, start.pending, persisted, open[..i])
      {
        evs := ReachMatch(start, evs, View().(pc := Matching(open[i..], resolved)), open, i);
        LeftMore(start.pending, pending, open, i);
        NamedMore(start.persisted, start.pending, persisted, pending, open, i);
        var hit := MatchOne(open[i].0, open[i].1, start.pending);
        resolved := if hit then resolved + 1 else resolved;
      }
      assert open[..|open|] == open;
      evs := ReachLast(start, evs, View(), resolved);
      if resolved > 0 { SaveOrderMap(); }
    }
  }

  /** Of the pending orders `all`, exactly those not reported with a permId are left. */
  ghost predicate Left(all: set<Id>, pending: set<Id>, open: seq<(Id, nat)>) {
    forall id :: id in all ==> (id in pending <==> First(open, id) == 0)
  }

  /** Of the pending orders `all`, exactly those reported with a permId have the first such one now. */
  ghost predicate Named(was: map<Id, nat>, all: set<Id>, now: map<Id, nat>, open: seq<(Id, nat)>) {
    forall id ::
      if id in all && First(open, id) != 0 then id in now && now[id] == First(open, id)
      else (id in now <==> id in was) && (id in was ==> now[id] == was[id])
  }

  lemma LeftAll(all: set<Id>, persisted: map<Id, nat>)
    ensures Left(all, all, []) && Named(persisted, all, persisted, [])
  {}

  lemma NoneLeft(persisted: map<Id, nat>, open: seq<(Id, nat)>)
    ensures Left({}, {}, open) && Named(persisted, {}, persisted, open)
  {}

  lemma LeftMore(all: set<Id>, pending: set<Id>, open: seq<(Id, nat)>, i: nat)
    requires i < |open| && Left(all, pending, open[..i]) && pending <= all
    ensures Left(all, if open[i].0 in pending && open[i].1 != 0 then pending - {open[i].0} else pending, open[..i + 1])
  {
    hide First;
    forall id { FirstMore(open, i, id); }
  }

  lemma NamedMore(was: map<Id, nat>, all: set<Id>, now: map<Id, nat>, pending: set<Id>, open: seq<(Id, nat)>, i: nat)
    requires i < |open| && Left(all, pending, open[..i]) && pending <= all && Named(was, all, now, open[..i])
    ensures Named(was, all, if open[i].0 in pending && open[i].1 != 0 then now[open[i].0 := open[i].1] else now,
                  open[..i + 1])
  {
    hide First;
    forall id { FirstMore(open, i, id); }
  }

  lemma {:induction false} FirstMore(open: seq<(Id, nat)>, i: nat, id: Id)
    requires i < |open|
    ensures First(open[..i + 1], id)
            == if First(open[..i], id) != 0 then First(open[..i], id) else if open[i].0 == id then open[i].1 else 0
  {
    if i > 0 {
      FirstMore(open[1..], i - 1, id);
      assert open[..i + 1][1..] == open[1..][..i] && open[..i][1..] == open[1..][..i - 1];
    } else {
      assert open[..1][1..] == [];
    }
  }

  lemma ReachReconcile(e: Engine, evs: seq<Event>, r: Engine, open: seq<(Id, nat)>) returns (longer: seq<Event>)
    requires Reaches(e, evs, r) && r.pc == Idle
    ensures Reaches(e, longer, if r.pending == {} then r else r.(pc := Matching(open, 0)))
  {
    hide Reaches;
    longer := ReachMore(e, evs, r, Reconcile(open));
  }

  lemma ReachMatch(e: Engine, evs: seq<Event>, r: Engine, open: seq<(Id, nat)>, i: nat) returns (longer: seq<Event>)
    requires i < |open| && r.pc.Matching? && r.pc.found == open[i..] && Reaches(e, evs, r)
    ensures open[i].0 in r.pending && open[i].1 != 0 ==>
              Reaches(e, longer, r.(pc := Matching(open[i + 1..], r.pc.hits + 1),
                persisted := r.persisted[open[i].0 := open[i].1], pending := r.pending - {open[i].0}))
    ensures !(open[i].0 in r.pending && open[i].1 != 0) ==>
              Reaches(e, longer, r.(pc := Matching(open[i + 1..], r.pc.hits)))
  {
    hide Reaches;
    assert open[i..][1..] == open[i + 1..];
    longer := ReachMore(e, evs, r, Match);
  }

  lemma ReachLast(e: Engine, evs: seq<Event>, r: Engine, hits: nat) returns (longer: seq<Event>)
    requires Reaches(e, evs, r.(pc := Matching([], hits)))
    ensures Reaches(e, longer, r.(pc := Idle, disk := if hits > 0 then r.persisted else r.disk))
  {
    hide Reaches;
    longer := ReachMore(e, evs, r.(pc := Matching([], hits)), Save);
  }

  /** A run of one process from `e` ends in `r`. */
  ghost predicate Reaches(e: Engine, evs: seq<Event>, r: Engine) {
    NoCrash(evs) && Possible(e, evs) && Run(e, evs) == r
  }

  lemma ReachNone(e: Engine) returns (evs: seq<Event>)
    ensures Reaches(e, evs, e)
  {
    evs := [];
  }

  /** One more step at the end of a run. */
  lemma {:induction false} ReachMore(e: Engine, evs: seq<Event>, r: Engine, ev: Event) returns (longer: seq<Event>)
    requires Reaches(e, evs, r) && Enabled(r, ev) && ev != Crash
    ensures Reaches(e, longer, Step(r, ev))
  {
    longer := evs + [ev];
    RunMore(e, evs, ev);
  }

  lemma {:induction false} RunMore(e: Engine, evs: seq<Event>, ev: Event)
    requires Possible(e, evs) && Enabled(Run(e, evs), ev)
    ensures Possible(e, evs + [ev]) && Run(e, evs + [ev]) == Step(Run(e, evs), ev)
    decreases |evs|
  {
    hide Step, Enabled;
    if |evs| == 0 {
      assert (evs + [ev])[1..] == [];
    } else {
      RunMore(Step(e, evs[0]), evs[1..], ev);
      assert (evs + [ev])[1..] == evs[1..] + [ev];
    }
  }
}
