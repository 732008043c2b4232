/** Tracking of orders with deadlines (execution/order_lifecycle.py). The clock is read once per
    operation, and `now` is that reading. */
module Lifecycle {
  import opened Foundations

  type Id = string

  datatype Status = Pending | PartiallyFilled | Filled | Cancelled | TimedOut | Errored

  datatype Kind = KCreated | KUpdated | KFilled | KTimeout | KForceClosed | KCancelled | KError

  datatype Order = Order(
    symbol: string, status: Status, createdAt: real, timeoutAt: real, lastUpdate: real,
    filled: real, initial: real, price: real, events: seq<Kind>)

  datatype Settings = Settings(defaultTimeout: real, checkInterval: real, maxRetries: int)

  datatype Book = Book(orders: map<Id, Order>, attempts: map<Id, nat>, lastCheck: real)

  /** What the constructor accepts. */
  predicate Accepted(s: Settings) { s.defaultTimeout > 0.0 && s.checkInterval > 0.0 && s.maxRetries >= 1 }

  /** Filled, cancelled and timed-out orders are left alone by the sweep; failed ones are not. */
  predicate Resolved(s: Status) { s == Filled || s == Cancelled || s == TimedOut }

  function Outstanding(o: Order): real { o.initial - o.filled }

  function Noted(o: Order, k: Kind, now: real): Order { o.(events := o.events + [k], lastUpdate := now) }

  // ---- Creating ----

  predicate Letter(c: char) { 'A' <= c <= 'Z' || 'a' <= c <= 'z' }

  predicate Letters(s: string) { forall c :: c in s ==> Letter(c) }

  /** One to five letters, before an optional final newline. */
  predicate Ticker(s: string) {
    || (1 <= |s| <= 5 && Letters(s))
    || (2 <= |s| <= 6 && s[|s| - 1] == '\n' && Letters(s[..|s| - 1]))
  }

  predicate ValidSymbol(s: string) { Ticker(s) || '/' in s }

  datatype Outcome =
    | Done
    | AlreadyExists
    | NotFound
    | BadSymbol
    | BadQuantity
    | BadPrice
    | BadTimeout
    | BadThreshold
    | RetriesExceeded

  /** No timeout, or one of zero, means the default. */
  function Timeout(s: Settings, timeout: Option<real>): real {
    if timeout == None || timeout.value == 0.0 then s.defaultTimeout else timeout.value
  }

  function CreateOutcome(s: Settings, b: Book, id: Id, symbol: string, quantity: real, price: real,
                         timeout: Option<real>): Outcome {
    if id in b.orders then AlreadyExists
    else if !ValidSymbol(symbol) then BadSymbol
    else if quantity <= 0.0 then BadQuantity
    else if price <= 0.0 then BadPrice
    else if Timeout(s, timeout) <= 0.0 then BadTimeout
    else Done
  }

  datatype Op =
    | Create(id: Id, symbol: string, quantity: real, price: real, timeout: Option<real>)
    | Update(id: Id, filled: real, status: Status)
    | Sweep
    | ForceClose(id: Id, price: real, quantity: real)
    | Cleanup(olderThan: real)

  function Created(s: Settings, b: Book, op: Op, now: real): Book
    requires op.Create?
  {
    if CreateOutcome(s, b, op.id, op.symbol, op.quantity, op.price, op.timeout) != Done then b else
      var deadline := now + Timeout(s, op.timeout);
      var o := Order(op.symbol, Pending, now, deadline, now, 0.0, op.quantity, op.price, [KCreated]);
      b.(orders := b.orders[op.id := o], attempts := b.attempts[op.id := 0])
  }

  // ---- Updating ----

  function UpdateOutcome(b: Book, id: Id, filled: real): Outcome {
    if id !in b.orders then NotFound
    else if filled < 0.0 || filled > b.orders[id].initial then BadQuantity
    else Done
  }

  function Updated(b: Book, id: Id, filled: real, status: Status, now: real): Book {
    if UpdateOutcome(b, id, filled) != Done then b else
      var o := Noted(b.orders[id].(status := status, filled := filled), KUpdated, now);
      b.(orders := b.orders[id := if status == Filled then Noted(o, KFilled, now)
                                  else if status == Cancelled then Noted(o, KCancelled, now) else o])
  }

  // ---- Sweeping ----

  predicate Due(o: Order, now: real) { !Resolved(o.status) && now > o.timeoutAt }

  predicate Effective(s: Settings, b: Book, now: real) { now - b.lastCheck >= s.checkInterval }

  function Flag(o: Order, now: real): Order {
    if Due(o, now) then Noted(o.(status := TimedOut), KTimeout, now) else o
  }

  function Swept(s: Settings, b: Book, now: real): Book {
    if !Effective(s, b, now) then b else
      b.(lastCheck := now, orders := FlagAll(b.orders, now))
  }

  function FlagAll(orders: map<Id, Order>, now: real): map<Id, Order> {
    map id | id in orders :: Flag(orders[id], now)
  }

  datatype Action = Action(id: Id, symbol: string, filled: real, outstanding: real)

  // ---- Force-closing ----

  function ForceOutcome(s: Settings, b: Book, id: Id, price: real, quantity: real): Outcome {
    if id !in b.orders then NotFound
    else if price <= 0.0 then BadPrice
    else if quantity <= 0.0 then BadQuantity
    else if Attempts(b, id) + 1 > s.maxRetries then RetriesExceeded
    else Done
  }

  function Attempts(b: Book, id: Id): nat { if id in b.attempts then b.attempts[id] else 0 }

  function Forced(s: Settings, b: Book, id: Id, price: real, quantity: real, now: real): Book {
    match ForceOutcome(s, b, id, price, quantity)
    case Done =>
      var o := b.orders[id];
      b.(attempts := b.attempts[id := Attempts(b, id) + 1],
         orders := b.orders[id := Noted(o.(status := Cancelled, filled := o.filled + quantity), KForceClosed, now)])
    case RetriesExceeded =>
      b.(attempts := b.attempts[id := Attempts(b, id) + 1],
         orders := b.orders[id := Noted(b.orders[id].(status := Errored), KError, now)])
    case _ => b
  }

  // ---- Cleaning up ----

  predicate Stale(o: Order, cutoff: real) { Resolved(o.status) && o.lastUpdate < cutoff }

  function StaleIds(b: Book, cutoff: real): set<Id> {
    set id | id in b.orders && Stale(b.orders[id], cutoff)
  }

  function Cleaned(b: Book, olderThan: real, now: real): Book {
    if olderThan < 0.0 then b else
      var gone := StaleIds(b, now - olderThan);
      b.(orders := b.orders - gone, attempts := b.attempts - gone)
  }

  // ---- Runs ----

  function Step(s: Settings, b: Book, op: Op, now: real): Book {
    match op
    case Create(_, _, _, _, _) => Created(s, b, op, now)
    case Update(id, filled, status) => Updated(b, id, filled, status, now)
    case Sweep => Swept(s, b, now)
    case ForceClose(id, price, quantity) => Forced(s, b, id, price, quantity, now)
    case Cleanup(olderThan) => Cleaned(b, olderThan, now)
  }

  datatype Timed = Timed(at: real, op: Op)

  function Run(s: Settings, b: Book, evs: seq<Timed>): Book
    decreases |evs|
  {
    if |evs| == 0 then b else Run(s, Step(s, b, evs[0].op, evs[0].at), evs[1..])
  }

  function Closings(events: seq<Kind>): nat {
    if |events| == 0 then 0
    else Closings(events[..|events| - 1]) + if events[|events| - 1] == KForceClosed then 1 else 0
  }

  /** A tracked order: sensible quantities, a deadline after its creation, and in its history one
      force-close per attempt up to the permitted number. */
  ghost predicate Sound(s: Settings, o: Order, attempts: nat) {
    && o.initial > 0.0 && o.price > 0.0 && o.filled >= 0.0 && o.createdAt < o.timeoutAt
    && Closings(o.events) == (if attempts <= s.maxRetries then attempts else s.maxRetries)
    && (Closings(o.events) == 0 ==> o.filled <= o.initial)
  }

  /** Orders and attempt counters are kept for the same ids. */
  ghost predicate Inv(s: Settings, b: Book) {
    && b.orders.Keys == b.attempts.Keys
    && forall id :: id in b.orders ==> Sound(s, b.orders[id], b.attempts[id])
  }

  lemma NotedClosings(o: Order, k: Kind, now: real)
    ensures Closings(Noted(o, k, now).events) == Closings(o.events) + if k == KForceClosed then 1 else 0
  {
    assert (o.events + [k])[..|o.events|] == o.events;
  }

  lemma CreateKeepsInv(s: Settings, b: Book, op: Op, now: real)
    requires Accepted(s) && Inv(s, b) && op.Create?
    ensures Inv(s, Created(s, b, op, now))
  {
    assert Closings([KCreated]) == 0 by { assert [KCreated][..0] == []; }
    hide Closings, ValidSymbol;
  }

  lemma UpdateKeepsInv(s: Settings, b: Book, id: Id, filled: real, status: Status, now: real)
    requires Inv(s, b)
    ensures Inv(s, Updated(b, id, filled, status, now))
  {
    if UpdateOutcome(b, id, filled) == Done {
      hide Closings, Noted;
      assert Sound(s, b.orders[id], b.attempts[id]);
      var o := b.orders[id].(status := status, filled := filled);
      NotedKeeps(o, KUpdated, now);
      NotedKeeps(Noted(o, KUpdated, now), KFilled, now);
      NotedKeeps(Noted(o, KUpdated, now), KCancelled, now);
    }
  }

  lemma NotedKeeps(o: Order, k: Kind, now: real)
    ensures var r := Noted(o, k, now);
            && r == o.(events := r.events, lastUpdate := now)
            && Closings(r.events) == Closings(o.events) + if k == KForceClosed then 1 else 0
  {
    NotedClosings(o, k, now);
  }

  lemma SweepKeepsInv(s: Settings, b: Book, now: real)
    requires Inv(s, b)
    ensures Inv(s, Swept(s, b, now))
  {
    hide Closings, Noted;
    forall id | id in b.orders ensures Sound(s, Flag(b.orders[id], now), b.attempts[id]) {
      assert Sound(s, b.orders[id], b.attempts[id]);
      NotedKeeps(b.orders[id].(status := TimedOut), KTimeout, now);
    }
  }

  lemma ForceKeepsInv(s: Settings, b: Book, id: Id, price: real, quantity: real, now: real)
    requires Accepted(s) && Inv(s, b)
    ensures Inv(s, Forced(s, b, id, price, quantity, now))
  {
    if id in b.orders {
      hide Closings, Noted;
      assert Sound(s, b.orders[id], b.attempts[id]);
      var o := b.orders[id];
      NotedKeeps(o.(status := Cancelled, filled := o.filled + quantity), KForceClosed, now);
      NotedKeeps(o.(status := Errored), KError, now);
    }
  }

  lemma StepKeepsInv(s: Settings, b: Book, op: Op, now: real)
    requires Accepted(s) && Inv(s, b)
    ensures Inv(s, Step(s, b, op, now))
  {
    match op
    case Create(_, _, _, _, _) => CreateKeepsInv(s, b, op, now);
    case Update(id, filled, status) => UpdateKeepsInv(s, b, id, filled, status, now);
    case Sweep => SweepKeepsInv(s, b, now);
    case ForceClose(id, price, quantity) => ForceKeepsInv(s, b, id, price, quantity, now);
    case Cleanup(olderThan) => CleanupKeepsInv(s, b, olderThan, now);
  }

  lemma CleanupKeepsInv(s: Settings, b: Book, olderThan: real, now: real)
    requires Inv(s, b)
    ensures Inv(s, Cleaned(b, olderThan, now))
  {
    hide Sound;
  }

  /** Over every run: the two maps keep the same ids, and however often an order is force-closed, at most
      `maxRetries` of the attempts fill anything. */
  lemma {:induction false} RunKeepsInv(s: Settings, b: Book, evs: seq<Timed>)
    requires Accepted(s) && Inv(s, b)
    ensures Inv(s, Run(s, b, evs))
    decreases |evs|
  {
    if |evs| > 0 {
      hide Inv, Step;
      StepKeepsInv(s, b, evs[0].op, evs[0].at);
      RunKeepsInv(s, Step(s, b, evs[0].op, evs[0].at), evs[1..]);
    }
  }

  // ---- Deadlines ----

  predicate Open(b: Book, id: Id) { id in b.orders && !Resolved(b.orders[id].status) }

  predicate Touches(op: Op, id: Id) { (op.Create? || op.Update? || op.ForceClose?) && op.id == id }

  /** Nobody updates or force-closes the order, or creates another under its id. */
  predicate LeftAlone(evs: seq<Timed>, id: Id) {
    forall i :: 0 <= i < |evs| ==> !Touches(evs[i].op, id)
  }

  /** Sweeps are called at gaps of at most `d`, from the last one at `last` until `end`. */
  predicate Paced(evs: seq<Timed>, last: real, d: real, end: real)
    decreases |evs|
  {
    if |evs| == 0 then end <= last + d
    else if evs[0].op.Sweep? then evs[0].at <= last + d && Paced(evs[1..], evs[0].at, d, end)
    else Paced(evs[1..], last, d, end)
  }

  lemma OthersLeaveItOpen(s: Settings, b: Book, op: Op, now: real, id: Id)
    requires Open(b, id) && !Touches(op, id) && !op.Sweep?
    ensures var r := Step(s, b, op, now); Open(r, id) && r.orders[id] == b.orders[id] && r.lastCheck == b.lastCheck
  {
    hide Noted, ValidSymbol;
  }

  /** With sweeps at gaps of at most `d`, an order nobody touches is flagged once a check interval and
      `d` have passed since its deadline (or since `start`, where it came up late): whatever happens to
      other orders, it is not open any more after that. */
  lemma {:induction false} FlaggedInTime(s: Settings, b: Book, evs: seq<Timed>, id: Id, start: real,
                                         last: real, d: real, end: real)
    requires Open(b, id) && LeftAlone(evs, id) && Paced(evs, last, d, end)
    requires var limit := Max(b.orders[id].timeoutAt, start);
             b.lastCheck <= limit && last <= limit + s.checkInterval && s.checkInterval >= 0.0
    ensures Open(Run(s, b, evs), id) ==> end <= Max(b.orders[id].timeoutAt, start) + s.checkInterval + d
    decreases |evs|
  {
    if |evs| > 0 {
      var op, now := evs[0].op, evs[0].at;
      var r := Step(s, b, op, now);
      assert LeftAlone(evs[1..], id);
      if op.Sweep? {
        if Due(b.orders[id], now) && Effective(s, b, now) {
          ClosedStaysClosed(s, r, evs[1..], id);
        } else {
          FlaggedInTime(s, r, evs[1..], id, start, now, d, end);
        }
      } else {
        hide Step;
        assert !Touches(op, id);
        OthersLeaveItOpen(s, b, op, now, id);
        FlaggedInTime(s, r, evs[1..], id, start, last, d, end);
      }
    }
  }

  lemma {:induction false} ClosedStaysClosed(s: Settings, b: Book, evs: seq<Timed>, id: Id)
    requires LeftAlone(evs, id) && !Open(b, id)
    ensures !Open(Run(s, b, evs), id)
    decreases |evs|
  {
    if |evs| > 0 {
      var op, now := evs[0].op, evs[0].at;
      assert LeftAlone(evs[1..], id) && !Touches(op, id);
      OthersKeepItClosed(s, b, op, now, id);
      ClosedStaysClosed(s, Step(s, b, op, now), evs[1..], id);
    }
  }

  lemma OthersKeepItClosed(s: Settings, b: Book, op: Op, now: real, id: Id)
    requires !Open(b, id) && !Touches(op, id)
    ensures !Open(Step(s, b, op, now), id)
  {
    hide ValidSymbol;
  }

  // ---- Force-closing what a sweep reports ----

  /** Force-closing the reported outstanding quantity, while attempts are left, fills the order exactly
      and resolves it; any other quantity under- or overfills it, for nothing compares it with what is
      outstanding. */
  lemma ForceCloseFills(s: Settings, b: Book, id: Id, price: real, quantity: real, now: real)
    requires ForceOutcome(s, b, id, price, quantity) == Done
    ensures var o, r := b.orders[id], Forced(s, b, id, price, quantity, now).orders[id];
            && Resolved(r.status)
            && (r.filled == r.initial <==> quantity == Outstanding(o))
            && (r.filled > r.initial <==> quantity > Outstanding(o))
  {}

  /** From an update to its force-close: whatever part of an order is reported filled, a sweep after its deadline
      reports the rest as outstanding, and force-closing that rest fills the order to the unit. */
  lemma ReportedRestFillsTheOrder(s: Settings, b: Book, id: Id, filled: real, status: Status, price: real,
                                  at: real, swept: real, now: real)
    requires Inv(s, b) && id in b.orders && 0.0 <= filled < b.orders[id].initial && !Resolved(status)
    requires swept > b.orders[id].timeoutAt && Effective(s, b, swept)
    requires price > 0.0 && b.attempts[id] < s.maxRetries
    ensures var u := Updated(b, id, filled, status, at);
            var w, rest := Swept(s, u, swept), ActionFor(id, u.orders[id]).outstanding;
            && Due(u.orders[id], swept) && w.orders[id].status == TimedOut && rest == b.orders[id].initial - filled
            && ForceOutcome(s, w, id, price, rest) == Done
            && var r := Forced(s, w, id, price, rest, now).orders[id];
            && r.filled == r.initial == b.orders[id].initial && r.status == Cancelled
  {
    hide Sound;
  }

  /** Symbols are one to five letters of either case, or anything with a slash; a final newline slips through. */
  lemma SymbolsTaken()
    ensures ValidSymbol("A") && ValidSymbol("brkB") && ValidSymbol("EUR/USD") && ValidSymbol("IBM\n")
  {
    assert "EUR/USD"[3] == '/' && "IBM\n"[..3] == "IBM";
  }

  lemma SymbolsRefused()
    ensures !ValidSymbol("") && !ValidSymbol("GOOGLE") && !ValidSymbol("BRK.B") && !ValidSymbol("IBM\n\n")
  {
    NotLetters("BRK.B", 3);
    NotLetters("IBM\n\n", 3);
    NotLetters("IBM\n\n"[..4], 3);
  }

  lemma NotLetters(s: string, i: nat)
    requires i < |s| && !Letter(s[i])
    ensures !Letters(s)
  {
    assert s[i] in s;
  }

  /** Running out of attempts does not take an order out of the sweep: it is flagged, and reported for
      another force-close that must fail, at every later effective sweep after the failure. */
  lemma FailedOrdersAreFlaggedAgain(s: Settings, b: Book, id: Id, price: real, quantity: real, at: real, now: real)
    requires ForceOutcome(s, b, id, price, quantity) == RetriesExceeded
    requires now > b.orders[id].timeoutAt && Effective(s, b, now)
    ensures var f := Forced(s, b, id, price, quantity, at);
            var r := Swept(s, f, now);
            && Due(f.orders[id], now) && r.orders[id].status == TimedOut
            && ForceOutcome(s, r, id, price, quantity) == RetriesExceeded
  {}

  // ---- The manager ----

  class OrderLifecycleManager {
    const settings: Settings
    var orders: map<Id, Order>
    var attempts: map<Id, nat>
    var lastCheck: real

    constructor (settings: Settings, now: real)
      requires Accepted(settings)
      ensures this.settings == settings && Contents() == Book(map[], map[], now)
    {
      this.settings := settings;
      orders, attempts, lastCheck := map[], map[], now;
    }

    ghost function Contents(): Book reads this { Book(orders, attempts, lastCheck) }

    method CreateOrder(id: Id, symbol: string, quantity: real, price: real, timeout: Option<real>, now: real)
      returns (result: Outcome)
      modifies this`orders, this`attempts
      ensures result == CreateOutcome(settings, old(Contents()), id, symbol, quantity, price, timeout)
      ensures Contents() == Step(settings, old(Contents()), Create(id, symbol, quantity, price, timeout), now)
      ensures result == Done <==>
                id !in old(orders) && ValidSymbol(symbol) && quantity > 0.0 && price > 0.0
                && (if timeout.Some? && timeout.value != 0.0 then timeout.value else settings.defaultTimeout) > 0.0
      ensures result == Done ==>
                id in orders && attempts == old(attempts)[id := 0] && orders == old(orders)[id := orders[id]]
                && var o := orders[id];
                && o.symbol == symbol && o.status == Pending && o.filled == 0.0 && o.initial == quantity
                && o.price == price && o.createdAt == o.lastUpdate == now && o.events == [KCreated]
                && o.timeoutAt - now == if timeout.Some? && timeout.value != 0.0 then timeout.value
                                        else settings.defaultTimeout
      ensures result != Done ==> Contents() == old(Contents())
    {
      hide ValidSymbol;
      if id in orders { return AlreadyExists; }
      if !ValidSymbol(symbol) { return BadSymbol; }
      if quantity <= 0.0 { return BadQuantity; }
      if price <= 0.0 { return BadPrice; }
      var seconds := if timeout.Some? && timeout.value != 0.0 then timeout.value else settings.defaultTimeout;
      if seconds <= 0.0 { return BadTimeout; }
      var o := Order(symbol, Pending, now, now + seconds, now, 0.0, quantity, price, [KCreated]);
      orders, attempts := orders[id := o], attempts[id := 0];
      return Done;
    }

    method UpdateOrder(id: Id, filled: real, status: Status, now: real) returns (result: Outcome)
      modifies this`orders
      ensures result == UpdateOutcome(old(Contents()), id, filled)
      ensures Contents() == Step(settings, old(Contents()), Update(id, filled, status), now)
      ensures result == Done <==> id in old(orders) && 0.0 <= filled <= old(orders)[id].initial
      ensures result == Done ==>
                var was := old(orders)[id];
                && id in orders && orders == old(orders)[id := orders[id]]
                && orders[id]
                   == was.(filled := filled, status := status, lastUpdate := now, events := orders[id].events)
                && orders[id].events
                   == was.events + [KUpdated] + (if status == Filled then [KFilled]
                                                 else if status == Cancelled then [KCancelled] else [])
      ensures result != Done ==> Contents() == old(Contents())
    {
      if id !in orders { return NotFound; }
      if filled < 0.0 { return BadQuantity; }
      var o := orders[id];
      if filled > o.initial { return BadQuantity; }
      o := o.(status := status, filled := filled);
      o := Noted(o, KUpdated, now);
      if status == Filled { o := Noted(o, KFilled, now); }
      else if status == Cancelled { o := Noted(o, KCancelled, now); }
      orders := orders[id := o];
      return Done;
    }

    /** An effective sweep flags exactly the open orders past their deadline, each with one action for
        what is outstanding; one that comes too soon does nothing. */
    method CheckForTimeouts(now: real) returns (expired: seq<Id>, actions: seq<Action>)
      modifies this`orders, this`lastCheck
      ensures Contents() == Step(settings, old(Contents()), Sweep, now)
      ensures lastCheck == if now - old(lastCheck) >= settings.checkInterval then now else old(lastCheck)
      ensures orders.Keys == old(orders).Keys && attempts == old(attempts)
      ensures forall id :: id in orders ==>
                var was := old(orders)[id];
                if now - old(lastCheck) >= settings.checkInterval && now > was.timeoutAt
                   && was.status != Filled && was.status != Cancelled && was.status != TimedOut
                then orders[id] == was.(status := TimedOut, lastUpdate := now, events := was.events + [KTimeout])
                else orders[id] == was
      ensures Reported(expired, actions, old(orders))
      ensures forall id :: id in expired <==>
                Effective(settings, old(Contents()), now) && id in old(orders) && Due(old(orders)[id], now)
    {
      expired, actions := [], [];
      if now - lastCheck < settings.checkInterval { return; }
      lastCheck := now;
      var todo := orders.Keys;
      ghost var before := orders;
      while todo != {}
        invariant lastCheck == now && todo <= before.Keys && orders.Keys == before.Keys
        invariant forall id :: id in before ==> orders[id] == if id in todo then before[id] else Flag(before[id], now)
        invariant Reported(expired, actions, before)
        invariant forall id :: id in expired <==> id in before && id !in todo && Due(before[id], now)
        decreases |todo|
      {
        hide Noted, Due, Reported;
        var id :| id in todo;
        var o := orders[id];
        if Due(o, now) {
          orders := orders[id := Noted(o.(status := TimedOut), KTimeout, now)];
          ReportedMore(expired, actions, before, id);
          expired, actions := expired + [id], actions + [ActionFor(id, o)];
        }
        todo := todo - {id};
      }
      assert orders == FlagAll(before, now);
    }

    method ForceCloseOrder(id: Id, price: real, quantity: real, now: real) returns (result: Outcome)
      modifies this`orders, this`attempts
      ensures result == ForceOutcome(settings, old(Contents()), id, price, quantity)
      ensures Contents() == Step(settings, old(Contents()), ForceClose(id, price, quantity), now)
      ensures result == Done || result == RetriesExceeded <==> id in old(orders) && price > 0.0 && quantity > 0.0
      ensures result == Done || result == RetriesExceeded ==>
                var was, tries := old(orders)[id], if id in old(attempts) then old(attempts)[id] + 1 else 1;
                && attempts == old(attempts)[id := tries] && (result == Done <==> tries <= settings.maxRetries)
                && orders == old(orders)[id := if result == Done
                                               then was.(status := Cancelled, filled := was.filled + quantity,
                                                         lastUpdate := now, events := was.events + [KForceClosed])
                                               else was.(status := Errored, lastUpdate := now,
                                                         events := was.events + [KError])]
      ensures result != Done && result != RetriesExceeded ==> Contents() == old(Contents())
    {
      if id !in orders { return NotFound; }
      if price <= 0.0 { return BadPrice; }
      if quantity <= 0.0 { return BadQuantity; }
      var o := orders[id];
      attempts := attempts[id := (if id in attempts then attempts[id] else 0) + 1];
      if attempts[id] > settings.maxRetries {
        orders := orders[id := Noted(o.(status := Errored), KError, now)];
        return RetriesExceeded;
      }
      o := o.(status := Cancelled);
      o := o.(filled := o.filled + quantity);
      orders := orders[id := Noted(o, KForceClosed, now)];
      return Done;
    }

    /** Removes exactly the resolved orders whose last change is older than the threshold. */
    method CleanupResolvedOrders(olderThan: real, now: real) returns (result: Outcome, removed: nat)
      requires orders.Keys == attempts.Keys
      modifies this`orders, this`attempts
      ensures result == if olderThan < 0.0 then BadThreshold else Done
      ensures Contents() == Step(settings, old(Contents()), Cleanup(olderThan), now)
      ensures forall id :: id in orders <==>
                id in old(orders)
                && var o := old(orders)[id];
                   olderThan < 0.0 || o.lastUpdate >= now - olderThan
                   || (o.status != Filled && o.status != Cancelled && o.status != TimedOut)
      ensures forall id :: id in orders ==> orders[id] == old(orders)[id] && attempts[id] == old(attempts)[id]
      ensures attempts.Keys == orders.Keys
      ensures removed == |old(orders)| - |orders|
    {
      if olderThan < 0.0 { return BadThreshold, 0; }
      var doomed := set id | id in orders && Stale(orders[id], now - olderThan);
      KeysLost(orders, doomed);
      DeleteAll(doomed);
      return Done, |doomed|;
    }

    method DeleteAll(ids: set<Id>)
      modifies this`orders, this`attempts
      ensures orders == old(orders) - ids && attempts == old(attempts) - ids
    {
      var todo := ids;
      while todo != {}
        invariant todo <= ids
        invariant orders == old(orders) - (ids - todo) && attempts == old(attempts) - (ids - todo)
        decreases |todo|
      {
        var id :| id in todo;
        assert ids - (todo - {id}) == (ids - todo) + {id};
        orders, attempts := orders - {id}, attempts - {id};
        todo := todo - {id};
      }
      assert ids - todo == ids;
    }
  }

  lemma KeysLost<V>(m: map<Id, V>, gone: set<Id>)
    requires gone <= m.Keys
    ensures |m - gone| == |m| - |gone|
  {
    assert (m - gone).Keys == m.Keys - gone;
  }

  /** One action for each listed order, no order listed twice. */
  ghost predicate Reported(expired: seq<Id>, actions: seq<Action>, orders: map<Id, Order>) {
    && |actions| == |expired|
    && (forall i :: 0 <= i < |expired| ==>
          expired[i] in orders && actions[i] == ActionFor(expired[i], orders[expired[i]]))
    && (forall i, j :: 0 <= i < j < |expired| ==> expired[i] != expired[j])
  }

  lemma ReportedMore(expired: seq<Id>, actions: seq<Action>, orders: map<Id, Order>, id: Id)
    requires Reported(expired, actions, orders) && id in orders && id !in expired
    ensures Reported(expired + [id], actions + [ActionFor(id, orders[id])], orders)
  {}

  function ActionFor(id: Id, o: Order): Action { Action(id, o.symbol, o.filled, Outstanding(o)) }
}
