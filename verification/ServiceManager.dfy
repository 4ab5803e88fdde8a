/** The service manager as a machine of atomic steps: one per entry into the worker's code, from the
    start of a call or the settlement of an `await` up to the next `await` or return. */
module ServiceManager {
  import opened ServiceRegistry

  /** A service record, named by its position in the table of all records ever created. */
  datatype Record = Record(hashHex: string, name: string, url: string, refcount: int, users: set<nat>)

  /** `services`, `serviceHandles`, `nextServiceHandle` and the records they point into. */
  datatype Table = Table(services: map<string, nat>, handles: map<nat, nat>, nextHandle: nat, records: seq<Record>)

  /** What a join is waiting for. */
  datatype Await = Cache | Fetch | Body | Digest | Store | Compile | Instantiate
  datatype Flight = Flight(hashHex: string, name: string, url: string, at: Await)

  datatype Manager = Manager(table: Table, instantiating: set<string>, joins: map<nat, Flight>, nextJoin: nat)

  /** How an await settles: Good is a hit, an ok response, a matching digest or plain success;
      Bad is a miss, a refusal or a mismatch; Throws rejects. */
  datatype Outcome = Good | Bad | Throws

  /** An instance may exit while it initialises, or at any later time. */
  datatype Step =
    | Join(hashHex: string, name: string, url: string)
    | Settle(join: nat, outcome: Outcome, exits: bool)
    | Release(handle: nat)
    | Exit(hashHex: string, name: string)

  datatype Reply = Handle(handle: nat) | Pending(join: nat) | LoopError | Failed | Released(ok: bool) | NoReply

  function KeyOf(r: Record): string { ServiceKey(r.hashHex, r.name) }

  function FlightKey(f: Flight): string { ServiceKey(f.hashHex, f.name) }

  /** Every reference names a record that exists. */
  predicate Linked(t: Table) {
    && (forall k :: k in t.services ==> t.services[k] < |t.records|)
    && (forall h :: h in t.handles ==> t.handles[h] < |t.records|)
  }

  ghost predicate Fresh(m: Manager) {
    m == Manager(Table(map[], map[], 1, []), {}, map[], 0)
  }

  // ---- the tables ----------------------------------------------------------------

  /** removeService: the registered record's handles and its registration go; the record itself
      is not touched. */
  function Dropped(t: Table, key: string): (r: Table)
    requires Linked(t)
    ensures Linked(r)
  {
    if key !in t.services then t
    else t.(handles := t.handles - t.records[t.services[key]].users, services := t.services - {key})
  }

  /** A fresh handle on a record. */
  function Attached(t: Table, rid: nat): (r: Table)
    requires Linked(t) && rid < |t.records|
    ensures Linked(r)
  {
    var was := t.records[rid];
    Table(t.services, t.handles[t.nextHandle := rid], t.nextHandle + 1,
          t.records[rid := was.(users := was.users + {t.nextHandle}, refcount := was.refcount + 1)])
  }

  /** A new, unused record takes its key, whatever held the key before. */
  function Created(t: Table, f: Flight): (r: Table)
    requires Linked(t)
    ensures Linked(r)
  {
    t.(records := t.records + [Record(f.hashHex, f.name, f.url, 0, {})],
       services := t.services[FlightKey(f) := |t.records|])
  }

  /** The end of a join: initialise, register, hand out the first handle. */
  function Installed(t: Table, f: Flight, exits: bool): (r: Table)
    requires Linked(t)
    ensures Linked(r)
  {
    var initialised := if exits then Dropped(t, FlightKey(f)) else t;
    Attached(Created(initialised, f), |t.records|)
  }

  /** A handle leaves the table and its record. */
  function Detached(t: Table, handle: nat): (r: Table)
    requires Linked(t) && handle in t.handles
    ensures Linked(r)
  {
    var rid := t.handles[handle];
    var was := t.records[rid];
    t.(handles := t.handles - {handle},
       records := t.records[rid := was.(users := was.users - {handle}, refcount := was.refcount - 1)])
  }

  /** A record left with no handle takes down whatever is registered under its key. */
  function Freed(t: Table, handle: nat): (r: Table)
    requires Linked(t)
    ensures Linked(r)
  {
    if handle !in t.handles then t
    else
      var n, last := Detached(t, handle), Detached(t, handle).records[t.handles[handle]];
      if last.refcount <= 0 then Dropped(n, KeyOf(last)) else n
  }

  // ---- the steps -------------------------------------------------------------------

  function Joined(m: Manager, hashHex: string, name: string, url: string): (r: (Manager, Reply))
    requires Linked(m.table)
    ensures Linked(r.0.table)
  {
    var key := ServiceKey(hashHex, name);
    if hashHex == "" then (m, Failed)
    else if key in m.instantiating then (m, LoopError)
    else if key in m.table.services then
      (m.(table := Attached(m.table, m.table.services[key])), Handle(m.table.nextHandle))
    else
      (m.(joins := m.joins[m.nextJoin := Flight(hashHex, name, url, Cache)], nextJoin := m.nextJoin + 1),
       Pending(m.nextJoin))
  }

  function Ended(m: Manager, j: nat): Manager { m.(joins := m.joins - {j}) }

  function Moved(m: Manager, j: nat, f: Flight, at: Await): Manager { m.(joins := m.joins[j := f.(at := at)]) }

  /** The bytes are there: the key is marked and compilation starts, with no second look at `services`. */
  function Compiling(m: Manager, j: nat, f: Flight): Manager {
    Moved(m, j, f, Compile).(instantiating := m.instantiating + {FlightKey(f)})
  }

  /** The `finally` clause. */
  function Closed(m: Manager, j: nat, f: Flight): Manager {
    Ended(m, j).(instantiating := m.instantiating - {FlightKey(f)})
  }

  function Settled(m: Manager, j: nat, outcome: Outcome, exits: bool): (r: (Manager, Reply))
    requires Linked(m.table)
    ensures Linked(r.0.table)
  {
    if j !in m.joins then (m, NoReply)
    else
      var f := m.joins[j];
      match f.at
      case Cache =>
        if outcome.Good? then (Compiling(m, j, f), NoReply)
        else if outcome.Throws? || f.url == "" then (Ended(m, j), Failed)
        else (Moved(m, j, f, Fetch), NoReply)
      case Fetch => if outcome.Good? then (Moved(m, j, f, Body), NoReply) else (Ended(m, j), Failed)
      case Body => if outcome.Good? then (Moved(m, j, f, Digest), NoReply) else (Ended(m, j), Failed)
      case Digest => if outcome.Good? then (Moved(m, j, f, Store), NoReply) else (Ended(m, j), Failed)
      case Store => if outcome.Good? then (Compiling(m, j, f), NoReply) else (Ended(m, j), Failed)
      case Compile =>
        if outcome.Good? then (Moved(m, j, f, Instantiate), NoReply) else (Closed(m, j, f), Failed)
      case Instantiate =>
        if outcome.Good? then
          (Closed(m, j, f).(table := Installed(m.table, f, exits)), Handle(m.table.nextHandle))
        else (Closed(m, j, f), Failed)
  }

  function Act(m: Manager, s: Step): (r: (Manager, Reply))
    requires Linked(m.table)
    ensures Linked(r.0.table)
  {
    match s
    case Join(h, n, u) => Joined(m, h, n, u)
    case Settle(j, outcome, exits) => Settled(m, j, outcome, exits)
    case Release(handle) => (m.(table := Freed(m.table, handle)), Released(handle in m.table.handles))
    case Exit(h, n) => (m.(table := Dropped(m.table, ServiceKey(h, n))), NoReply)
  }

  function Next(m: Manager, s: Step): (r: Manager)
    requires Linked(m.table)
    ensures Linked(r.table)
  {
    Act(m, s).0
  }

  function Run(m: Manager, ss: seq<Step>): (r: Manager)
    requires Linked(m.table)
    ensures Linked(r.table)
    decreases |ss|
  {
    if |ss| == 0 then m else Next(Run(m, ss[..|ss| - 1]), ss[|ss| - 1])
  }

  // ---- what every run keeps ---------------------------------------------------------

  /** Every record counts its handles. */
  predicate Counted(records: seq<Record>) {
    forall r :: 0 <= r < |records| ==> records[r].refcount == |records[r].users|
  }

  /** No handle number has been issued ahead of the counter. */
  predicate Issued(records: seq<Record>, nextHandle: nat) {
    nextHandle > 0 && forall r, h :: 0 <= r < |records| && h in records[r].users ==> 0 < h < nextHandle
  }

  /** A live handle is in the handle set of the record it names. */
  predicate Held(t: Table)
    requires Linked(t)
  {
    forall h :: h in t.handles ==> h in t.records[t.handles[h]].users
  }

  /** A registered record sits under its own key and all of its handles are live. */
  predicate Served(t: Table)
    requires Linked(t)
  {
    forall k :: k in t.services ==>
      && KeyOf(t.records[t.services[k]]) == k
      && forall h :: h in t.records[t.services[k]].users ==> h in t.handles && t.handles[h] == t.services[k]
  }

  predicate Used(t: Table)
    requires Linked(t)
  {
    forall k :: k in t.services ==> t.records[t.services[k]].users != {}
  }

  predicate Core(t: Table) {
    Linked(t) && Counted(t.records) && Issued(t.records, t.nextHandle) && Held(t) && Served(t)
  }

  predicate Inv(t: Table) { Core(t) && Used(t) }

  lemma DroppedCore(t: Table, key: string)
    requires Core(t)
    ensures Core(Dropped(t, key))
    ensures Used(t) ==> Used(Dropped(t, key))
  {
  }

  lemma AttachedCore(t: Table, rid: nat)
    requires Core(t) && rid < |t.records|
    ensures Core(Attached(t, rid))
    ensures (forall k :: k in t.services && t.services[k] != rid ==> t.records[t.services[k]].users != {}) ==>
      Used(Attached(t, rid))
  {
    assert t.nextHandle !in t.records[rid].users;
  }

  lemma CreatedCore(t: Table, f: Flight)
    requires Core(t)
    ensures Core(Created(t, f))
  {
  }

  lemma DetachedCore(t: Table, handle: nat)
    requires Core(t) && handle in t.handles
    ensures Core(Detached(t, handle))
  {
  }

  lemma InstalledInv(t: Table, f: Flight, exits: bool)
    requires Inv(t)
    ensures Inv(Installed(t, f, exits))
  {
    var initialised := if exits then Dropped(t, FlightKey(f)) else t;
    DroppedCore(t, FlightKey(f));
    CreatedCore(initialised, f);
    AttachedCore(Created(initialised, f), |t.records|);
  }

  /** Only the record that lost the handle can have become unused. */
  lemma DetachedUsed(t: Table, handle: nat, k: string)
    requires Inv(t) && handle in t.handles && k in t.services
    requires Detached(t, handle).records[t.services[k]].users == {}
    ensures t.services[k] == t.handles[handle] && KeyOf(t.records[t.handles[handle]]) == k
    ensures Detached(t, handle).records[t.handles[handle]].refcount <= 0
  {
    DetachedCore(t, handle);
  }

  lemma FreedInv(t: Table, handle: nat)
    requires Inv(t)
    ensures Inv(Freed(t, handle))
  {
    if handle in t.handles {
      DetachedCore(t, handle);
      var n := Detached(t, handle);
      var last := n.records[t.handles[handle]];
      DroppedCore(n, KeyOf(last));
      forall k | k in Freed(t, handle).services
        ensures Freed(t, handle).records[Freed(t, handle).services[k]].users != {}
      {
        if n.records[t.services[k]].users == {} { DetachedUsed(t, handle, k); }
      }
    }
  }

  predicate Finishes(m: Manager, j: nat, outcome: Outcome) {
    j in m.joins && m.joins[j].at.Instantiate? && outcome.Good?
  }

  /** Of all settlements only the last one of a join touches the tables. */
  lemma SettledTable(m: Manager, j: nat, outcome: Outcome, exits: bool)
    requires Linked(m.table)
    ensures Settled(m, j, outcome, exits).0.table ==
      if Finishes(m, j, outcome) then Installed(m.table, m.joins[j], exits) else m.table
  {
  }

  lemma JoinedInv(m: Manager, h: string, n: string, u: string)
    requires Inv(m.table)
    ensures Inv(Joined(m, h, n, u).0.table)
  {
    var t := m.table;
    if ServiceKey(h, n) in t.services { AttachedCore(t, t.services[ServiceKey(h, n)]); }
  }

  lemma SettledInv(m: Manager, j: nat, outcome: Outcome, exits: bool)
    requires Inv(m.table)
    ensures Inv(Settled(m, j, outcome, exits).0.table)
  {
    SettledTable(m, j, outcome, exits);
    if Finishes(m, j, outcome) { InstalledInv(m.table, m.joins[j], exits); }
  }

  lemma NextInv(m: Manager, s: Step)
    requires Inv(m.table)
    ensures Inv(Next(m, s).table)
  {
    match s
    case Join(h, n, u) => JoinedInv(m, h, n, u);
    case Settle(j, outcome, exits) => SettledInv(m, j, outcome, exits);
    case Release(handle) => FreedInv(m.table, handle);
    case Exit(h, n) => DroppedCore(m.table, ServiceKey(h, n));
  }

  lemma {:induction false} RunInv(m: Manager, ss: seq<Step>)
    requires Inv(m.table)
    ensures Inv(Run(m, ss).table)
    decreases |ss|
  {
    if |ss| > 0 {
      RunInv(m, ss[..|ss| - 1]);
      NextInv(Run(m, ss[..|ss| - 1]), ss[|ss| - 1]);
    }
  }

  /** With no assumption on scheduling: every record ever created, overwritten ones included, counts
      its handles; a live handle is in its record's set; a registered record is under its own key and
      has a live user. */
  lemma EveryRunKeepsTheBooks(m: Manager, ss: seq<Step>)
    requires Fresh(m)
    ensures var t := Run(m, ss).table;
      && (forall r :: 0 <= r < |t.records| ==> t.records[r].refcount == |t.records[r].users|)
      && (forall h :: h in t.handles ==> h < t.nextHandle && h in t.records[t.handles[h]].users)
      && (forall k :: k in t.services ==>
            KeyOf(t.records[t.services[k]]) == k && exists h :: h in t.handles && t.handles[h] == t.services[k])
  {
    RunInv(m, ss);
    var t := Run(m, ss).table;
    forall k | k in t.services ensures exists h :: h in t.handles && t.handles[h] == t.services[k] {
      var h :| h in t.records[t.services[k]].users;
      assert t.handles[h] == t.services[k];
    }
  }

  // ---- handle numbers -----------------------------------------------------------------

  /** A step brings at most one handle to life: the next number, which it replies with. */
  lemma NewHandles(m: Manager, s: Step)
    requires Linked(m.table)
    ensures Next(m, s).table.nextHandle == m.table.nextHandle + (if Act(m, s).1.Handle? then 1 else 0)
    ensures Act(m, s).1.Handle? ==> Act(m, s).1.handle == m.table.nextHandle
    ensures forall h :: h in Next(m, s).table.handles ==> h in m.table.handles || h == m.table.nextHandle
  {
    match s
    case Join(h, n, u) =>
    case Settle(j, outcome, exits) =>
    case Release(handle) =>
    case Exit(h, n) =>
  }

  lemma {:induction false} DeadHandleStaysDead(m: Manager, ss: seq<Step>, h: nat)
    requires Linked(m.table) && h < m.table.nextHandle && h !in m.table.handles
    ensures h < Run(m, ss).table.nextHandle && h !in Run(m, ss).table.handles
    decreases |ss|
  {
    if |ss| > 0 {
      DeadHandleStaysDead(m, ss[..|ss| - 1], h);
      NewHandles(Run(m, ss[..|ss| - 1]), ss[|ss| - 1]);
    }
  }

  /** Releasing a handle again, however much later, fails and changes nothing. */
  lemma SecondReleaseDoesNothing(m: Manager, h: nat, ss: seq<Step>)
    requires Inv(m.table) && h in m.table.handles
    ensures Act(m, Release(h)).1 == Released(true)
    ensures var later := Run(Next(m, Release(h)), ss); Act(later, Release(h)) == (later, Released(false))
  {
    NextInv(m, Release(h));
    assert h in m.table.records[m.table.handles[h]].users;
    DeadHandleStaysDead(Next(m, Release(h)), ss, h);
  }

  function ReplyTo(m: Manager, ss: seq<Step>, i: nat): Reply
    requires Linked(m.table) && i < |ss|
  {
    Act(Run(m, ss[..i]), ss[i]).1
  }

  function Counter(m: Manager, ss: seq<Step>, n: nat): nat
    requires Linked(m.table) && n <= |ss|
  {
    Run(m, ss[..n]).table.nextHandle
  }

  lemma CounterStep(m: Manager, ss: seq<Step>, n: nat)
    requires Linked(m.table) && n < |ss|
    ensures Counter(m, ss, n + 1) == Counter(m, ss, n) + (if ReplyTo(m, ss, n).Handle? then 1 else 0)
    ensures ReplyTo(m, ss, n).Handle? ==> ReplyTo(m, ss, n).handle == Counter(m, ss, n)
  {
    assert ss[..n + 1][..n] == ss[..n];
    NewHandles(Run(m, ss[..n]), ss[n]);
  }

  lemma {:induction false} CounterGrows(m: Manager, ss: seq<Step>, i: nat, j: nat)
    requires Linked(m.table) && i <= j <= |ss|
    ensures Counter(m, ss, i) <= Counter(m, ss, j)
    decreases j
  {
    if i < j {
      CounterGrows(m, ss, i, j - 1);
      CounterStep(m, ss, j - 1);
    }
  }

  /** Handle numbers are given out in increasing order, so never twice. */
  lemma HandlesIncrease(m: Manager, ss: seq<Step>, i: nat, j: nat)
    requires Linked(m.table) && i < j < |ss| && ReplyTo(m, ss, i).Handle? && ReplyTo(m, ss, j).Handle?
    ensures ReplyTo(m, ss, i).handle < ReplyTo(m, ss, j).handle
  {
    CounterStep(m, ss, i);
    CounterGrows(m, ss, i + 1, j);
    CounterStep(m, ss, j);
  }

  // ---- one registered record per key -------------------------------------------------------

  /** Every live handle belongs to the record registered under its key. */
  predicate Tidy(t: Table)
    requires Linked(t)
  {
    forall h :: h in t.handles ==>
      KeyOf(t.records[t.handles[h]]) in t.services && t.services[KeyOf(t.records[t.handles[h]])] == t.handles[h]
  }

  lemma DroppedTidy(t: Table, key: string)
    requires Core(t) && Tidy(t)
    ensures Tidy(Dropped(t, key))
  {
  }

  lemma AttachedTidy(t: Table, key: string)
    requires Core(t) && Tidy(t) && key in t.services
    ensures Tidy(Attached(t, t.services[key]))
  {
  }

  lemma FreedTidy(t: Table, h: nat)
    requires Inv(t) && Tidy(t)
    ensures Tidy(Freed(t, h))
  {
    if h in t.handles {
      DetachedCore(t, h);
      var n := Detached(t, h);
      DroppedTidy(n, KeyOf(n.records[t.handles[h]]));
    }
  }

  lemma CreatedTidy(t: Table, f: Flight)
    requires Inv(t) && Tidy(t)
    ensures Tidy(Created(t, f)) <==> FlightKey(f) !in t.services
  {
  }

  lemma NewRecordTidy(t: Table, f: Flight)
    requires Inv(t)
    ensures Tidy(Attached(Created(t, f), |t.records|)) <==> Tidy(Created(t, f))
  {
    var c := Created(t, f);
    var a := Attached(c, |t.records|);
    CreatedCore(t, f);
    assert a.services == c.services && c.services[FlightKey(f)] == |t.records|;
    forall h | h in c.handles ensures h in a.handles && a.handles[h] == c.handles[h] {
      assert h in c.records[c.handles[h]].users;
    }
    assert forall r :: 0 <= r < |c.records| ==> KeyOf(a.records[r]) == KeyOf(c.records[r]);
  }

  lemma InstalledTidy(t: Table, f: Flight, exits: bool)
    requires Inv(t) && Tidy(t)
    ensures Tidy(Installed(t, f, exits)) <==> exits || FlightKey(f) !in t.services
  {
    var initialised := if exits then Dropped(t, FlightKey(f)) else t;
    DroppedCore(t, FlightKey(f));
    DroppedTidy(t, FlightKey(f));
    CreatedTidy(initialised, f);
    NewRecordTidy(initialised, f);
  }

  /** A join that finishes under a key registered meanwhile, its instance not having exited first. */
  predicate Overwrites(m: Manager, s: Step) {
    s.Settle? && Finishes(m, s.join, s.outcome) && !s.exits && FlightKey(m.joins[s.join]) in m.table.services
  }

  lemma JoinedTidy(m: Manager, h: string, n: string, u: string)
    requires Inv(m.table) && Tidy(m.table)
    ensures Tidy(Joined(m, h, n, u).0.table)
  {
    if ServiceKey(h, n) in m.table.services { AttachedTidy(m.table, ServiceKey(h, n)); }
  }

  lemma SettledTidy(m: Manager, j: nat, outcome: Outcome, exits: bool)
    requires Inv(m.table) && Tidy(m.table)
    ensures Tidy(Settled(m, j, outcome, exits).0.table) <==> !Overwrites(m, Settle(j, outcome, exits))
  {
    SettledTable(m, j, outcome, exits);
    if Finishes(m, j, outcome) { InstalledTidy(m.table, m.joins[j], exits); }
  }

  /** A tidy manager stays tidy in exactly the steps that do not overwrite a registered record. */
  lemma TidyExactly(m: Manager, s: Step)
    requires Inv(m.table) && Tidy(m.table)
    ensures Tidy(Next(m, s).table) <==> !Overwrites(m, s)
  {
    match s
    case Join(h, n, u) => JoinedTidy(m, h, n, u);
    case Settle(j, outcome, exits) => SettledTidy(m, j, outcome, exits);
    case Release(handle) => FreedTidy(m.table, handle);
    case Exit(h, n) => DroppedTidy(m.table, ServiceKey(h, n));
  }

  // ---- runs without overlapping joins ------------------------------------------------------------

  predicate AwaitsBytes(at: Await) { !at.Compile? && !at.Instantiate? }

  predicate AwaitsOn(f: Flight, key: string) { FlightKey(f) == key && AwaitsBytes(f.at) }

  /** A join starts waiting for bytes while another join of its key still is. */
  predicate Overlaps(m: Manager, s: Step) {
    s.Join? && exists j :: j in m.joins && AwaitsOn(m.joins[j], ServiceKey(s.hashHex, s.name))
  }

  predicate NoOverlap(m: Manager, ss: seq<Step>)
    requires Linked(m.table)
    decreases |ss|
  {
    |ss| == 0 || (NoOverlap(m, ss[..|ss| - 1]) && !Overlaps(Run(m, ss[..|ss| - 1]), ss[|ss| - 1]))
  }

  /** Joins under way have distinct keys. */
  predicate Lone(joins: map<nat, Flight>, nextJoin: nat) {
    && (forall j :: j in joins ==> j < nextJoin)
    && (forall i, j :: i in joins && j in joins && i != j ==> FlightKey(joins[i]) != FlightKey(joins[j]))
  }

  predicate Unregistered(joins: map<nat, Flight>, services: map<string, nat>) {
    forall j :: j in joins ==> FlightKey(joins[j]) !in services
  }

  /** A join past its bytes has its key marked. */
  predicate Marked(joins: map<nat, Flight>, instantiating: set<string>) {
    forall j :: j in joins && !AwaitsBytes(joins[j].at) ==> FlightKey(joins[j]) in instantiating
  }

  predicate Solo(m: Manager) {
    Lone(m.joins, m.nextJoin) && Unregistered(m.joins, m.table.services) && Marked(m.joins, m.instantiating)
  }

  lemma ServicesShrink(t: Table, h: nat, key: string)
    requires Linked(t)
    ensures forall k :: k in Freed(t, h).services ==> k in t.services
    ensures forall k :: k in Dropped(t, key).services ==> k in t.services
  {
  }

  lemma JoinedSolo(m: Manager, h: string, n: string, u: string)
    requires Linked(m.table) && Solo(m) && !Overlaps(m, Join(h, n, u))
    ensures Solo(Joined(m, h, n, u).0)
  {
  }

  lemma MovedSolo(m: Manager, j: nat, f: Flight, at: Await)
    requires Solo(m) && j in m.joins && f == m.joins[j] && (AwaitsBytes(at) || FlightKey(f) in m.instantiating)
    ensures Solo(Moved(m, j, f, at))
  {
  }

  lemma CompilingSolo(m: Manager, j: nat, f: Flight)
    requires Solo(m) && j in m.joins && f == m.joins[j]
    ensures Solo(Compiling(m, j, f))
  {
  }

  /** A join that ends frees its key: unmarking or registering it touches no other join. */
  lemma EndedSolo(m: Manager, j: nat, f: Flight)
    requires Solo(m) && j in m.joins && f == m.joins[j]
    ensures Solo(Ended(m, j)) && Solo(Closed(m, j, f))
    ensures forall i :: i in Ended(m, j).joins ==> FlightKey(Ended(m, j).joins[i]) != FlightKey(f)
  {
  }

  lemma InstalledServices(t: Table, f: Flight, exits: bool)
    requires Linked(t)
    ensures forall k :: k in Installed(t, f, exits).services ==> k in t.services || k == FlightKey(f)
  {
  }

  lemma SettledSolo(m: Manager, j: nat, outcome: Outcome, exits: bool)
    requires Linked(m.table) && Solo(m)
    ensures Solo(Settled(m, j, outcome, exits).0)
  {
    if j in m.joins {
      var f := m.joins[j];
      EndedSolo(m, j, f);
      CompilingSolo(m, j, f);
      match f.at
      case Cache => MovedSolo(m, j, f, Fetch);
      case Fetch => MovedSolo(m, j, f, Body);
      case Body => MovedSolo(m, j, f, Digest);
      case Digest => MovedSolo(m, j, f, Store);
      case Store =>
      case Compile => MovedSolo(m, j, f, Instantiate);
      case Instantiate => InstalledServices(m.table, f, exits);
    }
  }

  lemma NextSolo(m: Manager, s: Step)
    requires Linked(m.table) && Solo(m) && !Overlaps(m, s)
    ensures Solo(Next(m, s)) && !Overwrites(m, s)
  {
    match s
    case Join(h, n, u) => JoinedSolo(m, h, n, u);
    case Settle(j, outcome, exits) => SettledSolo(m, j, outcome, exits);
    case Release(handle) => ServicesShrink(m.table, handle, "");
    case Exit(h, n) => ServicesShrink(m.table, 0, ServiceKey(h, n));
  }

  lemma {:induction false} SoloRun(m: Manager, ss: seq<Step>)
    requires Fresh(m) && NoOverlap(m, ss)
    ensures Inv(Run(m, ss).table) && Tidy(Run(m, ss).table) && Solo(Run(m, ss))
    decreases |ss|
  {
    if |ss| > 0 {
      var was := Run(m, ss[..|ss| - 1]);
      SoloRun(m, ss[..|ss| - 1]);
      NextInv(was, ss[|ss| - 1]);
      NextSolo(was, ss[|ss| - 1]);
      TidyExactly(was, ss[|ss| - 1]);
    }
  }

  /** On every run in which no join of a key starts while another awaits its bytes: a key is registered
      exactly while it has a live handle, and all live handles of a key name one record, the registered one. */
  lemma RegisteredExactlyWhileUsed(m: Manager, ss: seq<Step>)
    requires Fresh(m) && NoOverlap(m, ss)
    ensures var t := Run(m, ss).table;
      && (forall k :: k in t.services <==> exists h :: h in t.handles && KeyOf(t.records[t.handles[h]]) == k)
      && (forall h :: h in t.handles ==> t.services[KeyOf(t.records[t.handles[h]])] == t.handles[h])
      && (forall h, i :: h in t.handles && i in t.handles && t.handles[h] != t.handles[i] ==>
            KeyOf(t.records[t.handles[h]]) != KeyOf(t.records[t.handles[i]]))
  {
    SoloRun(m, ss);
    var t := Run(m, ss).table;
    forall k | k in t.services ensures exists h :: h in t.handles && KeyOf(t.records[t.handles[h]]) == k {
      var h :| h in t.records[t.services[k]].users;
      assert h in t.handles && KeyOf(t.records[t.handles[h]]) == k;
    }
  }

  // ---- who is turned away while a service is being made ---------------------------------------------

  /** The step marks the key: a join of it has its bytes and starts compiling. */
  predicate Marks(m: Manager, s: Step, key: string) {
    s.Settle? && s.join in m.joins && FlightKey(m.joins[s.join]) == key && s.outcome.Good?
    && (m.joins[s.join].at.Cache? || m.joins[s.join].at.Store?)
  }

  /** The step unmarks it: a join of it has failed to compile, or its instantiation has settled. */
  predicate Unmarks(m: Manager, s: Step, key: string) {
    s.Settle? && s.join in m.joins && FlightKey(m.joins[s.join]) == key
    && (m.joins[s.join].at.Instantiate? || (m.joins[s.join].at.Compile? && !s.outcome.Good?))
  }

  /** Read off the history: the key was last marked, not unmarked. */
  predicate LastMarked(m: Manager, ss: seq<Step>, key: string)
    requires Linked(m.table)
    decreases |ss|
  {
    |ss| > 0
    && (var was, s := ss[..|ss| - 1], ss[|ss| - 1];
        Marks(Run(m, was), s, key) || (!Unmarks(Run(m, was), s, key) && LastMarked(m, was, key)))
  }

  lemma MarkStep(m: Manager, s: Step, key: string)
    requires Linked(m.table)
    ensures key in Next(m, s).instantiating <==> Marks(m, s, key) || (key in m.instantiating && !Unmarks(m, s, key))
  {
  }

  lemma {:induction false} MarkedExactly(m: Manager, ss: seq<Step>, key: string)
    requires Fresh(m)
    ensures key in Run(m, ss).instantiating <==> LastMarked(m, ss, key)
    decreases |ss|
  {
    if |ss| > 0 {
      MarkedExactly(m, ss[..|ss| - 1], key);
      MarkStep(Run(m, ss[..|ss| - 1]), ss[|ss| - 1], key);
    }
  }

  /** On every run a join is answered with the loop error exactly when a join of its key has begun to compile
      and none has ended since, whether or not the caller is part of any cycle. */
  lemma LoopErrorExactly(m: Manager, ss: seq<Step>, h: string, n: string, u: string)
    requires Fresh(m)
    ensures Act(Run(m, ss), Join(h, n, u)).1 == LoopError <==> h != "" && LastMarked(m, ss, ServiceKey(h, n))
  {
    MarkedExactly(m, ss, ServiceKey(h, n));
  }

  predicate Makes(m: Manager, j: nat, key: string) {
    j in m.joins && !AwaitsBytes(m.joins[j].at) && FlightKey(m.joins[j]) == key
  }

  /** Every mark belongs to a join that is compiling or instantiating. */
  ghost predicate Owned(m: Manager) { forall k :: k in m.instantiating ==> exists j :: Makes(m, j, k) }

  lemma OwnedStep(m: Manager, s: Step, k: string)
    requires Linked(m.table) && Solo(m) && Owned(m) && k in Next(m, s).instantiating
    ensures exists j :: Makes(Next(m, s), j, k)
  {
    MarkStep(m, s, k);
    if Marks(m, s, k) {
      assert Makes(Next(m, s), s.join, k);
    } else {
      var j :| Makes(m, j, k);
      MakesOn(m, s, j, k);
    }
  }

  lemma MakesOn(m: Manager, s: Step, j: nat, k: string)
    requires Linked(m.table) && Solo(m) && Makes(m, j, k) && !Unmarks(m, s, k)
    ensures Makes(Next(m, s), j, k)
  {
  }

  lemma {:induction false} OwnedRun(m: Manager, ss: seq<Step>)
    requires Fresh(m) && NoOverlap(m, ss)
    ensures Owned(Run(m, ss))
    decreases |ss|
  {
    if |ss| > 0 {
      var was := Run(m, ss[..|ss| - 1]);
      SoloRun(m, ss[..|ss| - 1]);
      OwnedRun(m, ss[..|ss| - 1]);
      forall k | k in Run(m, ss).instantiating ensures exists j :: Makes(Run(m, ss), j, k) {
        OwnedStep(was, ss[|ss| - 1], k);
      }
    }
  }

  /** Where byte lookups of a key never overlap, that is exactly while a join of the key compiles or
      instantiates. */
  lemma LoopErrorWhileMaking(m: Manager, ss: seq<Step>, h: string, n: string, u: string)
    requires Fresh(m) && NoOverlap(m, ss)
    ensures Act(Run(m, ss), Join(h, n, u)).1 == LoopError <==>
      h != "" && exists j :: Makes(Run(m, ss), j, ServiceKey(h, n))
  {
    SoloRun(m, ss);
    OwnedRun(m, ss);
  }

  // ---- what an overlap does ------------------------------------------------------------------------

  /** A join whose bytes are cached, from its lookup to its handle. */
  function Through(m: Manager, j: nat): Manager
    requires Linked(m.table)
  {
    Next(Next(Next(m, Settle(j, Good, false)), Settle(j, Good, false)), Settle(j, Good, false))
  }

  /** Two joins of one key, the second asked for before the first has its bytes. */
  function Overlapped(m: Manager, h: string, n: string, u: string): Manager
    requires Linked(m.table)
  {
    Through(Through(Next(Next(m, Join(h, n, u)), Join(h, n, u)), 0), 1)
  }

  lemma ThroughInstalls(m: Manager, j: nat)
    requires Linked(m.table) && j in m.joins && m.joins[j].at == Cache
    ensures var f := m.joins[j];
      Through(m, j) == Closed(m, j, f).(table := Installed(m.table, f.(at := Instantiate), false))
  {
  }

  lemma InstalledAppends(t: Table, f: Flight)
    requires Linked(t)
    ensures Installed(t, f, false)
         == Table(t.services[FlightKey(f) := |t.records|], t.handles[t.nextHandle := |t.records|], t.nextHandle + 1,
                  t.records + [Record(f.hashHex, f.name, f.url, 1, {t.nextHandle})])
  {
    var c := Created(t, f);
    var unused := Record(f.hashHex, f.name, f.url, 0, {});
    assert c.records[|t.records|] == unused && {} + {t.nextHandle} == {t.nextHandle};
    assert c.records[|t.records| := unused.(users := {t.nextHandle}, refcount := 1)]
        == t.records + [Record(f.hashHex, f.name, f.url, 1, {t.nextHandle})];
  }

  lemma BothInstalled(t: Table, f: Flight)
    requires t == Table(map[], map[], 1, [])
    ensures var one := Record(f.hashHex, f.name, f.url, 1, {1});
      Installed(Installed(t, f, false), f, false)
        == Table(map[FlightKey(f) := 1], map[1 := 0, 2 := 1], 3, [one, one.(users := {2})])
  {
    InstalledAppends(t, f);
    InstalledAppends(Installed(t, f, false), f);
  }

  /** Releasing the first of two overlapped users drops the other one's record. */
  lemma FirstLeaves(t: Table, key: string, r: Record)
    requires KeyOf(r) == key && r.refcount == 1 && r.users == {1}
    requires t == Table(map[key := 1], map[1 := 0, 2 := 1], 3, [r, r.(users := {2})])
    ensures Freed(t, 1).handles == map[] && Freed(t, 1).services == map[] && Freed(t, 1).records[1].users == {2}
  {
  }

  /** The assumption is needed: after an overlap two users hold live handles on different records of
      one key, and when the first lets go, the second loses its handle and the service is gone. */
  lemma OverlapTearsDown(m: Manager, h: string, n: string, u: string)
    requires Fresh(m) && h != ""
    ensures var both := Overlapped(m, h, n, u).table;
      both.handles == map[1 := 0, 2 := 1] && both.services == map[ServiceKey(h, n) := 1]
    ensures var left := Next(Overlapped(m, h, n, u), Release(1)).table;
      left.handles == map[] && left.services == map[] && left.records[1].users == {2}
  {
    var key, f := ServiceKey(h, n), Flight(h, n, u, Cache);
    var m2 := Next(Next(m, Join(h, n, u)), Join(h, n, u));
    assert m2 == Manager(m.table, {}, map[0 := f, 1 := f], 2);
    ThroughInstalls(m2, 0);
    var m3 := Through(m2, 0);
    assert 1 in m3.joins && m3.joins[1] == f;
    ThroughInstalls(m3, 1);
    var g := f.(at := Instantiate);
    BothInstalled(m.table, g);
    FirstLeaves(Overlapped(m, h, n, u).table, key, Record(h, n, u, 1, {1}));
  }
}
