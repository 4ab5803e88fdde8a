/** What the settlements of a join's awaits lead to: which histories end in a handle, which in an error, and
    what each call leaves in the tables. */
module ServiceJoins {
  import opened Common
  import opened ServiceManager
  import ServiceRegistry

  // ---- the journey of one join ------------------------------------------------------------------

  /** How join j's awaits have settled so far, read off the run. */
  function Trail(m: Manager, ss: seq<Step>, j: nat): seq<Outcome>
    requires Linked(m.table)
    decreases |ss|
  {
    if |ss| == 0 then []
    else
      var was, s := ss[..|ss| - 1], ss[|ss| - 1];
      Trail(m, was, j)
      + (if s.Settle? && s.join == j && j in Run(m, was).joins then [s.outcome] else [])
  }

  /** Nothing but successes from n on. */
  predicate GoodFrom(t: seq<Outcome>, n: nat) { forall i :: n <= i < |t| ==> t[i] == Good }

  /** The bytes were in the cache, or they were not and a url says where to get them. */
  predicate Hit(t: seq<Outcome>) { |t| > 0 && t[0] == Good }

  predicate Missed(t: seq<Outcome>, url: string) { |t| > 0 && t[0] == Bad && url != "" }

  /** A join still under way: no await has failed, but the lookup may have missed when there is a url. */
  predicate OnTheWay(t: seq<Outcome>, url: string) {
    |t| == 0 || ((Hit(t) || Missed(t, url)) && GoodFrom(t, 1))
  }

  /** From the lookup to the handle: two more successes after a hit, six after a miss. */
  function Length(t: seq<Outcome>): nat { if |t| > 0 && t[0] == Good then 3 else 7 }

  predicate Arrived(t: seq<Outcome>, url: string) { OnTheWay(t, url) && |t| == Length(t) }

  predicate Underway(t: seq<Outcome>, url: string) { OnTheWay(t, url) && |t| < Length(t) }

  /** What a join awaits: after a miss its bytes are fetched, read, hashed and stored before they are compiled. */
  function Stage(t: seq<Outcome>): Await {
    if |t| == 0 then Cache
    else if t[0] == Good then (if |t| == 1 then Compile else Instantiate)
    else if |t| == 1 then Fetch
    else if |t| == 2 then Body
    else if |t| == 3 then Digest
    else if |t| == 4 then Store
    else if |t| == 5 then Compile
    else Instantiate
  }

  /** A join under way is where its history says. */
  predicate Fits(m: Manager, t: seq<Outcome>, j: nat) {
    && (j >= m.nextJoin ==> t == [] && j !in m.joins)
    && (j in m.joins ==> Underway(t, m.joins[j].url) && m.joins[j].at == Stage(t))
  }

  /** Where one settlement leads, by the trail it extends. */
  lemma SettlementLeads(m: Manager, j: nat, t: seq<Outcome>, o: Outcome, exits: bool)
    requires Linked(m.table) && j in m.joins && Fits(m, t, j)
    ensures var url, (n, reply) := m.joins[j].url, Settled(m, j, o, exits);
      && (reply.Handle? <==> Arrived(t + [o], url))
      && (reply == Failed <==> !OnTheWay(t + [o], url))
      && (!reply.Handle? && reply != Failed ==> reply == NoReply)
      && (j in n.joins <==> Underway(t + [o], url))
      && (j in n.joins ==> n.joins[j] == m.joins[j].(at := Stage(t + [o]))) && n.nextJoin == m.nextJoin
  {
    assert forall i :: 0 <= i < |t| ==> (t + [o])[i] == t[i];
    assert (t + [o])[|t|] == o;
  }

  lemma OtherJoins(m: Manager, s: Step, j: nat)
    requires Linked(m.table) && !(s.Settle? && s.join == j)
    ensures m.nextJoin <= Next(m, s).nextJoin
    ensures j in m.joins && j < m.nextJoin ==> j in Next(m, s).joins && Next(m, s).joins[j] == m.joins[j]
    ensures j in Next(m, s).joins && j !in m.joins ==> j == m.nextJoin < Next(m, s).nextJoin
    ensures j in Next(m, s).joins && j !in m.joins ==> Next(m, s).joins[j].at == Cache
  {
  }

  lemma FitsOn(m: Manager, s: Step, t: seq<Outcome>, j: nat)
    requires Linked(m.table) && Fits(m, t, j)
    ensures !(s.Settle? && s.join == j && j in m.joins) ==> Fits(Next(m, s), t, j)
    ensures s.Settle? && s.join == j && j in m.joins ==> Fits(Next(m, s), t + [s.outcome], j)
  {
    if s.Settle? && s.join == j {
      if j in m.joins { SettlementLeads(m, j, t, s.outcome, s.exits); }
    } else {
      OtherJoins(m, s, j);
    }
  }

  lemma {:induction false} RunFits(m: Manager, ss: seq<Step>, j: nat)
    requires Fresh(m)
    ensures Fits(Run(m, ss), Trail(m, ss, j), j)
    decreases |ss|
  {
    if |ss| > 0 {
      RunFits(m, ss[..|ss| - 1], j);
      FitsOn(Run(m, ss[..|ss| - 1]), ss[|ss| - 1], Trail(m, ss[..|ss| - 1], j), j);
    }
  }

  /** On every run a join under way gets its handle exactly when its bytes were cached and then compiled and
      instantiated, or, with a url, were missing, fetched, read, found to have the right hash and stored first.
      It fails exactly when any await but a lookup with a url to fall back on does not succeed. */
  lemma HandleExactly(m: Manager, ss: seq<Step>, j: nat, o: Outcome, exits: bool)
    requires Fresh(m) && j in Run(m, ss).joins
    ensures var t, url := Trail(m, ss, j) + [o], Run(m, ss).joins[j].url;
      var reply := Act(Run(m, ss), Settle(j, o, exits)).1;
      && (reply.Handle? <==> t == [Good, Good, Good] || (url != "" && t == [Bad, Good, Good, Good, Good, Good, Good]))
      && (reply == Failed <==> o == Throws || (o == Bad && (url == "" || |t| > 1)))
  {
    RunFits(m, ss, j);
    var t := Trail(m, ss, j);
    SettlementLeads(Run(m, ss), j, t, o, exits);
    assert (t + [o])[|t|] == o;
    if Arrived(t + [o], Run(m, ss).joins[j].url) {
      assert (t + [o]) == [(t + [o])[0]] + (t + [o])[1..];
    }
  }

  // ---- what a join asks for is what it gets -----------------------------------------------------------

  datatype Request = Request(hashHex: string, name: string, url: string)

  /** The call that began join j. */
  function RequestOf(m: Manager, ss: seq<Step>, j: nat): Option<Request>
    requires Linked(m.table)
    decreases |ss|
  {
    if |ss| == 0 then None
    else
      var was, s := ss[..|ss| - 1], ss[|ss| - 1];
      if s.Join? && Act(Run(m, was), s).1 == Pending(j) then Some(Request(s.hashHex, s.name, s.url))
      else RequestOf(m, was, j)
  }

  predicate Remembers(m: Manager, ss: seq<Step>, j: nat)
    requires Linked(m.table)
  {
    var joins := Run(m, ss).joins;
    j in joins ==>
      j < Run(m, ss).nextJoin && RequestOf(m, ss, j) == Some(Request(joins[j].hashHex, joins[j].name, joins[j].url))
  }

  lemma KeepsRequest(m: Manager, s: Step, j: nat)
    requires Linked(m.table) && j in Next(m, s).joins && (j in m.joins ==> j < m.nextJoin)
    ensures m.nextJoin <= Next(m, s).nextJoin
    ensures s.Join? && Act(m, s).1 == Pending(j) ==>
      Next(m, s).joins[j] == Flight(s.hashHex, s.name, s.url, Cache) && j < Next(m, s).nextJoin
    ensures !(s.Join? && Act(m, s).1 == Pending(j)) ==>
      j in m.joins && Next(m, s).joins[j] == m.joins[j].(at := Next(m, s).joins[j].at)
  {
  }

  lemma {:induction false} JoinRemembers(m: Manager, ss: seq<Step>, j: nat)
    requires Fresh(m)
    ensures Remembers(m, ss, j)
    decreases |ss|
  {
    if |ss| > 0 && j in Run(m, ss).joins {
      var was, s := ss[..|ss| - 1], ss[|ss| - 1];
      JoinRemembers(m, was, j);
      KeepsRequest(Run(m, was), s, j);
    }
  }

  // ---- what the calls reply, and what they leave alone ---------------------------------------------------

  /** A settlement that does not end in a handle touches no table and no other join. */
  lemma SettlementSpares(m: Manager, j: nat, o: Outcome, exits: bool)
    requires Linked(m.table)
    ensures var (n, reply) := Act(m, Settle(j, o, exits));
      && (forall i :: i in n.joins && i != j ==> i in m.joins && n.joins[i] == m.joins[i])
      && (forall i :: i in m.joins && i != j ==> i in n.joins)
      && n.nextJoin == m.nextJoin && (!reply.Handle? ==> n.table == m.table) && (j !in m.joins ==> n == m)
  {
  }

  /** One that does registers a record of what was asked for, used by the new handle alone. */
  lemma HandleInstalls(m: Manager, j: nat, o: Outcome)
    requires Linked(m.table) && j in m.joins && Act(m, Settle(j, o, false)).1.Handle?
    ensures var t, f, h := m.table, m.joins[j], m.table.nextHandle;
      var (n, reply) := Act(m, Settle(j, o, false));
      && reply == Handle(h)
      && n.table.records == t.records + [Record(f.hashHex, f.name, f.url, 1, {h})]
      && n.table.services == t.services[ServiceRegistry.ServiceKey(f.hashHex, f.name) := |t.records|]
      && n.table.handles == t.handles[h := |t.records|] && n.table.nextHandle == h + 1
  {
    var t, f, h := m.table, m.joins[j], m.table.nextHandle;
    SettledTable(m, j, o, false);
    assert Finishes(m, j, o);
    assert {} + {h} == {h};
    assert Created(t, f).records[|t.records|] == Record(f.hashHex, f.name, f.url, 0, {});
  }

  /** An instance that exits while it initialises takes down what its key held before, and is registered
      after that all the same. */
  lemma ExitingInstanceInstalls(m: Manager, j: nat, o: Outcome)
    requires Linked(m.table) && j in m.joins && Act(m, Settle(j, o, true)).1.Handle?
    ensures var gone := Next(m, Exit(m.joins[j].hashHex, m.joins[j].name));
      && j in gone.joins && Act(gone, Settle(j, o, false)) == Act(m, Settle(j, o, true))
  {
  }

  /** How a call of join is answered at once: a missing hash fails, a key being made is refused, a
      registered service gets one more user, and otherwise the join begins. */
  lemma JoinReplies(m: Manager, h: string, n: string, u: string)
    requires Linked(m.table)
    ensures var key, (r, reply) := ServiceRegistry.ServiceKey(h, n), Act(m, Join(h, n, u));
      && (reply == Failed <==> h == "")
      && (reply == LoopError <==> h != "" && key in m.instantiating)
      && (reply.Handle? <==> h != "" && key !in m.instantiating && key in m.table.services)
      && (reply.Pending? <==> h != "" && key !in m.instantiating && key !in m.table.services)
      && (reply == Failed || reply == LoopError ==> r == m)
      && (reply.Pending? ==> reply.join == m.nextJoin && r.table == m.table)
  {
  }

  lemma JoinAttaches(m: Manager, h: string, n: string, u: string)
    requires Linked(m.table) && Act(m, Join(h, n, u)).1.Handle?
    ensures var t, (r, reply) := m.table, Act(m, Join(h, n, u));
      var rid := t.services[ServiceRegistry.ServiceKey(h, n)];
      && reply == Handle(t.nextHandle) && r.joins == m.joins && r.instantiating == m.instantiating
      && r.table.services == t.services && r.table.handles == t.handles[t.nextHandle := rid]
      && |r.table.records| == |t.records|
      && (forall i :: 0 <= i < |t.records| && i != rid ==> r.table.records[i] == t.records[i])
      && r.table.records[rid].users == t.records[rid].users + {t.nextHandle}
      && r.table.records[rid].refcount == t.records[rid].refcount + 1
  {
  }

  /** The record a live handle names, and whether it has another user. */
  predicate LastUser(t: Table, handle: nat)
    requires Linked(t) && handle in t.handles
  {
    t.records[t.handles[handle]].users == {handle}
  }

  /** Releasing a handle that is not its record's last takes away that handle and nothing else. */
  lemma ReleaseSparesOthers(m: Manager, handle: nat)
    requires Inv(m.table) && handle in m.table.handles && !LastUser(m.table, handle)
    ensures var t, r := m.table, Next(m, Release(handle));
      && r.table.handles == t.handles - {handle} && r.table.services == t.services
      && r.joins == m.joins && r.instantiating == m.instantiating
  {
    var users := m.table.records[m.table.handles[handle]].users;
    assert users == (users - {handle}) + {handle};
    assert |users - {handle}| == |users| - 1;
  }

  /** Releasing the last one also takes down whatever its key is registered to. */
  lemma ReleaseOfTheLast(m: Manager, handle: nat)
    requires Inv(m.table) && handle in m.table.handles && LastUser(m.table, handle)
    ensures var t, r := m.table, Next(m, Release(handle));
      var key := KeyOf(t.records[t.handles[handle]]);
      && r.table.services == t.services - {key} && r.joins == m.joins && r.instantiating == m.instantiating
      && forall h :: h in r.table.handles <==>
           h in t.handles && h != handle && !(key in t.services && t.handles[h] == t.services[key])
  {
    var t := m.table;
    var rid := t.handles[handle];
    assert t.records[rid].users - {handle} == {};
    DetachedCore(t, handle);
  }

  /** An exit takes down the key's registration and the handles on it, and nothing else. */
  lemma ExitTakesDown(m: Manager, h: string, n: string)
    requires Inv(m.table)
    ensures var t, r, key := m.table, Next(m, Exit(h, n)), ServiceRegistry.ServiceKey(h, n);
      && r.table.services == t.services - {key} && r.table.records == t.records
      && r.joins == m.joins && r.instantiating == m.instantiating
      && forall i :: i in r.table.handles <==> i in t.handles && !(key in t.services && t.handles[i] == t.services[key])
  {
  }
}
