/** Page-hosted services announced to the service worker: keys, heartbeats, expiry, and the two
    reports the popup shows. */
module ServiceRegistry {
  import opened Common

  const ANNOUNCE_STALE_MS: int := 15000

  /** Absent strings are the empty string, as the source's `|| ''` makes them. */
  datatype Announcement = Announcement(hashHex: string, name: string, url: string, origin: string,
    refcount: Option<int>)
  datatype Entry = Entry(hashHex: string, name: string, url: string, origin: string,
    announcedAt: int, lastHeartbeat: int, refcount: int)

  /** One slot of the insertion-ordered map `announcedServices`. */
  datatype Slot = Slot(key: string, entry: Entry)

  /** A service the worker itself runs, with its engine's pending count. */
  datatype Running = Running(hashHex: string, name: string, url: string, refcount: int, pending: nat, startedAt: int)
  datatype Row = Row(hashHex: string, name: string, url: string, users: int, pending: nat, startedAt: int,
    uptimeMs: int, inPage: bool)
  datatype Stats = Stats(count: nat, totalUsers: int, totalPending: int)

  // ---- keys ---------------------------------------------------------------------

  function ServiceKey(hashHex: string, name: string): string { hashHex + ":" + name }

  /** Colon-free hashes never share a key. */
  lemma KeysNeverCollide(h1: string, n1: string, h2: string, n2: string)
    requires ':' !in h1 && ':' !in h2 && ServiceKey(h1, n1) == ServiceKey(h2, n2)
    ensures h1 == h2 && n1 == n2
  {
    var k1, k2 := ServiceKey(h1, n1), ServiceKey(h2, n2);
    assert k1[|h1|] == ':' && k2[|h2|] == ':';
    assert forall i :: 0 <= i < |h1| ==> k1[i] == h1[i];
    assert forall i :: 0 <= i < |h2| ==> k2[i] == h2[i];
    assert |h1| == |h2|;
    assert h1 == k1[..|h1|] && h2 == k2[..|h2|];
    assert n1 == k1[|h1| + 1..] && n2 == k2[|h2| + 1..];
  }

  predicate SharesKey(h: string, n: string, other: string, m: string) {
    |other| < |h| && ServiceKey(h, n) == ServiceKey(other, m)
  }

  /** A hash shares a key with some shorter one exactly when it contains a colon. */
  lemma CollidesExactlyWithColon(h: string)
    ensures ':' in h <==> exists n, other, m :: SharesKey(h, n, other, m)
  {
    if ':' in h {
      var i :| 0 <= i < |h| && h[i] == ':';
      var n := "";
      var other, m := h[..i], h[i + 1..] + ":" + n;
      assert h == h[..i] + [h[i]] + h[i + 1..];
      assert ServiceKey(h, n) == ServiceKey(other, m);
      assert SharesKey(h, n, other, m);
    }
    if n, other, m :| SharesKey(h, n, other, m) {
      assert h[|other|] == ServiceKey(h, n)[|other|] == ServiceKey(other, m)[|other|] == ':';
    }
  }

  // ---- the map of announcements ------------------------------------------------------

  predicate Alive(e: Entry, now: int) { now - e.lastHeartbeat <= ANNOUNCE_STALE_MS }

  predicate WellKeyed(a: seq<Slot>) {
    && (forall i :: 0 <= i < |a| ==> a[i].key == ServiceKey(a[i].entry.hashHex, a[i].entry.name))
    && (forall i, j :: 0 <= i < j < |a| ==> a[i].key != a[j].key)
  }

  predicate Listed(a: seq<Slot>, key: string) { exists i :: 0 <= i < |a| && a[i].key == key }

  /** `Map.get`, with the slot's position in insertion order. */
  function Find(a: seq<Slot>, key: string): (r: Option<nat>)
    ensures r.Some? ==> r.value < |a| && a[r.value].key == key
    ensures r.Some? <==> Listed(a, key)
  {
    if |a| == 0 then None
    else if a[|a| - 1].key == key then Some(|a| - 1)
    else
      var r := Find(a[..|a| - 1], key);
      assert r.Some? ==> a[r.value] == a[..|a| - 1][r.value];
      assert Listed(a[..|a| - 1], key) <==> Listed(a, key) by {
        if Listed(a, key) {
          var i :| 0 <= i < |a| && a[i].key == key;
          assert a[..|a| - 1][i].key == key;
        }
      }
      r
  }

  function Kept(a: seq<Slot>, now: int): seq<Slot> {
    if |a| == 0 then []
    else if Alive(a[|a| - 1].entry, now) then Kept(a[..|a| - 1], now) + [a[|a| - 1]]
    else Kept(a[..|a| - 1], now)
  }

  function Without(a: seq<Slot>, key: string): seq<Slot> {
    var f := Find(a, key);
    if f.None? then a else a[..f.value] + a[f.value + 1..]
  }

  /** A heartbeat refreshes an entry, keeping what the page left out; a first one adds it at the end. */
  function Refreshed(e: Entry, m: Announcement, now: int): Entry {
    e.(lastHeartbeat := now,
       url := if m.url != "" then m.url else e.url,
       origin := if m.origin != "" then m.origin else e.origin,
       refcount := if m.refcount.Some? then m.refcount.value else e.refcount)
  }

  function Created(m: Announcement, now: int): Entry {
    Entry(m.hashHex, m.name, m.url, m.origin, now, now, if m.refcount.Some? then m.refcount.value else 1)
  }

  function Announced(a: seq<Slot>, m: Announcement, now: int): seq<Slot> {
    if m.hashHex == "" then a
    else
      var key := ServiceKey(m.hashHex, m.name);
      var f := Find(a, key);
      if f.Some? then a[f.value := Slot(key, Refreshed(a[f.value].entry, m, now))]
      else a + [Slot(key, Created(m, now))]
  }

  // ---- the reports -----------------------------------------------------------------------

  function SwRow(r: Running, now: int): Row {
    Row(r.hashHex, r.name, r.url, r.refcount, r.pending, r.startedAt, now - r.startedAt, false)
  }

  function PageRow(e: Entry, now: int): Row {
    Row(e.hashHex, e.name, e.url, e.refcount, 0, e.announcedAt, now - e.announcedAt, true)
  }

  function RowAt(running: seq<Running>, a: seq<Slot>, now: int, i: nat): Row
    requires i < |running| + |a|
  {
    if i < |running| then SwRow(running[i], now) else PageRow(a[i - |running|].entry, now)
  }

  /** What the popup shows: the worker's own services first, then every announcement. */
  function Rows(running: seq<Running>, a: seq<Slot>, now: int): (rows: seq<Row>)
    ensures |rows| == |running| + |a|
    ensures forall i :: 0 <= i < |rows| ==> rows[i] == RowAt(running, a, now, i)
  {
    seq(|running| + |a|, i requires 0 <= i < |running| + |a| => RowAt(running, a, now, i))
  }

  /** The first n rows' users and pending operations. */
  function Users(rows: seq<Row>, n: nat): int
    requires n <= |rows|
  {
    if n == 0 then 0 else Users(rows, n - 1) + rows[n - 1].users
  }

  function Waiting(rows: seq<Row>, n: nat): int
    requires n <= |rows|
  {
    if n == 0 then 0 else Waiting(rows, n - 1) + rows[n - 1].pending
  }

  function Totals(rows: seq<Row>): Stats { Stats(|rows|, Users(rows, |rows|), Waiting(rows, |rows|)) }

  class ServiceRegistry {
    var announced: seq<Slot>
    var running: seq<Running>

    constructor ()
      ensures announced == [] && running == []
    {
      announced, running := [], [];
    }

    /** Walks the map, deleting every stale entry. */
    method ReapAnnounced(now: int)
      modifies this`announced
      ensures announced == Kept(old(announced), now)
      ensures WellKeyed(old(announced)) ==> WellKeyed(announced)
    {
      var i, n := 0, |announced|;
      ghost var was := announced;
      ghost var seen := 0;
      while i < |announced|
        invariant seen <= n == |was| && i <= |announced|
        invariant announced[..i] == Kept(was[..seen], now)
        invariant announced[i..] == was[seen..]
        decreases n - seen
      {
        assert announced[i] == announced[i..][0] == was[seen];
        assert was[..seen + 1][..seen] == was[..seen];
        if now - announced[i].entry.lastHeartbeat > ANNOUNCE_STALE_MS {
          announced := announced[..i] + announced[i + 1..];
        } else {
          i := i + 1;
        }
        seen := seen + 1;
      }
      assert was[..seen] == was && announced[..i] == announced;
      if WellKeyed(was) { KeptWellKeyed(was, now); }
    }

    method ServicesAnnounce(m: Announcement, now: int) returns (ok: bool)
      modifies this`announced
      ensures ok <==> m.hashHex != ""
      ensures announced == Announced(old(announced), m, now)
      ensures WellKeyed(old(announced)) ==> WellKeyed(announced)
    {
      if WellKeyed(announced) { BeatAnnounced(announced, m, now, ""); }
      if m.hashHex == "" { return false; }
      var key := ServiceKey(m.hashHex, m.name);
      var existing := Find(announced, key);
      if existing.Some? {
        var e := announced[existing.value].entry.(lastHeartbeat := now);
        if m.url != "" { e := e.(url := m.url); }
        if m.origin != "" { e := e.(origin := m.origin); }
        if m.refcount.Some? { e := e.(refcount := m.refcount.value); }
        announced := announced[existing.value := Slot(key, e)];
      } else {
        var users := if m.refcount.Some? then m.refcount.value else 1;
        announced := announced + [Slot(key, Entry(m.hashHex, m.name, m.url, m.origin, now, now, users))];
      }
      return true;
    }

    /** `Map.delete`: the key's entry goes, wherever it stands, and every other entry keeps its place. */
    method ServicesWithdraw(hashHex: string, name: string)
      requires WellKeyed(announced)
      modifies this`announced
      ensures WellKeyed(announced) && !Listed(announced, ServiceKey(hashHex, name))
      ensures announced == Without(old(announced), ServiceKey(hashHex, name))
      ensures forall x :: x in announced <==> x in old(announced) && x.key != ServiceKey(hashHex, name)
      ensures forall k :: k != ServiceKey(hashHex, name) ==> Beat(announced, k) == Beat(old(announced), k)
    {
      var key, i := ServiceKey(hashHex, name), 0;
      while i < |announced| && announced[i].key != key
        invariant i <= |announced| && announced == old(announced)
        invariant forall k :: 0 <= k < i ==> announced[k].key != key
      {
        i := i + 1;
      }
      if i < |announced| {
        Removed(announced, i, key);
        announced := announced[..i] + announced[i + 1..];
      }
      BeatNone(announced, key);
      forall k | k != key ensures Beat(announced, k) == Beat(old(announced), k) {
        SameBeat(old(announced), announced, k, key);
      }
    }

    method ServicesList(reapedAt: int, now: int) returns (rows: seq<Row>)
      modifies this`announced
      ensures announced == Kept(old(announced), reapedAt)
      ensures rows == Rows(running, announced, now)
    {
      ReapAnnounced(reapedAt);
      rows := seq(|running|, i requires 0 <= i < |running| reads this => SwRow(running[i], now));
      for i := 0 to |announced|
        invariant |rows| == |running| + i
        invariant forall k :: 0 <= k < |running| ==> rows[k] == SwRow(running[k], now)
        invariant forall k :: 0 <= k < i ==> rows[|running| + k] == PageRow(announced[k].entry, now)
      {
        rows := rows + [PageRow(announced[i].entry, now)];
      }
    }

    /** The totals are those of the list taken at the same instant. */
    method ServicesStats(reapedAt: int) returns (st: Stats)
      modifies this`announced
      ensures announced == Kept(old(announced), reapedAt)
      ensures st == Totals(Rows(running, announced, reapedAt))
    {
      ReapAnnounced(reapedAt);
      var totalUsers, totalPending := 0, 0;
      ghost var rows := Rows(running, announced, reapedAt);
      for i := 0 to |running|
        invariant totalUsers == Users(rows, i) && totalPending == Waiting(rows, i)
      {
        totalUsers := totalUsers + running[i].refcount;
        totalPending := totalPending + running[i].pending;
        assert rows[i] == SwRow(running[i], reapedAt);
      }
      for i := 0 to |announced|
        invariant totalUsers == Users(rows, |running| + i) && totalPending == Waiting(rows, |running| + i)
      {
        totalUsers := totalUsers + announced[i].entry.refcount;
        assert rows[|running| + i] == PageRow(announced[i].entry, reapedAt);
      }
      st := Stats(|running| + |announced|, totalUsers, totalPending);
    }
  }

  /** Listing and then counting at one instant, with the clock read again for the rows: the reports agree. */
  method ListThenStats(r: ServiceRegistry, at: int, stamp: int) returns (rows: seq<Row>, st: Stats)
    modifies r`announced
    ensures r.announced == Kept(old(r.announced), at)
    ensures st == Totals(rows)
  {
    rows := r.ServicesList(at, stamp);
    KeptAgain(old(r.announced), at, at);
    st := r.ServicesStats(at);
    TotalsIgnoreStamps(r.running, r.announced, at, stamp, |rows|);
  }

  lemma {:induction false} TotalsIgnoreStamps(running: seq<Running>, a: seq<Slot>, t: int, u: int, n: nat)
    requires n <= |running| + |a|
    ensures Users(Rows(running, a, t), n) == Users(Rows(running, a, u), n)
    ensures Waiting(Rows(running, a, t), n) == Waiting(Rows(running, a, u), n)
  {
    if n > 0 {
      TotalsIgnoreStamps(running, a, t, u, n - 1);
      assert Rows(running, a, t)[n - 1] == RowAt(running, a, t, n - 1);
      assert Rows(running, a, u)[n - 1] == RowAt(running, a, u, n - 1);
    }
  }

  // ---- expiry ------------------------------------------------------------------------------

  /** Reaping keeps exactly the entries whose last heartbeat is at most 15 seconds old. */
  lemma {:induction false} KeptExactly(a: seq<Slot>, now: int)
    ensures forall x :: x in Kept(a, now) <==> x in a && Alive(x.entry, now)
  {
    if |a| > 0 {
      var b := a[..|a| - 1];
      KeptExactly(b, now);
      assert forall x :: x in a <==> x in b || x == a[|a| - 1];
    }
  }

  /** Reaping earlier as well makes no difference. */
  lemma {:induction false} KeptAgain(a: seq<Slot>, t: int, now: int)
    requires t <= now
    ensures Kept(Kept(a, t), now) == Kept(a, now)
  {
    if |a| > 0 {
      var b, x := a[..|a| - 1], a[|a| - 1];
      KeptAgain(b, t, now);
      if Alive(x.entry, t) {
        assert (Kept(b, t) + [x])[..|Kept(b, t)|] == Kept(b, t);
      }
    }
  }

  lemma {:induction false} KeptWellKeyed(a: seq<Slot>, now: int)
    requires WellKeyed(a)
    ensures WellKeyed(Kept(a, now))
  {
    if |a| > 0 {
      var b, x := a[..|a| - 1], a[|a| - 1];
      KeptWellKeyed(b, now);
      KeptExactly(b, now);
      var k := Kept(b, now);
      assert forall i :: 0 <= i < |k| ==> k[i] in k;
    }
  }

  // ---- whole histories -------------------------------------------------------------------

  datatype Happening = Announce(m: Announcement, at: int) | Withdraw(hashHex: string, name: string) | Report(at: int)

  function After(a: seq<Slot>, e: Happening): seq<Slot> {
    match e
    case Announce(m, at) => Announced(a, m, at)
    case Withdraw(h, n) => Without(a, ServiceKey(h, n))
    case Report(at) => Kept(a, at)
  }

  function Run(a: seq<Slot>, es: seq<Happening>): seq<Slot>
    decreases |es|
  {
    if |es| == 0 then a else After(Run(a, es[..|es| - 1]), es[|es| - 1])
  }

  /** The independent reading of a history: when the key was last announced, unless withdrawn since. */
  function LastBeat(es: seq<Happening>, key: string): Option<int> {
    if |es| == 0 then None
    else
      match es[|es| - 1]
      case Announce(m, at) =>
        if m.hashHex != "" && ServiceKey(m.hashHex, m.name) == key then Some(at) else LastBeat(es[..|es| - 1], key)
      case Withdraw(h, n) => if ServiceKey(h, n) == key then None else LastBeat(es[..|es| - 1], key)
      case Report(_) => LastBeat(es[..|es| - 1], key)
  }

  /** The clock never runs backwards in the history and has not passed now. */
  predicate InOrder(es: seq<Happening>, now: int) {
    |es| == 0
    || match es[|es| - 1]
       case Withdraw(_, _) => InOrder(es[..|es| - 1], now)
       case e => e.at <= now && InOrder(es[..|es| - 1], e.at)
  }

  /** The stored heartbeat of a key. */
  function Beat(a: seq<Slot>, key: string): Option<int> {
    var f := Find(a, key);
    if f.Some? then Some(a[f.value].entry.lastHeartbeat) else None
  }

  lemma BeatIn(a: seq<Slot>, x: Slot)
    requires WellKeyed(a) && x in a
    ensures Beat(a, x.key) == Some(x.entry.lastHeartbeat)
  {
  }

  lemma BeatNone(a: seq<Slot>, key: string)
    ensures Beat(a, key).None? <==> forall x :: x in a ==> x.key != key
  {
  }

  lemma Replaced(a: seq<Slot>, i: nat, y: Slot)
    requires WellKeyed(a) && i < |a| && y.key == a[i].key == ServiceKey(y.entry.hashHex, y.entry.name)
    ensures WellKeyed(a[i := y]) && y in a[i := y]
    ensures forall x: Slot :: x.key != y.key ==> (x in a <==> x in a[i := y])
  {
    var b := a[i := y];
    assert b[i] == y;
    forall x: Slot | x.key != y.key ensures x in a <==> x in b {
      if x in a { var k :| 0 <= k < |a| && a[k] == x; assert b[k] == x; }
    }
  }

  /** An announcement sets its own key's heartbeat and no other. */
  lemma BeatAnnounced(a: seq<Slot>, m: Announcement, now: int, key: string)
    requires WellKeyed(a)
    ensures WellKeyed(Announced(a, m, now))
    ensures Beat(Announced(a, m, now), key) ==
      if m.hashHex != "" && ServiceKey(m.hashHex, m.name) == key then Some(now) else Beat(a, key)
  {
    if m.hashHex != "" {
      var own := ServiceKey(m.hashHex, m.name);
      var f := Find(a, own);
      var y := Slot(own, if f.Some? then Refreshed(a[f.value].entry, m, now) else Created(m, now));
      var b := if f.Some? then a[f.value := y] else a + [y];
      if f.Some? {
        Replaced(a, f.value, y);
      } else {
        assert b[|a|] == y;
        assert forall x :: x in b <==> x in a || x == y;
      }
      if key == own { BeatIn(b, y); } else { SameBeat(a, b, key, own); }
    }
  }

  /** Two maps that differ only at another key agree on this one. */
  lemma SameBeat(a: seq<Slot>, b: seq<Slot>, key: string, other: string)
    requires WellKeyed(a) && WellKeyed(b) && key != other
    requires forall x: Slot :: x.key != other ==> (x in a <==> x in b)
    ensures Beat(a, key) == Beat(b, key)
  {
  }

  lemma Removed(a: seq<Slot>, i: nat, own: string)
    requires WellKeyed(a) && i < |a| && a[i].key == own
    ensures WellKeyed(a[..i] + a[i + 1..])
    ensures forall x :: x in a[..i] + a[i + 1..] <==> x in a && x.key != own
  {
  }

  lemma BeatWithout(a: seq<Slot>, own: string, key: string)
    requires WellKeyed(a)
    ensures WellKeyed(Without(a, own))
    ensures Beat(Without(a, own), key) == if key == own then None else Beat(a, key)
  {
    var f, b := Find(a, own), Without(a, own);
    BeatNone(a, own);
    if f.Some? { Removed(a, f.value, own); }
    if key == own { BeatNone(b, key); } else { SameBeat(a, b, key, own); }
  }

  lemma BeatKept(a: seq<Slot>, now: int, key: string)
    requires WellKeyed(a)
    ensures Beat(Kept(a, now), key) ==
      if Beat(a, key).Some? && now - Beat(a, key).value <= ANNOUNCE_STALE_MS then Beat(a, key) else None
  {
  }

  /** On every history, with the clock running forward: a stored heartbeat is the key's last
      announcement, and one that is missing was withdrawn, never made, or has gone stale. */
  lemma {:induction false} BeatsTrackHistory(a: seq<Slot>, es: seq<Happening>, key: string, now: int)
    requires |a| == 0 && InOrder(es, now)
    ensures WellKeyed(Run(a, es))
    ensures Beat(Run(a, es), key).Some? ==> Beat(Run(a, es), key) == LastBeat(es, key)
    ensures Beat(Run(a, es), key).None? && LastBeat(es, key).Some? ==> now - LastBeat(es, key).value > ANNOUNCE_STALE_MS
    decreases |es|
  {
    if |es| > 0 {
      var was, e := es[..|es| - 1], es[|es| - 1];
      var b := Run(a, was);
      BeatsTrackHistory(a, was, key, if e.Withdraw? then now else e.at);
      match e
      case Announce(m, at) => BeatAnnounced(b, m, at, key);
      case Withdraw(h, n) => BeatWithout(b, ServiceKey(h, n), key);
      case Report(at) => BeatKept(b, at, key); KeptWellKeyed(b, at);
    }
  }

  /** A report shows a key exactly when its last announcement, not withdrawn since, is at most
      15 seconds old, however many reports have reaped the map in between. */
  lemma ListedExactlyWhileFresh(a: seq<Slot>, es: seq<Happening>, key: string, now: int)
    requires |a| == 0 && InOrder(es, now)
    ensures Listed(Run(a, es + [Report(now)]), key) <==>
      LastBeat(es, key).Some? && now - LastBeat(es, key).value <= ANNOUNCE_STALE_MS
  {
    var all := es + [Report(now)];
    assert all[..|all| - 1] == es;
    BeatsTrackHistory(a, es, key, now);
    BeatKept(Run(a, es), now, key);
  }

  // ---- what is announced and what is shown ------------------------------------------------------------

  /** A field that the page sent, or else the one that was there. */
  function Sent(now: string, was: string): string { if now != "" then now else was }

  function Count(now: Option<int>, was: int): int { if now.Some? then now.value else was }

  /** The first announcement of a key adds an entry at the end, with one user unless the page says otherwise;
      a later one refreshes the entry where it stands, with whatever the page sent. No other entry changes. */
  lemma AnnouncementEnters(a: seq<Slot>, m: Announcement, now: int)
    requires WellKeyed(a) && m.hashHex != ""
    ensures var key, b := ServiceKey(m.hashHex, m.name), Announced(a, m, now);
      && (!Listed(a, key) ==>
            b == a + [Slot(key, Entry(m.hashHex, m.name, m.url, m.origin, now, now, Count(m.refcount, 1)))])
      && (Listed(a, key) ==> |b| == |a| && forall i :: 0 <= i < |a| ==>
            b[i] == if a[i].key != key then a[i] else
              var e := a[i].entry;
              Slot(key, Entry(e.hashHex, e.name, Sent(m.url, e.url), Sent(m.origin, e.origin), e.announcedAt, now,
                              Count(m.refcount, e.refcount))))
  {
  }

  /** Each row shows its service: the worker's own with their engine's pending count, then the announced ones
      with none; how long each has been up is counted from its start. */
  lemma RowsShow(running: seq<Running>, a: seq<Slot>, now: int, i: nat)
    requires i < |running| + |a|
    ensures var row := Rows(running, a, now)[i];
      if i < |running| then
        var r := running[i];
        && row.hashHex == r.hashHex && row.name == r.name && row.url == r.url && row.users == r.refcount
        && row.pending == r.pending && row.startedAt == r.startedAt && row.uptimeMs == now - r.startedAt && !row.inPage
      else
        var e := a[i - |running|].entry;
        && row.hashHex == e.hashHex && row.name == e.name && row.url == e.url && row.users == e.refcount
        && row.pending == 0 && row.startedAt == e.announcedAt && row.uptimeMs == now - e.announcedAt && row.inPage
  {
    assert Rows(running, a, now)[i] == RowAt(running, a, now, i);
  }

  lemma {:induction false} SumsOfFront(rows: seq<Row>, r: Row, n: nat)
    requires n <= |rows|
    ensures Users(rows + [r], n) == Users(rows, n) && Waiting(rows + [r], n) == Waiting(rows, n)
  {
    if n > 0 { SumsOfFront(rows, r, n - 1); }
  }

  /** The statistics count every row once, with its users and its pending operations. */
  lemma EachRowCounts(rows: seq<Row>, r: Row)
    ensures Totals([]) == Stats(0, 0, 0)
    ensures var t := Totals(rows);
      Totals(rows + [r]) == Stats(t.count + 1, t.totalUsers + r.users, t.totalPending + r.pending)
  {
    SumsOfFront(rows, r, |rows|);
  }
}
