/**
 * The Directory's tables, the transactions that change them and the queries
 * that read them. Each SQL statement is one step on whole tables.
 */
module Directories {
  import opened Basics
  import opened Sessions

  datatype Address = Address(group: string, node: string, device: string)

  /** A row of schema_used. */
  datatype Use = Use(session: nat, schema: nat)

  datatype Tables = Tables(rows: Rows, devices: map<string, nat>, addresses: map<Address, nat>,
                           schemas: map<string, nat>, used: set<Use>)

  // ---- Integrity ----

  ghost predicate Injective<K>(m: map<K, nat>) {
    forall a, b :: a in m && b in m && m[a] == m[b] ==> a == b
  }

  ghost predicate Below<K>(m: map<K, nat>, bound: nat) {
    forall k :: k in m ==> m[k] < bound
  }

  /** Foreign keys and unique keys of the schema, and the chain invariant. */
  ghost predicate Integrity(t: Tables) {
    && Chains(t.rows)
    && Injective(t.devices) && Injective(t.addresses) && Injective(t.schemas)
    && (forall i :: i in t.rows ==> t.rows[i].device in t.devices.Values && t.rows[i].address in t.addresses.Values)
    && (forall u :: u in t.used ==> u.session in t.rows && u.schema in t.schemas.Values)
  }

  // ---- Queries ----

  /** The device that most recently used an address, as the rows of the query. */
  function AddrUuid(t: Tables, addr: Address): set<string> {
    set u | u in t.devices && addr in t.addresses &&
            (exists i :: i in t.rows.Keys && t.rows[i].device == t.devices[u] &&
                         t.rows[i].address == t.addresses[addr] && t.rows[i].nextAddr.None?)
  }

  function IsAddrOnline(t: Tables, addr: Address): set<bool> {
    set i | i in t.rows && addr in t.addresses && t.rows[i].address == t.addresses[addr] && t.rows[i].nextAddr.None?
      :: t.rows[i].Online()
  }

  /** The devices whose current session uses a schema. */
  function SchemaDevices(t: Tables, schema: string): set<string> {
    set u | u in t.devices && schema in t.schemas &&
            (exists i :: i in t.rows.Keys && t.rows[i].device == t.devices[u] &&
                         t.rows[i].nextDev.None? && Use(i, t.schemas[schema]) in t.used)
  }

  /** What device_status shows of one device: its current session's columns and schemas. */
  function DeviceStatus(t: Tables, u: string): set<(Session, set<nat>)> {
    set i | i in t.rows && u in t.devices && t.rows[i].device == t.devices[u] && t.rows[i].nextDev.None?
      :: (t.rows[i], set x | x in t.used && x.session == i :: x.schema)
  }

  datatype Info = Info(device: nat, address: nat, nextDev: Option<nat>, nextAddr: Option<nat>, prev: set<nat>)

  /** The left join of a session with the rows that it replaced in the device chain. */
  function Predecessors(rows: Rows, id: nat): set<nat> {
    set j | j in rows && rows[j].nextDev == Some(id)
  }

  /** A session with its predecessor in the device chain; no row if the session is gone. */
  function NotificationInfo(t: Tables, id: nat): Option<Info> {
    if id in t.rows then
      var s := t.rows[id];
      Some(Info(s.device, s.address, s.nextDev, s.nextAddr, Predecessors(t.rows, id)))
    else None
  }

  /** The schemas of a session; none if there is no such session. */
  function SessionSchemas(t: Tables, id: nat): set<string> {
    set sch | sch in t.schemas && Use(id, t.schemas[sch]) in t.used
  }

  function SymDiff(a: set<string>, b: set<string>): set<string> {
    (a - b) + (b - a)
  }

  /** How the schemas of a session differ from those of its successor; no answer if the session is gone. */
  function SchemaChanges(t: Tables, id: nat): Option<set<string>> {
    if id in t.rows then
      var next := t.rows[id].nextDev;
      Some(SymDiff(SessionSchemas(t, id), if next.Some? then SessionSchemas(t, next.value) else {}))
    else None
  }

  /** The schemas of any of some sessions. */
  function SchemasOfAny(t: Tables, ids: set<nat>): set<string> {
    set sch | sch in t.schemas && exists p :: p in ids && Use(p, t.schemas[sch]) in t.used
  }

  /** The schemas of the session that this one replaced. */
  function OldSchemas(t: Tables, id: nat): set<string> {
    SchemasOfAny(t, Predecessors(t.rows, id))
  }

  /** The schemas whose use is announced when a session is notified; nothing is if the session is gone. */
  function UsageNotified(t: Tables, id: nat): Option<set<string>> {
    if id in t.rows then Some(SymDiff(OldSchemas(t, id), SessionSchemas(t, id))) else None
  }

  /** The queries that take the first row have at most one, and one whenever the address was ever used. */
  lemma AddrAnswersUnique(t: Tables, addr: Address, bound: nat)
    requires Integrity(t) && forall i :: i in t.rows ==> i < bound
    ensures forall u, v :: u in AddrUuid(t, addr) && v in AddrUuid(t, addr) ==> u == v
    ensures forall a, b :: a in IsAddrOnline(t, addr) && b in IsAddrOnline(t, addr) ==> a == b
    ensures addr in t.addresses && (exists i :: i in t.rows && t.rows[i].address == t.addresses[addr]) ==>
              AddrUuid(t, addr) != {} && IsAddrOnline(t, addr) != {}
  {
    hide Chains;
    CurrentAddrUnique(t);
    if addr in t.addresses {
      if i :| i in t.rows && t.rows[i].address == t.addresses[addr] {
        SomeAddrAnswer(t, addr, i, bound);
      }
    }
  }

  lemma CurrentAddrUnique(t: Tables)
    requires Integrity(t)
    ensures forall i, j ::
      (i in t.rows && j in t.rows && t.rows[i].address == t.rows[j].address &&
       t.rows[i].nextAddr.None? && t.rows[j].nextAddr.None?) ==> i == j
  {
    assert ChainOk(ByAddress, t.rows);
    forall i, j |
      i in t.rows && j in t.rows && t.rows[i].address == t.rows[j].address &&
      t.rows[i].nextAddr.None? && t.rows[j].nextAddr.None?
      ensures i == j
    {
      assert Next(ByAddress, t.rows[i]).None? && Next(ByAddress, t.rows[j]).None?;
    }
  }

  lemma SomeAddrAnswer(t: Tables, addr: Address, i: nat, bound: nat)
    requires Integrity(t) && forall j :: j in t.rows ==> j < bound
    requires addr in t.addresses && i in t.rows && t.rows[i].address == t.addresses[addr]
    ensures AddrUuid(t, addr) != {} && IsAddrOnline(t, addr) != {}
  {
    hide Linked, OneCurrent, SupersededClosed;
    assert ChainOk(ByAddress, t.rows);
    var cur := CurrentRow(ByAddress, t.rows, i, bound);
    assert cur in t.rows.Keys;
    assert t.rows[cur].device in t.devices.Values;
    var u :| u in t.devices && t.devices[u] == t.rows[cur].device;
    assert u in AddrUuid(t, addr);
    assert t.rows[cur].Online() in IsAddrOnline(t, addr);
  }

  ghost predicate AtMostOne(s: set<nat>) {
    forall i, j :: i in s && j in s ==> i == j
  }

  lemma PredecessorUnique(t: Tables, id: nat)
    requires Integrity(t) && id in t.rows
    ensures AtMostOne(NotificationInfo(t, id).value.prev)
  {
    assert ChainOk(ByDevice, t.rows);
    forall i, j | i in t.rows && j in t.rows && t.rows[i].nextDev == Some(id) && t.rows[j].nextDev == Some(id)
      ensures i == j
    {
      assert Next(ByDevice, t.rows[i]) == Some(id) && Next(ByDevice, t.rows[j]) == Some(id);
    }
  }

  // ---- Pruning is invisible ----

  /** The delete, with the cascade to schema_used. */
  function Pruned(t: Tables, gone: set<nat>): Tables {
    t.(rows := t.rows - gone, used := set u | u in t.used && u.session !in gone)
  }

  lemma PrunedIntegrity(t: Tables, gone: set<nat>)
    requires Integrity(t) && Prunable(t.rows, gone)
    ensures Integrity(Pruned(t, gone))
  {
    hide Eligible, Chains;
    PruneKeepsChains(t.rows, gone);
  }

  /** A prune of one device takes rows of that device only, and each that may go. */
  lemma PruneTakes(rows: Rows, device: nat, i: nat)
    requires i in rows
    ensures i in EligibleOf(rows, device) ==> rows[i].device == device && Prunable(rows, {i})
    ensures i !in EligibleOf(rows, device) && rows[i].device == device ==> !Prunable(rows, {i})
  {
    hide Eligible;
    if Prunable(rows, {i}) {
      assert Eligible(rows, i);
    }
  }

  /** Every row with an empty next pointer stays, as it was. */
  lemma CurrentStay(t: Tables, gone: set<nat>, i: nat)
    requires Prunable(t.rows, gone) && i in t.rows && (t.rows[i].nextDev.None? || t.rows[i].nextAddr.None?)
    ensures i !in gone && (t.rows - gone)[i] == t.rows[i]
  {
  }

  lemma PruneInvisibleAddr(t: Tables, gone: set<nat>, addr: Address)
    requires Prunable(t.rows, gone)
    ensures AddrUuid(Pruned(t, gone), addr) == AddrUuid(t, addr)
    ensures IsAddrOnline(Pruned(t, gone), addr) == IsAddrOnline(t, addr)
  {
    hide Eligible;
    forall u | u in AddrUuid(t, addr) ensures u in AddrUuid(Pruned(t, gone), addr) {
      var i :| i in t.rows.Keys && t.rows[i].device == t.devices[u] &&
               t.rows[i].address == t.addresses[addr] && t.rows[i].nextAddr.None?;
      CurrentStay(t, gone, i);
      assert i in Pruned(t, gone).rows.Keys;
    }
    forall b | b in IsAddrOnline(t, addr) ensures b in IsAddrOnline(Pruned(t, gone), addr) {
      var i :| i in t.rows && t.rows[i].address == t.addresses[addr] &&
               t.rows[i].nextAddr.None? && t.rows[i].Online() == b;
      CurrentStay(t, gone, i);
      assert i in Pruned(t, gone).rows;
    }
    forall u | u in AddrUuid(Pruned(t, gone), addr) ensures u in AddrUuid(t, addr) {
      var i :| i in Pruned(t, gone).rows.Keys && Pruned(t, gone).rows[i].device == t.devices[u] &&
               Pruned(t, gone).rows[i].address == t.addresses[addr] && Pruned(t, gone).rows[i].nextAddr.None?;
      assert i in t.rows.Keys;
    }
  }

  lemma PruneInvisibleSchema(t: Tables, gone: set<nat>, schema: string)
    requires Prunable(t.rows, gone)
    ensures SchemaDevices(Pruned(t, gone), schema) == SchemaDevices(t, schema)
  {
    hide Eligible;
    forall u | u in SchemaDevices(t, schema) ensures u in SchemaDevices(Pruned(t, gone), schema) {
      var i :| i in t.rows.Keys && t.rows[i].device == t.devices[u] &&
               t.rows[i].nextDev.None? && Use(i, t.schemas[schema]) in t.used;
      CurrentStay(t, gone, i);
      assert i in Pruned(t, gone).rows.Keys;
    }
    forall u | u in SchemaDevices(Pruned(t, gone), schema) ensures u in SchemaDevices(t, schema) {
      var p := Pruned(t, gone);
      var i :| i in p.rows.Keys && p.rows[i].device == p.devices[u] &&
               p.rows[i].nextDev.None? && Use(i, p.schemas[schema]) in p.used;
      assert i in t.rows.Keys;
    }
  }

  lemma PruneInvisibleStatus(t: Tables, gone: set<nat>, u: string)
    requires Prunable(t.rows, gone)
    ensures DeviceStatus(Pruned(t, gone), u) == DeviceStatus(t, u)
  {
    hide Eligible;
    var p := Pruned(t, gone);
    forall i | i in t.rows && u in t.devices && t.rows[i].device == t.devices[u] && t.rows[i].nextDev.None?
      ensures i in p.rows && p.rows[i] == t.rows[i]
      ensures (set x | x in p.used && x.session == i :: x.schema) == (set x | x in t.used && x.session == i :: x.schema)
    {
      CurrentStay(t, gone, i);
      forall x | x in t.used && x.session == i ensures x in p.used {}
    }
    forall r | r in DeviceStatus(t, u) ensures r in DeviceStatus(p, u) {
      var i :| i in t.rows && u in t.devices && t.rows[i].device == t.devices[u] && t.rows[i].nextDev.None? &&
               r == (t.rows[i], set x | x in t.used && x.session == i :: x.schema);
      assert i in p.rows && p.rows[i].device == p.devices[u];
    }
    forall r | r in DeviceStatus(p, u) ensures r in DeviceStatus(t, u) {
      var i :| i in p.rows && u in p.devices && p.rows[i].device == p.devices[u] && p.rows[i].nextDev.None? &&
               r == (p.rows[i], set x | x in p.used && x.session == i :: x.schema);
      assert i in t.rows && t.rows[i] == p.rows[i];
    }
  }

  /** For a session that is current in its device chain, its predecessor included. */
  lemma PruneInvisibleInfo(t: Tables, gone: set<nat>, id: nat)
    requires Prunable(t.rows, gone) && id in t.rows && t.rows[id].nextDev.None?
    ensures NotificationInfo(Pruned(t, gone), id) == NotificationInfo(t, id)
  {
    CurrentStay(t, gone, id);
    forall j | j in t.rows && t.rows[j].nextDev == Some(id) ensures j !in gone {
      assert BeforeCurrent(ByDevice, t.rows, j);
    }
    var p := Pruned(t, gone);
    assert Predecessors(p.rows, id) == Predecessors(t.rows, id);
  }

  lemma SchemasStay(t: Tables, gone: set<nat>, id: nat)
    requires id !in gone
    ensures SessionSchemas(Pruned(t, gone), id) == SessionSchemas(t, id)
  {
  }

  /** Of a session that stays, current or not, the successor stays with its schemas. */
  lemma PruneInvisibleChanges(t: Tables, gone: set<nat>, id: nat)
    requires Prunable(t.rows, gone) && id in t.rows && id !in gone
    ensures SchemaChanges(Pruned(t, gone), id) == SchemaChanges(t, id)
  {
    SchemasStay(t, gone, id);
    if t.rows[id].nextDev.Some? {
      SchemasStay(t, gone, t.rows[id].nextDev.value);
    }
  }

  /**
   * What is announced of a session that stays is unchanged exactly if no
   * predecessor with schemas has gone, and a current session keeps its
   * predecessor.
   */
  lemma PruneInvisibleUsage(t: Tables, gone: set<nat>, id: nat)
    requires Integrity(t) && Prunable(t.rows, gone) && id in t.rows && id !in gone
    ensures UsageNotified(Pruned(t, gone), id) == UsageNotified(t, id) <==>
            forall p :: p in Predecessors(t.rows, id) && p in gone ==> SessionSchemas(t, p) == {}
    ensures t.rows[id].nextDev.None? ==> UsageNotified(Pruned(t, gone), id) == UsageNotified(t, id)
  {
    hide Integrity, Eligible;
    PredecessorUnique(t, id);
    SchemasStay(t, gone, id);
    if p :| p in Predecessors(t.rows, id) {
      OnePredecessor(t, id, p);
      if p in gone {
        LostPredecessor(t, gone, id, p);
      } else {
        KeptPredecessor(t, gone, id, p);
      }
      if t.rows[id].nextDev.None? {
        assert BeforeCurrent(ByDevice, t.rows, p);
        PredecessorStays(t, gone, p);
      }
    } else {
      NoPredecessor(t, gone, id);
    }
  }

  lemma PredecessorStays(t: Tables, gone: set<nat>, p: nat)
    requires Prunable(t.rows, gone) && p in t.rows && BeforeCurrent(ByDevice, t.rows, p)
    ensures p !in gone
  {
  }

  lemma OnePredecessor(t: Tables, id: nat, p: nat)
    requires p in Predecessors(t.rows, id)
    requires AtMostOne(Predecessors(t.rows, id))
    ensures OldSchemas(t, id) == SessionSchemas(t, p)
  {
  }

  lemma KeptPredecessor(t: Tables, gone: set<nat>, id: nat, p: nat)
    requires p in Predecessors(t.rows, id) && p !in gone && id !in gone
    requires AtMostOne(Predecessors(t.rows, id))
    ensures OldSchemas(Pruned(t, gone), id) == SessionSchemas(t, p)
  {
    var before, after := Predecessors(t.rows, id), Predecessors(Pruned(t, gone).rows, id);
    assert p in after && after <= before;
    OnePredecessor(Pruned(t, gone), id, p);
    SchemasStay(t, gone, p);
  }

  lemma LostPredecessor(t: Tables, gone: set<nat>, id: nat, p: nat)
    requires p in Predecessors(t.rows, id) && p in gone
    requires AtMostOne(Predecessors(t.rows, id))
    ensures OldSchemas(Pruned(t, gone), id) == {}
  {
    forall q ensures q !in Predecessors(Pruned(t, gone).rows, id) {
      assert q in Predecessors(Pruned(t, gone).rows, id) ==> q in Predecessors(t.rows, id);
    }
  }

  lemma NoPredecessor(t: Tables, gone: set<nat>, id: nat)
    requires Predecessors(t.rows, id) == {}
    ensures OldSchemas(Pruned(t, gone), id) == OldSchemas(t, id) == {}
  {
    forall q ensures q !in Predecessors(Pruned(t, gone).rows, id) {
      assert q in Predecessors(Pruned(t, gone).rows, id) ==> q in Predecessors(t.rows, id);
    }
  }

  /** What is announced of a session with a predecessor is how the schemas of that one differ from its own. */
  lemma UsageIsChanges(t: Tables, id: nat, p: nat)
    requires Integrity(t) && id in t.rows && p in Predecessors(t.rows, id)
    ensures UsageNotified(t, id) == SchemaChanges(t, p)
  {
    hide Integrity;
    PredecessorUnique(t, id);
    OnePredecessor(t, id, p);
  }

  // ---- What transactions leave of older sessions ----

  /** An older session that is still there has the schemas it had, and the successor if it had one. */
  ghost predicate SessionKept(t: Tables, u: Tables, i: nat) {
    && i in t.rows && i in u.rows && SessionSchemas(u, i) == SessionSchemas(t, i)
    && (t.rows[i].nextDev.Some? ==> u.rows[i].nextDev == t.rows[i].nextDev)
  }

  /** `p` was directly before a session that is current now. */
  ghost predicate BeforeCurrentNow(t: Tables, u: Tables, p: nat, id: nat) {
    && p in t.rows && t.rows[p].nextDev == Some(id)
    && id in u.rows && u.rows[id].nextDev.None?
  }

  /**
   * `u` can be what became of the tables `t`, where session numbers below `n`
   * had been given out, and by now those below `m`.
   */
  ghost predicate Ages(t: Tables, n: nat, u: Tables, m: nat) {
    && n <= m
    && (forall i :: i in t.rows ==> i < n)
    && (forall i :: i in u.rows ==> i < m)
    && (forall i :: i in u.rows && i < n ==> SessionKept(t, u, i))
    && (forall p: nat, id: nat :: BeforeCurrentNow(t, u, p, id) ==> p in u.rows && u.rows[p].nextDev == Some(id))
  }

  lemma AgesNot(t: Tables, n: nat)
    requires forall i :: i in t.rows ==> i < n
    ensures Ages(t, n, t, n)
  {
  }

  lemma AgesOn(t: Tables, n: nat, u: Tables, m: nat, v: Tables, k: nat)
    requires Integrity(t) && Ages(t, n, u, m) && Ages(u, m, v, k)
    ensures Ages(t, n, v, k)
  {
    hide Integrity, SessionSchemas;
    forall i | i in v.rows && i < n ensures SessionKept(t, v, i) {
      assert SessionKept(u, v, i) && SessionKept(t, u, i);
    }
    forall p: nat, id: nat | BeforeCurrentNow(t, v, p, id) ensures p in v.rows && v.rows[p].nextDev == Some(id) {
      NextThere(t, p);
      assert SessionKept(u, v, id);
      assert BeforeCurrentNow(t, u, p, id);
      assert BeforeCurrentNow(u, v, p, id);
    }
  }

  lemma NextThere(t: Tables, p: nat)
    requires Integrity(t) && p in t.rows && t.rows[p].nextDev.Some?
    ensures t.rows[p].nextDev.value in t.rows
  {
    hide OneCurrent, SupersededClosed;
    assert ChainOk(ByDevice, t.rows);
    assert Next(ByDevice, t.rows[p]).Some?;
  }

  /** New schemas have keys that no older use has. */
  lemma SchemasKept(t: Tables, u: Tables, i: nat)
    requires Integrity(t) && Injective(u.schemas)
    requires forall x :: x in t.schemas ==> x in u.schemas && u.schemas[x] == t.schemas[x]
    requires forall x: Use :: x.session == i ==> (x in u.used <==> x in t.used)
    ensures SessionSchemas(u, i) == SessionSchemas(t, i)
  {
    hide Chains;
    forall s | s in SessionSchemas(u, i) ensures s in SessionSchemas(t, i) {
      assert Use(i, u.schemas[s]) in t.used;
      assert u.schemas[s] in t.schemas.Values;
      var s' :| s' in t.schemas && t.schemas[s'] == u.schemas[s];
      assert s' == s;
    }
    forall s | s in SessionSchemas(t, i) ensures s in SessionSchemas(u, i) {
      assert u.schemas[s] == t.schemas[s];
    }
  }

  lemma BirthAges(t: Tables, n: nat, u: Tables, m: nat, sess: nat, r: Session)
    requires Integrity(t) && Injective(u.schemas) && n <= sess < m && n <= m
    requires (forall i :: i in t.rows ==> i < n) && (forall i :: i in u.rows ==> i < m)
    requires Born(t.rows, u.rows, sess, r)
    requires forall x :: x in t.schemas ==> x in u.schemas && u.schemas[x] == t.schemas[x]
    requires t.used <= u.used && forall x :: x in u.used && x !in t.used ==> x.session == sess
    ensures Ages(t, n, u, m)
  {
    hide Integrity, Injective, SessionSchemas;
    forall i | i in u.rows && i < n ensures SessionKept(t, u, i) {
      SchemasKept(t, u, i);
    }
  }

  /** Nothing but finish times changes. */
  lemma ClosingAges(t: Tables, n: nat, u: Tables)
    requires (forall i :: i in t.rows ==> i < n) && u == t.(rows := u.rows) && u.rows.Keys == t.rows.Keys
    requires forall i :: i in t.rows ==> u.rows[i].nextDev == t.rows[i].nextDev
    ensures Ages(t, n, u, n)
  {
    forall i | i in u.rows ensures SessionKept(t, u, i) {
      assert SessionSchemas(u, i) == SessionSchemas(t, i);
    }
  }

  lemma UnbornAges(t: Tables, n: nat, u: Tables, m: nat)
    requires Integrity(t) && Integrity(u) && n <= m
    requires (forall i :: i in t.rows ==> i < n) && u.rows == t.rows && u.used == t.used
    requires forall x :: x in t.schemas ==> x in u.schemas && u.schemas[x] == t.schemas[x]
    ensures Ages(t, n, u, m)
  {
    hide Integrity, Injective, SessionSchemas;
    InjectiveNow(u);
    forall i | i in u.rows ensures SessionKept(t, u, i) {
      SchemasKept(t, u, i);
    }
  }

  lemma PruneAges(t: Tables, n: nat, gone: set<nat>)
    requires (forall i :: i in t.rows ==> i < n) && Prunable(t.rows, gone)
    ensures Ages(t, n, Pruned(t, gone), n)
  {
    hide Eligible, SessionSchemas;
    var u := Pruned(t, gone);
    forall i | i in u.rows ensures SessionKept(t, u, i) {
      SchemasStay(t, gone, i);
    }
    forall p: nat, id: nat | BeforeCurrentNow(t, u, p, id) ensures p in u.rows && u.rows[p].nextDev == Some(id) {
      assert BeforeCurrent(ByDevice, t.rows, p);
      PredecessorStays(t, gone, p);
    }
  }

  // ---- The tables and their transactions ----

  predicate IsHex(c: char) {
    '0' <= c <= '9' || 'a' <= c <= 'f'
  }

  predicate ValidUuid(s: string) {
    |s| == 36 && forall i :: 0 <= i < 36 ==> if i in {8, 13, 18, 23} then s[i] == '-' else IsHex(s[i])
  }

  /** The address a DEATH message covers: a node's covers all devices of the node. */
  predicate Covers(death: Address, addr: Address) {
    addr.group == death.group && addr.node == death.node && (death.device == "" || addr.device == death.device)
  }

  /** The rows a DEATH message closes. */
  predicate DeathCloses(addresses: map<Address, nat>, death: Address, r: Session) {
    r.Online() && exists a :: a in addresses && addresses[a] == r.address && Covers(death, a)
  }

  /** A row of an address is closed if it is online and the message is for the address or for its whole node. */
  lemma DeathAt(t: Tables, death: Address)
    requires Integrity(t)
    ensures forall a, i :: a in t.addresses && i in t.rows && t.rows[i].address == t.addresses[a] ==>
      (DeathCloses(t.addresses, death, t.rows[i]) <==>
       t.rows[i].Online() && a.group == death.group && a.node == death.node &&
       (death.device == "" || a.device == death.device))
  {
    hide Chains;
  }

  datatype Event =
    | BirthOf(addr: Address, uuid: Option<string>, madeUp: string, time: int, topSchema: string,
              schemaUuids: seq<string>)
    | DeathOf(death: Address, at: Option<int>)
    | Restart(now: int)
    | PruneOf(device: nat)

  /** `after` is `before` with a use by the session of each valid schema UUID in the list, and no other. */
  ghost predicate Uses(before: set<Use>, after: set<Use>, session: nat, uuids: seq<string>, schemas: map<string, nat>) {
    && (forall i :: 0 <= i < |uuids| && ValidUuid(uuids[i]) ==>
          uuids[i] in schemas && Use(session, schemas[uuids[i]]) in after)
    && before <= after
    && forall u :: u in after && u !in before ==> u.session == session && SomeUse(u.schema, uuids, schemas)
  }

  ghost predicate SomeUse(schema: nat, uuids: seq<string>, schemas: map<string, nat>) {
    exists i :: 0 <= i < |uuids| && ValidUuid(uuids[i]) && uuids[i] in schemas && schemas[uuids[i]] == schema
  }

  lemma UsesNone(used: set<Use>, session: nat, schemas: map<string, nat>)
    ensures Uses(used, used, session, [], schemas)
  {
  }

  lemma UsesStep(before: set<Use>, mid: set<Use>, after: set<Use>, session: nat, uuids: seq<string>, i: nat,
                 known: map<string, nat>, schemas: map<string, nat>)
    requires i < |uuids| && Uses(before, mid, session, uuids[..i], known)
    requires forall x :: x in known ==> x in schemas && schemas[x] == known[x]
    requires ValidUuid(uuids[i]) ==> uuids[i] in schemas
    requires after == if ValidUuid(uuids[i]) then mid + {Use(session, schemas[uuids[i]])} else mid
    ensures Uses(before, after, session, uuids[..i + 1], schemas)
  {
    hide ValidUuid;
    var longer := uuids[..i + 1];
    forall j | 0 <= j < |longer| && ValidUuid(longer[j])
      ensures longer[j] in schemas && Use(session, schemas[longer[j]]) in after
    {
      if j < i {
        assert uuids[..i][j] == longer[j];
      }
    }
    forall u | u in after && u !in before ensures u.session == session && SomeUse(u.schema, longer, schemas) {
      if u in mid {
        assert SomeUse(u.schema, uuids[..i], known);
        var j :| 0 <= j < i && ValidUuid(uuids[..i][j]) && uuids[..i][j] in known && known[uuids[..i][j]] == u.schema;
        assert longer[j] == uuids[..i][j];
      } else {
        assert longer[i] == uuids[i];
      }
    }
  }

  /** A birth of the device `uuid` at `addr` took the tables `t` to `u`, with the new session `sess`. */
  ghost predicate Bore(t: Tables, u: Tables, addr: Address, uuid: string, sess: nat) {
    && Integrity(t) && Integrity(u) && sess !in t.rows && sess in u.rows
    && uuid in u.devices && addr in u.addresses
    && (forall v :: v in t.devices ==> v in u.devices && u.devices[v] == t.devices[v])
    && (forall a :: a in t.addresses ==> a in u.addresses && u.addresses[a] == t.addresses[a])
    && (forall x :: x in t.schemas ==> x in u.schemas && u.schemas[x] == t.schemas[x])
    && Born(t.rows, u.rows, sess,
            Session(u.devices[uuid], u.addresses[addr], u.rows[sess].start, None, u.rows[sess].topSchema, None, None))
  }

  lemma BoreNow(t: Tables, u: Tables, addr: Address, uuid: string, sess: nat, time: int)
    requires Integrity(t) && Integrity(u) && sess !in t.rows && sess in u.rows
    requires uuid in u.devices && addr in u.addresses
    requires forall v :: v in t.devices ==> v in u.devices && u.devices[v] == t.devices[v]
    requires forall a :: a in t.addresses ==> a in u.addresses && u.addresses[a] == t.addresses[a]
    requires forall x :: x in t.schemas ==> x in u.schemas && u.schemas[x] == t.schemas[x]
    requires Born(t.rows, u.rows, sess,
                  Session(u.devices[uuid], u.addresses[addr], time, None, u.rows[sess].topSchema, None, None))
    ensures Bore(t, u, addr, uuid, sess) && u.rows[sess].start == time
  {
    hide Integrity;
  }

  /** A DEATH message for this address, or one for the whole node, took the tables `t` to `u`. */
  ghost predicate Died(t: Tables, u: Tables, death: Address, time: int) {
    && Integrity(t) && u == t.(rows := u.rows) && u.rows.Keys == t.rows.Keys
    && forall a, i ::
         a in t.addresses && i in t.rows && t.rows[i].address == t.addresses[a] ==>
         u.rows[i] == if t.rows[i].Online() && a.group == death.group && a.node == death.node &&
                         (death.device == "" || a.device == death.device)
                      then t.rows[i].(finish := Some(time)) else t.rows[i]
  }

  lemma DiedNow(t: Tables, u: Tables, death: Address, time: int)
    requires Integrity(t) && u == t.(rows := u.rows) && u.rows.Keys == t.rows.Keys
    requires forall i :: i in t.rows ==>
      u.rows[i] == if DeathCloses(t.addresses, death, t.rows[i]) then t.rows[i].(finish := Some(time)) else t.rows[i]
    ensures Died(t, u, death, time)
  {
    hide Integrity, DeathCloses;
    DeathAt(t, death);
  }

  class Directory {
    var rows: Rows
    var devices: map<string, nat>
    var addresses: map<Address, nat>
    var schemas: map<string, nat>
    var missing: map<nat, string>
    var used: set<Use>
    var nextSession: nat
    var nextKey: nat

    function View(): Tables
      reads this
    {
      Tables(rows, devices, addresses, schemas, used)
    }

    ghost predicate Valid()
      reads this
    {
      && Integrity(View())
      && (forall i :: i in rows ==> i < nextSession)
      && Below(devices, nextKey) && Below(addresses, nextKey) && Below(schemas, nextKey)
    }

    constructor ()
      ensures Valid() && rows == map[] && devices == map[] && addresses == map[]
    {
      rows, devices, addresses, schemas, missing, used := map[], map[], map[], map[], map[], {};
      nextSession, nextKey := 0, 0;
    }

    method FindOrCreateDevice(uuid: string) returns (id: Option<nat>)
      requires Valid()
      modifies this`devices, this`nextKey
      ensures Valid()
      ensures id == if ValidUuid(uuid) then (if uuid in old(devices) then Some(old(devices)[uuid]) else Some(old(nextKey)))
                    else None
      ensures devices == if id.Some? then old(devices)[uuid := id.value] else old(devices)
    {
      hide Chains;
      if !ValidUuid(uuid) {
        return None;
      }
      if uuid !in devices {
        devices := devices[uuid := nextKey];
        nextKey := nextKey + 1;
        MoreValues(old(devices), uuid, old(nextKey));
      }
      assert devices == old(devices)[uuid := devices[uuid]];
      return Some(devices[uuid]);
    }

    method FindOrCreateAddress(addr: Address) returns (id: nat)
      requires Valid()
      modifies this`addresses, this`nextKey
      ensures Valid()
      ensures id == if addr in old(addresses) then old(addresses)[addr] else old(nextKey)
      ensures addresses == old(addresses)[addr := id]
    {
      hide Chains;
      if addr !in addresses {
        addresses := addresses[addr := nextKey];
        nextKey := nextKey + 1;
        MoreValues(old(addresses), addr, old(nextKey));
      }
      assert addresses == old(addresses)[addr := addresses[addr]];
      return addresses[addr];
    }

    method FindOrCreateSchema(uuid: string) returns (id: Option<nat>)
      requires Valid()
      modifies this`schemas, this`nextKey
      ensures Valid()
      ensures id == if ValidUuid(uuid) then (if uuid in old(schemas) then Some(old(schemas)[uuid]) else Some(old(nextKey)))
                    else None
      ensures schemas == if id.Some? then old(schemas)[uuid := id.value] else old(schemas)
    {
      hide Chains;
      if !ValidUuid(uuid) {
        return None;
      }
      if uuid !in schemas {
        schemas := schemas[uuid := nextKey];
        nextKey := nextKey + 1;
        MoreValues(old(schemas), uuid, old(nextKey));
      }
      assert schemas == old(schemas)[uuid := schemas[uuid]];
      return Some(schemas[uuid]);
    }

    /** The update that makes a new session the successor of the current one in one chain. */
    method LinkIn(c: Chain, sess: nat, key: nat, time: int)
      modifies this`rows
      ensures Superseded(c, old(rows), rows, sess, key, time)
    {
      ghost var before := rows;
      var todo := rows.Keys - {sess};
      while todo != {}
        invariant rows.Keys == before.Keys && todo <= before.Keys - {sess}
        invariant forall i :: i in before ==>
          rows[i] == if i in todo || i == sess then before[i] else Supersede(c, before[i], sess, key, time)
      {
        var i :| i in todo;
        rows := rows[i := Supersede(c, rows[i], sess, key, time)];
        todo := todo - {i};
      }
    }

    /** Insert a session and make it the current one of its device and of its address. */
    method RecordBirth(device: nat, address: nat, time: int, topSchema: Option<nat>) returns (sess: nat)
      requires Valid() && device in devices.Values && address in addresses.Values
      modifies this`rows, this`nextSession
      ensures Valid() && sess == old(nextSession) && sess !in old(rows) && nextSession == sess + 1
      ensures Born(old(rows), rows, sess, Session(device, address, time, None, topSchema, None, None))
    {
      hide Chains, Superseded, Born, Integrity, Injective;
      sess := nextSession;
      ghost var t0 := View();
      ChainsNow(t0);
      nextSession := nextSession + 1;
      ghost var r := Session(device, address, time, None, topSchema, None, None);
      ghost var before := rows;
      rows := rows[sess := Session(device, address, time, None, topSchema, None, None)];
      ghost var ins := rows;
      LinkIn(ByDevice, sess, device, time);
      ghost var upd := rows;
      LinkIn(ByAddress, sess, address, time);
      BirthKeepsChains(before, ins, upd, rows, sess, r);
      BornKeys(before, rows, sess, r);
      BirthIntegrity(t0, View(), sess, r);
    }

    /** Close every online session that the message covers. A DEATH without a time is refused. */
    method RecordDeath(time: Option<int>, death: Address) returns (ok: bool)
      requires Valid()
      modifies this`rows
      ensures Valid() && ok == time.Some?
      ensures !ok ==> rows == old(rows)
      ensures Ages(old(View()), nextSession, View(), nextSession)
      ensures ok ==> Died(old(View()), View(), death, time.value)
    {
      hide Chains, DeathCloses, Ages, Injective, Below, Died;
      if time.None? {
        AgesNot(View(), nextSession);
        return false;
      }
      ghost var before := rows;
      var todo := rows.Keys;
      while todo != {}
        invariant rows.Keys == before.Keys && todo <= before.Keys
        invariant forall i :: i in before ==>
          rows[i] == if i !in todo && DeathCloses(addresses, death, before[i]) then before[i].(finish := time)
                     else before[i]
      {
        var i :| i in todo;
        if DeathCloses(addresses, death, rows[i]) {
          rows := rows[i := rows[i].(finish := time)];
        }
        todo := todo - {i};
      }
      DeathOnlyCloses(before, rows, addresses, death, time);
      ClosingKeepsChains(before, rows);
      ClosingAges(old(View()), nextSession, View());
      DiedNow(old(View()), View(), death, time.value);
      return true;
    }

    /** After a restart: whatever is open is closed. */
    method CloseAllSessions(time: int)
      requires Valid()
      modifies this`rows
      ensures Valid() && rows.Keys == old(rows).Keys
      ensures Ages(old(View()), nextSession, View(), nextSession)
      ensures forall i :: i in rows ==> rows[i] == old(rows)[i].(finish := Close(old(rows)[i].finish, time))
    {
      hide Chains, Ages;
      ghost var before := rows;
      var todo := rows.Keys;
      while todo != {}
        invariant rows.Keys == before.Keys && todo <= before.Keys
        invariant forall i :: i in before ==>
          rows[i] == if i in todo then before[i] else before[i].(finish := Close(before[i].finish, time))
      {
        var i :| i in todo;
        if rows[i].Online() {
          rows := rows[i := rows[i].(finish := Some(time))];
        }
        todo := todo - {i};
      }
      ClosingKeepsChains(before, rows);
      ClosingAges(old(View()), nextSession, View());
    }

    /** Delete the prunable history of one device; the rest of the tables is untouched. */
    method PruneDeviceSessions(device: nat) returns (count: nat)
      requires Valid()
      modifies this`rows, this`used
      ensures Valid()
      ensures View() == Pruned(old(View()), EligibleOf(old(rows), device))
      ensures Ages(old(View()), nextSession, View(), nextSession)
      ensures count == |EligibleOf(old(rows), device)|
      ensures Prunable(old(rows), EligibleOf(old(rows), device))
    {
      hide Chains, Eligible, Ages;
      var gone := EligibleOf(rows, device);
      PrunedIntegrity(View(), gone);
      PruneAges(View(), nextSession, gone);
      count := |gone|;
      rows := rows - gone;
      used := set u | u in used && u.session !in gone;
    }

    method RecordSchema(session: nat, schema: string)
      requires Valid() && session in rows
      modifies this`schemas, this`nextKey, this`used
      ensures Valid()
      ensures ValidUuid(schema) ==> schema in schemas
      ensures schema in schemas || schemas == old(schemas)
      ensures forall x :: x in old(schemas) ==> x in schemas && schemas[x] == old(schemas)[x]
      ensures used == if ValidUuid(schema) then old(used) + {Use(session, schemas[schema])} else old(used)
    {
      hide Chains;
      var id := FindOrCreateSchema(schema);
      if id.Some? {
        assert schemas[schema] == id.value;
        used := used + {Use(session, id.value)};
      }
    }

    /** The UUID that the database makes up for an address, unless it has done so before. */
    method FindOrCreateMissingUuid(address: nat, madeUp: string) returns (uuid: string)
      modifies this`missing
      ensures missing == if address in old(missing) then old(missing) else old(missing)[address := madeUp]
      ensures uuid == missing[address]
    {
      if address !in missing {
        missing := missing[address := madeUp];
      }
      uuid := missing[address];
    }

    method RecordSchemas(session: nat, uuids: seq<string>)
      requires Valid() && session in rows
      modifies this`schemas, this`nextKey, this`used
      ensures Valid()
      ensures Uses(old(used), used, session, uuids, schemas)
      ensures forall x :: x in old(schemas) ==> x in schemas && schemas[x] == old(schemas)[x]
    {
      hide Chains, Uses, Integrity, Injective, Below, ValidUuid;
      UsesNone(used, session, schemas);
      assert uuids[..0] == [];
      for i := 0 to |uuids|
        invariant Valid() && Uses(old(used), used, session, uuids[..i], schemas)
        invariant forall x :: x in old(schemas) ==> x in schemas && schemas[x] == old(schemas)[x]
      {
        ghost var mid, known := used, schemas;
        RecordSchema(session, uuids[i]);
        UsesStep(old(used), mid, used, session, uuids, i, known, schemas);
      }
      assert uuids[..|uuids|] == uuids;
    }

    /** Record a session with its schemas. */
    method RecordSession(device: nat, address: nat, time: int, topSchema: string, schemaUuids: seq<string>)
      returns (sess: nat)
      requires Valid() && device in devices.Values && address in addresses.Values
      modifies this`rows, this`nextSession, this`schemas, this`nextKey, this`used
      ensures Valid() && sess !in old(rows) && sess in rows
      ensures Born(old(rows), rows, sess, Session(device, address, time, None, rows[sess].topSchema, None, None))
      ensures if ValidUuid(topSchema) then topSchema in schemas && rows[sess].topSchema == Some(schemas[topSchema])
              else rows[sess].topSchema == None
      ensures Uses(old(used), used, sess, schemaUuids, schemas)
      ensures forall x :: x in old(schemas) ==> x in schemas && schemas[x] == old(schemas)[x]
      ensures Ages(old(View()), old(nextSession), View(), nextSession)
    {
      hide Chains, Born, Uses, Integrity, Injective, Below, ValidUuid, Ages;
      ghost var t, n := View(), nextSession;
      var top := FindOrCreateSchema(topSchema);
      sess := RecordBirth(device, address, time, top);
      ghost var r := Session(device, address, time, None, top, None, None);
      BornNew(old(rows), rows, sess, r);
      RecordSchemas(sess, schemaUuids);
      BirthRecorded(t, n, View(), nextSession, sess, r, schemaUuids);
    }

    /**
     * The address and the device of a birth, made if need be. `madeUp` is the
     * UUID that the database would make up for an address whose birth names no
     * device.
     */
    method Identify(addr: Address, uuid: Option<string>, madeUp: string)
      returns (addrid: nat, device: string, devid: Option<nat>)
      requires Valid()
      modifies this`addresses, this`devices, this`missing, this`nextKey
      ensures Valid()
      ensures addresses == old(addresses)[addr := addrid] && (addr in old(addresses) ==> old(addresses)[addr] == addrid)
      ensures missing == if uuid.Some? || addrid in old(missing) then old(missing) else old(missing)[addrid := madeUp]
      ensures if uuid.Some? then device == uuid.value else addrid in missing && device == missing[addrid]
      ensures devid.Some? <==> ValidUuid(device)
      ensures devid.Some? ==> devices == old(devices)[device := devid.value]
      ensures devid.Some? && device in old(devices) ==> old(devices)[device] == devid.value
      ensures Ages(old(View()), nextSession, View(), nextSession)
    {
      hide Chains, Integrity, Injective, Below, ValidUuid, Ages;
      ghost var t := View();
      addrid := FindOrCreateAddress(addr);
      if uuid.Some? {
        device := uuid.value;
      } else {
        device := FindOrCreateMissingUuid(addrid, madeUp);
      }
      devid := FindOrCreateDevice(device);
      UnbornAges(t, nextSession, View(), nextSession);
    }

    /**
     * The birth transaction: an invalid device UUID records no session.
     */
    method Birth(addr: Address, uuid: Option<string>, madeUp: string, time: int, topSchema: string,
                 schemaUuids: seq<string>) returns (sess: Option<nat>)
      requires Valid()
      modifies this
      ensures Valid()
      ensures addr in addresses
      ensures missing == if uuid.Some? || addresses[addr] in old(missing) then old(missing)
                         else old(missing)[addresses[addr] := madeUp]
      ensures sess.Some? <==> ValidUuid(if uuid.Some? then uuid.value else missing[addresses[addr]])
      ensures sess.None? ==> rows == old(rows) && used == old(used)
      ensures sess.Some? ==> sess.value !in old(rows) && sess.value in rows
      ensures sess.Some? ==>
        var named := if uuid.Some? then uuid.value else missing[addresses[addr]];
        && Bore(old(View()), View(), addr, named, sess.value)
        && rows[sess.value].start == time
      ensures sess.Some? && !ValidUuid(topSchema) ==> rows[sess.value].topSchema == None
      ensures sess.Some? && ValidUuid(topSchema) ==>
        topSchema in schemas && rows[sess.value].topSchema == Some(schemas[topSchema])
      ensures sess.Some? ==> Uses(old(used), used, sess.value, schemaUuids, schemas)
      ensures Ages(old(View()), old(nextSession), View(), nextSession)
    {
      hide Chains, Born, Bore, Uses, Integrity, Injective, Below, ValidUuid, Ages;
      ghost var t, n := View(), nextSession;
      var addrid, device, devid := Identify(addr, uuid, madeUp);
      if devid.None? {
        return None;
      }
      ghost var u := View();
      assert devices[device] == devid.value && addresses[addr] == addrid;
      var s := RecordSession(devid.value, addrid, time, topSchema, schemaUuids);
      AgesOn(t, n, u, n, View(), nextSession);
      BoreNow(t, View(), addr, device, s, time);
      return Some(s);
    }

    /**
     * Any run of births, deaths, restarts and prunes. After it, each device
     * and each address has at most one session that is online.
     */
    method Run(events: seq<Event>)
      requires Valid()
      modifies this
      ensures Valid()
      ensures Ages(old(View()), old(nextSession), View(), nextSession)
      ensures forall i, j ::
        (i in rows && j in rows && rows[i].Online() && rows[j].Online() &&
         (rows[i].device == rows[j].device || rows[i].address == rows[j].address)) ==> i == j
    {
      hide Chains, Integrity, Valid, Ages;
      ghost var t, n := View(), nextSession;
      NumbersNow();
      AgesNot(t, n);
      for k := 0 to |events|
        invariant Valid() && Ages(t, n, View(), nextSession)
      {
        ghost var u, m := View(), nextSession;
        match events[k] {
          case BirthOf(addr, uuid, madeUp, time, topSchema, schemaUuids) =>
            var sess := Birth(addr, uuid, madeUp, time, topSchema, schemaUuids);
          case DeathOf(addr, time) =>
            var ok := RecordDeath(time, addr);
          case Restart(time) =>
            CloseAllSessions(time);
          case PruneOf(device) =>
            var count := PruneDeviceSessions(device);
        }
        AgesOn(t, n, u, m, View(), nextSession);
      }
      IntegrityNow();
      ChainsNow(View());
      forall i, j |
        i in rows && j in rows && rows[i].Online() && rows[j].Online() &&
        (rows[i].device == rows[j].device || rows[i].address == rows[j].address)
        ensures i == j
      {
        OneOnline(if rows[i].device == rows[j].device then ByDevice else ByAddress, rows, i, j);
      }
    }

    lemma IntegrityNow()
      requires Valid()
      ensures Integrity(View())
    {
    }

    lemma NumbersNow()
      requires Valid()
      ensures Integrity(View()) && forall i :: i in rows ==> i < nextSession
    {
      hide Integrity;
    }

    /**
     * Prune devices, in any order, until no prune deletes anything. Whatever
     * the order, what is left is the rows reachable from a current row or from
     * the row directly before one.
     */
    method PruneUntilDone()
      requires Valid()
      modifies this`rows, this`used
      ensures Valid()
      ensures rows == old(rows) - (old(rows).Keys - ReachableOf(old(rows)))
      ensures NothingEligible(rows)
    {
      hide Chains, Eligible, Reachable, Integrity, NothingEligible, Prunable;
      ghost var before := rows;
      var idle := false;
      AllOfThem(before);
      while !idle
        invariant Valid() && ReachableOf(rows) == ReachableOf(before)
        invariant rows.Keys <= before.Keys && rows == before - (before.Keys - rows.Keys)
        invariant idle ==> NothingEligible(rows)
        decreases !idle, |rows|
      {
        idle := !exists i :: i in rows.Keys && Eligible(rows, i);
        if idle {
          NoneLeft(rows);
        } else {
          var i :| i in rows.Keys && Eligible(rows, i);
          ghost var was := rows;
          InEligible(rows, i);
          ChainsNow(View());
          PruneTowardsEnd(rows, EligibleOf(rows, rows[i].device));
          var n := PruneDeviceSessions(rows[i].device);
          assert before - (before.Keys - rows.Keys) == was - (was.Keys - rows.Keys);
          assert i in was && i !in rows;
          FewerRows(was, rows);
        }
      }
      ChainsNow(View());
      EndIsReachable(rows);
    }
  }

  // ---- Steps of the methods ----

  lemma MoreValues<K>(m: map<K, nat>, k: K, n: nat)
    requires k !in m
    ensures m.Values <= m[k := n].Values
  {
    forall v | v in m.Values ensures v in m[k := n].Values {
      var k' :| k' in m && m[k'] == v;
      assert k' in m[k := n] && m[k := n][k'] == v;
    }
  }

  lemma BornKeys(rows: Rows, rows': Rows, sess: nat, r: Session)
    requires Born(rows, rows', sess, r)
    ensures rows'.Keys == rows.Keys + {sess} && rows'[sess] == r
    ensures forall i :: i in rows ==> rows'[i].device == rows[i].device && rows'[i].address == rows[i].address
  {
  }

  lemma BirthIntegrity(t: Tables, t': Tables, sess: nat, r: Session)
    requires Integrity(t) && Chains(t'.rows) && t' == t.(rows := t'.rows)
    requires t'.rows.Keys == t.rows.Keys + {sess} && t'.rows[sess] == r
    requires forall i :: i in t.rows && i != sess ==>
      t'.rows[i].device == t.rows[i].device && t'.rows[i].address == t.rows[i].address
    requires r.device in t.devices.Values && r.address in t.addresses.Values
    ensures Integrity(t')
  {
    hide Chains;
  }

  lemma BornNew(rows: Rows, rows': Rows, sess: nat, r: Session)
    requires Born(rows, rows', sess, r)
    ensures sess in rows' && rows'[sess] == r
  {
  }

  lemma DeathOnlyCloses(rows: Rows, rows': Rows, addresses: map<Address, nat>, death: Address, time: Option<int>)
    requires rows'.Keys == rows.Keys && time.Some?
    requires forall i :: i in rows ==>
      rows'[i] == if DeathCloses(addresses, death, rows[i]) then rows[i].(finish := time) else rows[i]
    ensures OnlyCloses(rows, rows')
  {
  }

  lemma ChainsNow(t: Tables)
    requires Integrity(t)
    ensures Chains(t.rows)
  {
  }

  lemma InjectiveNow(t: Tables)
    requires Integrity(t)
    ensures Injective(t.schemas)
  {
    hide Chains, Injective;
  }

  lemma UsesOnly(before: set<Use>, after: set<Use>, session: nat, uuids: seq<string>, schemas: map<string, nat>)
    requires Uses(before, after, session, uuids, schemas)
    ensures before <= after && forall u :: u in after && u !in before ==> u.session == session
  {
    hide SomeUse, ValidUuid;
  }

  lemma BirthRecorded(t: Tables, n: nat, u: Tables, m: nat, sess: nat, r: Session, uuids: seq<string>)
    requires Integrity(t) && Integrity(u) && n <= sess < m
    requires (forall i :: i in t.rows ==> i < n) && (forall i :: i in u.rows ==> i < m)
    requires Born(t.rows, u.rows, sess, r) && Uses(t.used, u.used, sess, uuids, u.schemas)
    requires forall x :: x in t.schemas ==> x in u.schemas && u.schemas[x] == t.schemas[x]
    ensures Ages(t, n, u, m)
  {
    hide Integrity, Born, Uses, Ages;
    UsesOnly(t.used, u.used, sess, uuids, u.schemas);
    InjectiveNow(u);
    BirthAges(t, n, u, m, sess, r);
  }

  lemma NoneLeft(rows: Rows)
    requires !exists i :: i in rows.Keys && Eligible(rows, i)
    ensures NothingEligible(rows)
  {
    forall i | i in rows ensures !Eligible(rows, i) {
      assert i in rows.Keys;
    }
  }

  lemma InEligible(rows: Rows, i: nat)
    requires i in rows && Eligible(rows, i)
    ensures i in EligibleOf(rows, rows[i].device) && Prunable(rows, EligibleOf(rows, rows[i].device))
  {
  }

  lemma AllOfThem(rows: Rows)
    ensures rows == rows - (rows.Keys - rows.Keys)
  {
  }

  lemma FewerRows(was: Rows, rows: Rows)
    requires rows.Keys < was.Keys
    ensures |rows| < |was|
  {
    assert |was.Keys| == |rows.Keys| + |was.Keys - rows.Keys| by {
      assert was.Keys == rows.Keys + (was.Keys - rows.Keys);
    }
    assert |rows| == |rows.Keys| && |was| == |was.Keys|;
  }
}
