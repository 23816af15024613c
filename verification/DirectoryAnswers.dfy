/** What the Directory's queries answer after a birth and after a death. */
module DirectoryAnswers {
  import opened Basics
  import opened Sessions
  import opened Directories

  predicate HexDigits(s: string, n: nat) {
    |s| == n && forall i :: 0 <= i < n ==> s[i] in "0123456789abcdef"
  }

  /** Five groups of lower-case hexadecimal digits with dashes between them. */
  ghost predicate Grouped(s: string) {
    exists a, b, c, d, e ::
      && HexDigits(a, 8) && HexDigits(b, 4) && HexDigits(c, 4) && HexDigits(d, 4) && HexDigits(e, 12)
      && s == a + "-" + b + "-" + c + "-" + d + "-" + e
  }

  lemma ValidUuidIs(s: string)
    ensures ValidUuid(s) <==> Grouped(s)
  {
    if ValidUuid(s) {
      var a, b, c, d, e := s[..8], s[9..13], s[14..18], s[19..23], s[24..];
      forall i: int | 0 <= i < 36 && i !in {8, 13, 18, 23} ensures s[i] in "0123456789abcdef" {
        HexIs(s[i]);
      }
      assert HexDigits(a, 8) && HexDigits(b, 4) && HexDigits(c, 4) && HexDigits(d, 4) && HexDigits(e, 12);
      assert s == a + "-" + b + "-" + c + "-" + d + "-" + e;
    }
    if Grouped(s) {
      forall i: int | 0 <= i < |s| && s[i] in "0123456789abcdef" ensures IsHex(s[i]) {
        HexIs(s[i]);
      }
    }
  }

  lemma HexIs(c: char)
    ensures IsHex(c) <==> c in "0123456789abcdef"
  {
    var digits := "0123456789abcdef";
    assert forall i :: 0 <= i < 16 ==> IsHex(digits[i]);
    if IsHex(c) {
      var i := if c <= '9' then c as int - '0' as int else c as int - 'a' as int + 10;
      assert digits[i] == c;
    }
  }

  /** Other rows keep their places; at this address, and for this device, only `sess` is current. */
  lemma BoreRows(t: Tables, u: Tables, addr: Address, uuid: string, sess: nat)
    requires Bore(t, u, addr, uuid, sess)
    ensures u.rows.Keys == t.rows.Keys + {sess}
    ensures forall i :: i in t.rows ==>
      u.rows[i].device == t.rows[i].device && u.rows[i].address == t.rows[i].address
    ensures forall i :: i in u.rows && u.rows[i].address == u.addresses[addr] ==>
      (u.rows[i].nextAddr.None? <==> i == sess)
    ensures forall i :: i in u.rows && u.rows[i].device == u.devices[uuid] ==> (u.rows[i].nextDev.None? <==> i == sess)
    ensures forall i :: i in t.rows && t.rows[i].address != u.addresses[addr] ==>
      u.rows[i].nextAddr == t.rows[i].nextAddr
    ensures forall i :: i in t.rows && t.rows[i].device != u.devices[uuid] ==> u.rows[i].nextDev == t.rows[i].nextDev
    ensures forall i :: i in t.rows ==>
      (u.rows[i].Online() <==> t.rows[i].Online() && t.rows[i].device != u.devices[uuid] &&
                               t.rows[i].address != u.addresses[addr])
  {
    hide Chains, Injective;
    var r := u.rows[sess];
    ChainsNow(t);
    ChainsNow(u);
    BornKeys(t.rows, u.rows, sess, r);
    BirthIsCurrent(t.rows, u.rows, sess, r, ByDevice);
    BirthIsCurrent(t.rows, u.rows, sess, r, ByAddress);
    forall i | i in u.rows && u.rows[i].address == u.addresses[addr] ensures u.rows[i].nextAddr.None? <==> i == sess {
      assert Key(ByAddress, u.rows[i]) == Key(ByAddress, r);
      assert Next(ByAddress, u.rows[i]) == u.rows[i].nextAddr;
    }
  }

  /** The address answers with the device, online. */
  lemma BirthAnswers(t: Tables, u: Tables, addr: Address, uuid: string, sess: nat)
    requires Bore(t, u, addr, uuid, sess)
    ensures AddrUuid(u, addr) == {uuid} && IsAddrOnline(u, addr) == {true}
    ensures forall s :: uuid in SchemaDevices(u, s) <==> s in SessionSchemas(u, sess)
  {
    hide Chains, Born;
    BoreRows(t, u, addr, uuid, sess);
    BoreRow(t, u, addr, uuid, sess);
    forall v ensures v in AddrUuid(u, addr) <==> v == uuid {
      assert v in u.devices && u.devices[v] == u.devices[uuid] ==> v == uuid;
      assert sess in u.rows.Keys;
    }
    forall b ensures b in IsAddrOnline(u, addr) <==> b == true {
      assert u.rows[sess].Online() in IsAddrOnline(u, addr);
    }
    forall s ensures uuid in SchemaDevices(u, s) <==> s in SessionSchemas(u, sess) {
      assert sess in u.rows.Keys;
    }
  }

  lemma BoreRow(t: Tables, u: Tables, addr: Address, uuid: string, sess: nat)
    requires Bore(t, u, addr, uuid, sess)
    ensures var r := u.rows[sess];
      r.device == u.devices[uuid] && r.address == u.addresses[addr] && r.Online() && r.nextDev.None? && r.nextAddr.None?
  {
    hide Integrity;
  }

  lemma DeviceOf(t: Tables, i: nat) returns (v: string)
    requires Integrity(t) && i in t.rows
    ensures v in t.devices && t.devices[v] == t.rows[i].device
  {
    hide Chains, Injective;
    assert t.rows[i].device in t.devices.Values;
    v :| v in t.devices && t.devices[v] == t.rows[i].device;
  }

  lemma KeysApart(t: Tables, a: Address, b: Address)
    requires Integrity(t) && a in t.addresses && b in t.addresses && a != b
    ensures t.addresses[a] != t.addresses[b]
  {
    hide Chains;
  }

  /** Any other known address keeps its device. */
  lemma BirthKeepsUuid(t: Tables, u: Tables, addr: Address, uuid: string, sess: nat, a: Address)
    requires Bore(t, u, addr, uuid, sess) && a != addr && a in t.addresses
    ensures AddrUuid(u, a) == AddrUuid(t, a)
  {
    hide Born, Integrity;
    BoreRows(t, u, addr, uuid, sess);
    BoreRow(t, u, addr, uuid, sess);
    KeysApart(u, a, addr);
    forall v ensures v in AddrUuid(u, a) <==> v in AddrUuid(t, a) {
      if v in AddrUuid(t, a) {
        var i :| i in t.rows.Keys && t.rows[i].device == t.devices[v] && t.rows[i].address == t.addresses[a] &&
                 t.rows[i].nextAddr.None?;
        assert i in u.rows.Keys;
      }
      if v in AddrUuid(u, a) {
        var i :| i in u.rows.Keys && u.rows[i].device == u.devices[v] && u.rows[i].address == u.addresses[a] &&
                 u.rows[i].nextAddr.None?;
        assert i in t.rows.Keys;
        var w := DeviceOf(t, i);
        OneUuid(u, v, w);
      }
    }
  }

  lemma OneUuid(t: Tables, v: string, w: string)
    requires Integrity(t) && v in t.devices && w in t.devices && t.devices[v] == t.devices[w]
    ensures v == w
  {
    hide Chains;
  }

  /** It is online if it was and the device has not come from there. */
  lemma BirthElsewhere(t: Tables, u: Tables, addr: Address, uuid: string, sess: nat, a: Address)
    requires Bore(t, u, addr, uuid, sess) && a != addr && a in t.addresses
    ensures true in IsAddrOnline(u, a) <==> true in IsAddrOnline(t, a) && uuid !in AddrUuid(t, a)
  {
    hide Born, Integrity;
    BoreRows(t, u, addr, uuid, sess);
    BoreRow(t, u, addr, uuid, sess);
    CurrentAddrUnique(t);
    KeysApart(u, a, addr);
    if true in IsAddrOnline(t, a) {
      var i :| i in t.rows && t.rows[i].address == t.addresses[a] && t.rows[i].nextAddr.None? && t.rows[i].Online();
      assert u.rows[i].nextAddr.None? && i in u.rows.Keys && i in t.rows.Keys;
      var w := DeviceOf(t, i);
      assert w in AddrUuid(t, a);
      if uuid !in AddrUuid(t, a) && u.devices[w] == u.devices[uuid] {
        OneUuid(u, w, uuid);
      }
    }
    if true in IsAddrOnline(u, a) {
      var i :| i in u.rows && u.rows[i].address == u.addresses[a] && u.rows[i].nextAddr.None? && u.rows[i].Online();
      assert i in t.rows && t.rows[i].Online() && t.rows[i].nextAddr.None?;
    }
  }

  /** No other device changes the schemas that it uses now. */
  lemma BirthOfOther(t: Tables, u: Tables, addr: Address, uuid: string, sess: nat, v: string, s: string)
    requires Bore(t, u, addr, uuid, sess) && v != uuid && v in t.devices && s in t.schemas
    requires forall x: Use :: x.session != sess ==> (x in u.used <==> x in t.used)
    ensures v in SchemaDevices(u, s) <==> v in SchemaDevices(t, s)
  {
    hide Chains, Born;
    BoreRows(t, u, addr, uuid, sess);
    BoreRow(t, u, addr, uuid, sess);
    assert u.devices[v] != u.devices[uuid];
    if v in SchemaDevices(t, s) {
      var i :| i in t.rows.Keys && t.rows[i].device == t.devices[v] && t.rows[i].nextDev.None? &&
               Use(i, t.schemas[s]) in t.used;
      assert i in u.rows.Keys && Use(i, u.schemas[s]) in u.used;
    }
    if v in SchemaDevices(u, s) {
      var i :| i in u.rows.Keys && u.rows[i].device == u.devices[v] && u.rows[i].nextDev.None? &&
               Use(i, u.schemas[s]) in u.used;
      assert i in t.rows.Keys && Use(i, t.schemas[s]) in t.used;
    }
  }

  /** What is shown of the device is the new session with its schemas. */
  lemma BirthStatus(t: Tables, u: Tables, addr: Address, uuid: string, sess: nat)
    requires Bore(t, u, addr, uuid, sess)
    ensures DeviceStatus(u, uuid) == {(u.rows[sess], set x | x in u.used && x.session == sess :: x.schema)}
  {
    hide Born, Integrity;
    BoreRows(t, u, addr, uuid, sess);
    BoreRow(t, u, addr, uuid, sess);
  }

  /** The session that was current for the device before the birth. */
  ghost predicate WasCurrent(t: Tables, u: Tables, uuid: string, i: nat) {
    uuid in u.devices && i in t.rows && t.rows[i].device == u.devices[uuid] && t.rows[i].nextDev.None?
  }

  /** The notification of the new session has the one that was current before as its predecessor. */
  lemma BirthNotified(t: Tables, u: Tables, addr: Address, uuid: string, sess: nat)
    requires Bore(t, u, addr, uuid, sess)
    ensures var info := NotificationInfo(u, sess);
      && info.Some? && info.value.device == u.devices[uuid] && info.value.address == u.addresses[addr]
      && info.value.nextDev.None? && info.value.nextAddr.None?
      && forall i :: i in info.value.prev <==> WasCurrent(t, u, uuid, i)
  {
    hide Integrity, Born;
    BoreRow(t, u, addr, uuid, sess);
    forall i: nat ensures i in Predecessors(u.rows, sess) <==> WasCurrent(t, u, uuid, i) {
      BorePrevious(t, u, addr, uuid, sess, i);
    }
  }

  lemma BorePrevious(t: Tables, u: Tables, addr: Address, uuid: string, sess: nat, i: nat)
    requires Bore(t, u, addr, uuid, sess)
    ensures i in Predecessors(u.rows, sess) <==> WasCurrent(t, u, uuid, i)
  {
    hide OneCurrent, SupersededClosed, Injective;
    assert ChainOk(ByDevice, t.rows);
    assert i in t.rows ==> Next(ByDevice, t.rows[i]) == t.rows[i].nextDev;
  }

  /** A schema is announced if the device used it before the birth or does so after it, and not both. */
  lemma BirthUsage(t: Tables, u: Tables, addr: Address, uuid: string, sess: nat, s: string)
    requires Bore(t, u, addr, uuid, sess)
    requires forall x: Use :: x.session != sess ==> (x in u.used <==> x in t.used)
    ensures UsageNotified(u, sess).Some?
    ensures s in UsageNotified(u, sess).value <==> (uuid in SchemaDevices(t, s) <==> s !in SessionSchemas(u, sess))
  {
    hide Integrity, Born;
    BirthNotified(t, u, addr, uuid, sess);
    UsedBefore(t, u, addr, uuid, sess, s);
  }

  lemma UsedBefore(t: Tables, u: Tables, addr: Address, uuid: string, sess: nat, s: string)
    requires Bore(t, u, addr, uuid, sess)
    requires forall x: Use :: x.session != sess ==> (x in u.used <==> x in t.used)
    ensures s in OldSchemas(u, sess) <==> uuid in SchemaDevices(t, s)
  {
    hide Chains, Born;
    if s in OldSchemas(u, sess) {
      var p :| p in Predecessors(u.rows, sess) && Use(p, u.schemas[s]) in u.used;
      BorePrevious(t, u, addr, uuid, sess, p);
      var v := DeviceOf(t, p);
      OneUuid(u, v, uuid);
      assert Use(p, u.schemas[s]) in t.used;
      assert u.schemas[s] in t.schemas.Values;
      var k :| k in t.schemas && t.schemas[k] == u.schemas[s];
      SameKey(u.schemas, k, s);
      assert p in t.rows.Keys;
    }
    if uuid in SchemaDevices(t, s) {
      var i :| i in t.rows.Keys && t.rows[i].device == t.devices[uuid] && t.rows[i].nextDev.None? &&
               Use(i, t.schemas[s]) in t.used;
      BorePrevious(t, u, addr, uuid, sess, i);
      assert Use(i, u.schemas[s]) in u.used;
    }
  }

  /** A session that was not there before has the valid schemas of its list. */
  lemma SchemasOfBirth(t: Tables, u: Tables, sess: nat, uuids: seq<string>)
    requires Integrity(t) && Injective(u.schemas) && sess !in t.rows && Uses(t.used, u.used, sess, uuids, u.schemas)
    ensures SessionSchemas(u, sess) == set s | s in uuids && ValidUuid(s)
  {
    hide Chains, Injective, ValidUuid;
    forall s ensures s in SessionSchemas(u, sess) <==> s in uuids && ValidUuid(s) {
      if s in uuids && ValidUuid(s) {
        var i :| 0 <= i < |uuids| && uuids[i] == s;
      }
      if s in SessionSchemas(u, sess) {
        var x := Use(sess, u.schemas[s]);
        assert x in u.used && x !in t.used;
        assert SomeUse(x.schema, uuids, u.schemas);
        var i :| 0 <= i < |uuids| && ValidUuid(uuids[i]) && uuids[i] in u.schemas && u.schemas[uuids[i]] == x.schema;
        SameKey(u.schemas, s, uuids[i]);
      }
    }
  }

  lemma SameKey(m: map<string, nat>, a: string, b: string)
    requires Injective(m) && a in m && b in m && m[a] == m[b]
    ensures a == b
  {
  }

  lemma DeathRows(t: Tables, u: Tables, death: Address, time: int, a: Address, i: nat)
    requires Died(t, u, death, time) && a in t.addresses && i in t.rows && t.rows[i].address == t.addresses[a]
    ensures i in u.rows && u.rows[i] == t.rows[i].(finish := u.rows[i].finish)
    ensures u.rows[i].Online() <==>
      t.rows[i].Online() && !(a == death || (death.device == "" && (a.group, a.node) == (death.group, death.node)))
    ensures (a.group, a.node) != (death.group, death.node) ==> u.rows[i] == t.rows[i]
    ensures death.device != "" && a != death ==> u.rows[i] == t.rows[i]
  {
    hide Integrity;
  }

  /** A node's DEATH takes all its addresses offline, a device's its own; all other answers stay. */
  lemma DeathAnswers(t: Tables, u: Tables, death: Address, time: int, a: Address)
    requires Died(t, u, death, time)
    ensures a == death || (death.device == "" && (a.group, a.node) == (death.group, death.node)) ==>
      true !in IsAddrOnline(u, a) && (IsAddrOnline(u, a) == {} <==> IsAddrOnline(t, a) == {})
    ensures a != death && (death.device != "" || (a.group, a.node) != (death.group, death.node)) ==>
      IsAddrOnline(u, a) == IsAddrOnline(t, a)
    ensures AddrUuid(u, a) == AddrUuid(t, a)
  {
    hide Died, Integrity, AddrUuid;
    DeathMoves(t, u, death, time);
    DeathKeepsUuid(t, u, death, time, a);
    if a in t.addresses {
      forall i | i in t.rows && t.rows[i].address == t.addresses[a]
        ensures u.rows[i].Online() <==>
          t.rows[i].Online() && !(a == death || (death.device == "" && (a.group, a.node) == (death.group, death.node)))
      {
        DeathRows(t, u, death, time, a, i);
      }
      forall i | i in t.rows && t.rows[i].address == t.addresses[a] && t.rows[i].nextAddr.None?
        ensures u.rows[i].Online() in IsAddrOnline(u, a) && t.rows[i].Online() in IsAddrOnline(t, a)
      {
      }
    }
  }

  lemma DeathKeepsUuid(t: Tables, u: Tables, death: Address, time: int, a: Address)
    requires Died(t, u, death, time)
    ensures AddrUuid(u, a) == AddrUuid(t, a)
  {
    hide Died, Integrity;
    DeathMoves(t, u, death, time);
    forall v ensures v in AddrUuid(u, a) <==> v in AddrUuid(t, a) {
    }
  }

  lemma DeathMoves(t: Tables, u: Tables, death: Address, time: int)
    requires Died(t, u, death, time)
    ensures u == t.(rows := u.rows) && u.rows.Keys == t.rows.Keys
    ensures forall i :: i in t.rows ==> u.rows[i] == t.rows[i].(finish := u.rows[i].finish)
  {
    hide Chains, Injective;
    forall i | i in t.rows ensures u.rows[i] == t.rows[i].(finish := u.rows[i].finish) {
      assert t.rows[i].address in t.addresses.Values;
      var a :| a in t.addresses && t.addresses[a] == t.rows[i].address;
      DeathRows(t, u, death, time, a, i);
    }
  }
}
