/**
 * What is announced of a session when the database notifies a change of it. The
 * tables are read three times, and other transactions can run in between.
 */
module Notices {
  import opened Basics
  import opened Sessions
  import opened Directories

  /** What is published, with a device and an address by their keys; nothing is if every part is empty. */
  datatype Notice = Notice(device: Option<nat>, address: Option<nat>, usage: set<string>)

  /**
   * The schemas whose use is announced. The session and its predecessor are
   * read in `t`, its schemas in `mid` and those of the predecessor in `late`.
   */
  function Announced(t: Tables, mid: Tables, late: Tables, id: nat): Option<set<string>> {
    if id in t.rows then Some(SymDiff(SchemasOfAny(late, Predecessors(t.rows, id)), SessionSchemas(mid, id)))
    else None
  }

  ghost predicate OldGone(t: Tables, late: Tables, id: nat) {
    exists p :: p in Predecessors(t.rows, id) && p !in late.rows
  }

  /** Whatever went before it was read had no schemas, or what went had the same schemas. */
  ghost predicate ReadsHold(t: Tables, mid: Tables, late: Tables, id: nat) {
    var oldGone, newGone := OldGone(t, late, id), id !in mid.rows;
    if oldGone && newGone then OldSchemas(t, id) == SessionSchemas(t, id)
    else (oldGone ==> OldSchemas(t, id) == {}) && (newGone ==> SessionSchemas(t, id) == {})
  }

  /** The announcement is that of the first instant exactly if the later reads still find what matters. */
  lemma AnnouncedExact(t: Tables, n: nat, mid: Tables, m: nat, late: Tables, k: nat, id: nat)
    requires Integrity(t) && Integrity(mid) && Integrity(late) && id in t.rows
    requires Ages(t, n, mid, m) && Ages(mid, m, late, k)
    ensures Announced(t, mid, late, id) == UsageNotified(t, id) <==> ReadsHold(t, mid, late, id)
  {
    hide Integrity, Ages, SessionSchemas, SchemasOfAny, Predecessors;
    AgesOn(t, n, mid, m, late, k);
    OwnRead(t, n, mid, m, id);
    OldRead(t, n, late, k, id);
    var a, b := OldSchemas(t, id), SessionSchemas(t, id);
    DiffDetermines(a, {}, b);
    DiffDetermines(b, {}, a);
    DiffDetermines(a, b, b);
  }

  /** A set and its difference from another determine that. */
  lemma DiffDetermines(a: set<string>, b: set<string>, c: set<string>)
    ensures SymDiff(a, c) == SymDiff(b, c) <==> a == b
    ensures SymDiff(a, c) == SymDiff(c, a) && SymDiff(b, c) == SymDiff(c, b)
    ensures SymDiff(c, c) == SymDiff({}, {}) == {}
  {
    if a != b {
      if x :| x in a && x !in b {
        assert x in SymDiff(a, c) <==> x !in SymDiff(b, c);
      } else {
        var x :| x in b && x !in a;
        assert x in SymDiff(a, c) <==> x !in SymDiff(b, c);
      }
    }
  }

  /** While a session is current, the later reads find what the first would have. */
  lemma CurrentReadsHold(t: Tables, n: nat, mid: Tables, m: nat, late: Tables, k: nat, id: nat)
    requires Integrity(t) && id in t.rows && Ages(t, n, mid, m) && Ages(mid, m, late, k)
    requires id in late.rows && late.rows[id].nextDev.None?
    ensures ReadsHold(t, mid, late, id)
  {
    hide Integrity, SessionSchemas, SchemasOfAny;
    AgesOn(t, n, mid, m, late, k);
    assert SessionKept(mid, late, id);
    forall p | p in Predecessors(t.rows, id) ensures p in late.rows {
      assert BeforeCurrentNow(t, late, p, id);
    }
  }

  /** A session has the schemas it had, or is gone. */
  lemma OwnRead(t: Tables, n: nat, mid: Tables, m: nat, id: nat)
    requires Integrity(mid) && Ages(t, n, mid, m) && id in t.rows
    ensures SessionSchemas(mid, id) == if id in mid.rows then SessionSchemas(t, id) else {}
  {
    hide Chains, Injective;
    if id in mid.rows {
      assert SessionKept(t, mid, id);
    }
  }

  /** The predecessor has the schemas it had, or is gone. */
  lemma OldRead(t: Tables, n: nat, late: Tables, k: nat, id: nat)
    requires Integrity(t) && Integrity(late) && Ages(t, n, late, k) && id in t.rows
    ensures SchemasOfAny(late, Predecessors(t.rows, id)) == if OldGone(t, late, id) then {} else OldSchemas(t, id)
  {
    hide Integrity, Ages, SessionSchemas, SchemasOfAny;
    PredecessorUnique(t, id);
    if p :| p in Predecessors(t.rows, id) {
      assert Predecessors(t.rows, id) == {p};
      SchemasOfOne(t, p);
      SchemasOfOne(late, p);
      OwnRead(t, n, late, k, p);
    } else {
      assert Predecessors(t.rows, id) == {};
      SchemasOfNone(t);
      SchemasOfNone(late);
    }
  }

  lemma SchemasOfOne(t: Tables, p: nat)
    ensures SchemasOfAny(t, {p}) == SessionSchemas(t, p)
  {
  }

  lemma SchemasOfNone(t: Tables)
    ensures SchemasOfAny(t, {}) == {}
  {
  }

  /**
   * If the device is born again at the same address between the first and the
   * last read, the prune that follows takes the predecessor, when nothing
   * points at that, and every schema of the session is announced.
   */
  lemma Republished(t: Tables, n: nat, u: Tables, m: nat, id: nat, p: nat, sess: nat, r: Session)
    requires id in t.rows && t.rows[id].nextDev.None? && t.rows[id].nextAddr.None?
    requires Predecessors(t.rows, id) == {p} && t.rows[p].nextAddr == Some(id)
    requires forall j :: j in t.rows ==> t.rows[j].nextDev != Some(p) && t.rows[j].nextAddr != Some(p)
    requires Ages(t, n, u, m) && Born(t.rows, u.rows, sess, r) && n <= sess
    requires r.device == t.rows[id].device && r.address == t.rows[id].address
    requires r.nextDev.None? && r.nextAddr.None? && t.rows[p].device == r.device
    ensures p in EligibleOf(u.rows, r.device)
    ensures Announced(t, u, Pruned(u, EligibleOf(u.rows, r.device)), id) == Some(SessionSchemas(t, id))
  {
    hide SessionSchemas, SchemasOfAny;
    assert p in Predecessors(t.rows, id);
    assert SessionKept(t, u, id);
    var gone := EligibleOf(u.rows, r.device);
    assert Eligible(u.rows, p);
    NoUsesLeft(u, gone, p);
    SchemasOfOne(Pruned(u, gone), p);
    DiffDetermines({}, {}, SessionSchemas(t, id));
    assert SymDiff({}, SessionSchemas(t, id)) == SessionSchemas(t, id);
  }

  /** A device born twice with the schema `a`. */
  function TwoBirths(): Tables {
    Tables(map[0 := Session(0, 1, 0, Some(1), None, Some(1), Some(1)), 1 := Session(0, 1, 1, None, None, None, None)],
           map["d" := 0], map[Address("g", "n", "") := 1], map["a" := 2], {Use(0, 2), Use(1, 2)})
  }

  /** The same device after its third birth. */
  function ThreeBirths(): Tables {
    Tables(map[0 := Session(0, 1, 0, Some(1), None, Some(1), Some(1)),
               1 := Session(0, 1, 1, Some(2), None, Some(2), Some(2)),
               2 := Session(0, 1, 2, None, None, None, None)],
           map["d" := 0], map[Address("g", "n", "") := 1], map["a" := 2], {Use(0, 2), Use(1, 2), Use(2, 2)})
  }

  lemma RepublishExample()
    ensures Integrity(TwoBirths())
    ensures Born(TwoBirths().rows, ThreeBirths().rows, 2, Session(0, 1, 2, None, None, None, None))
    ensures UsageNotified(TwoBirths(), 1) == Some({})
    ensures
      var late := Pruned(ThreeBirths(), EligibleOf(ThreeBirths().rows, 0));
      Announced(TwoBirths(), ThreeBirths(), late, 1) == Some({"a"})
  {
    hide Integrity, Ages, SessionSchemas, SchemasOfAny, EligibleOf, Pruned, TwoBirths, ThreeBirths, Born;
    var t, u, r := TwoBirths(), ThreeBirths(), Session(0, 1, 2, None, None, None, None);
    ExampleIntegrity();
    ExampleSchemas();
    ExampleAges();
    ExampleRows();
    Republished(t, 2, u, 3, 1, 0, 2, r);
    SchemasOfOne(t, 0);
    DiffDetermines({}, {}, {"a"});
  }

  lemma ExampleAges()
    ensures Born(TwoBirths().rows, ThreeBirths().rows, 2, Session(0, 1, 2, None, None, None, None))
    ensures Ages(TwoBirths(), 2, ThreeBirths(), 3)
  {
    hide Integrity, Ages, Born;
    ExampleIntegrity();
    ExampleBorn();
    BirthAges(TwoBirths(), 2, ThreeBirths(), 3, 2, Session(0, 1, 2, None, None, None, None));
  }

  lemma ExampleBorn()
    ensures Born(TwoBirths().rows, ThreeBirths().rows, 2, Session(0, 1, 2, None, None, None, None))
  {
  }

  lemma ExampleRows()
    ensures
      var rows := TwoBirths().rows;
      && rows.Keys == {0, 1} && Predecessors(rows, 1) == {0}
      && rows[0].nextDev == rows[0].nextAddr == Some(1) && rows[1].nextDev == rows[1].nextAddr == None
      && rows[0].device == rows[1].device == 0 && rows[0].address == rows[1].address == 1
  {
  }

  lemma ExampleIntegrity()
    ensures Integrity(TwoBirths())
  {
    hide ChainOk;
    var t := TwoBirths();
    assert t.devices["d"] == 0 && t.addresses[Address("g", "n", "")] == 1 && t.schemas["a"] == 2;
    ChainOfTwo(ByDevice, t.rows);
    ChainOfTwo(ByAddress, t.rows);
    OfEither(t.rows);
  }

  lemma OfEither(rows: Rows)
    requires ChainOk(ByDevice, rows) && ChainOk(ByAddress, rows)
    ensures Chains(rows)
  {
    hide ChainOk;
    forall c: Chain ensures ChainOk(c, rows) {
      assert c == ByDevice || c == ByAddress;
    }
  }

  lemma ChainOfTwo(c: Chain, rows: Rows)
    requires rows.Keys == {0, 1} && Key(c, rows[0]) == Key(c, rows[1])
    requires Next(c, rows[0]) == Some(1) && Next(c, rows[1]) == None && rows[0].finish.Some?
    ensures ChainOk(c, rows)
  {
    hide Key, Next;
    assert forall i :: i in rows ==> i == 0 || i == 1;
  }

  lemma ExampleSchemas()
    ensures SessionSchemas(TwoBirths(), 0) == SessionSchemas(TwoBirths(), 1) == {"a"}
  {
  }

  lemma NoUsesLeft(t: Tables, gone: set<nat>, p: nat)
    requires p in gone
    ensures SessionSchemas(Pruned(t, gone), p) == {}
  {
  }

  /** Handle a notification, with other transactions run between the reads. */
  method OnSessionNotify(dir: Directory, id: nat, first: seq<Event>, second: seq<Event>)
    returns (notice: Option<Notice>, ghost mid: Tables, ghost late: Tables)
    requires dir.Valid()
    modifies dir
    ensures dir.Valid()
    ensures Integrity(mid) && Integrity(late)
    ensures exists m :: Ages(old(dir.View()), old(dir.nextSession), mid, m) && Ages(mid, m, late, dir.nextSession)
    ensures notice.Some? <==> id in old(dir.rows)
    ensures notice.None? ==> dir.View() == old(dir.View())
    ensures notice.Some? ==>
      var s := old(dir.rows)[id];
      && notice.value.device == (if s.nextDev.None? then Some(s.device) else None)
      && notice.value.address == (if s.nextAddr.None? then Some(s.address) else None)
      && Some(notice.value.usage) == Announced(old(dir.View()), mid, late, id)
      && (Some(notice.value.usage) == UsageNotified(old(dir.View()), id) <==> ReadsHold(old(dir.View()), mid, late, id))
      && (id in late.rows && late.rows[id].nextDev.None? ==> ReadsHold(old(dir.View()), mid, late, id))
      && dir.View() == if s.nextDev.None? then Pruned(late, EligibleOf(late.rows, s.device)) else late
  {
    hide Integrity, Ages, SessionSchemas, SchemasOfAny, EligibleOf, Pruned;
    var t := dir.View();
    ghost var n := dir.nextSession;
    dir.NumbersNow();
    if id !in t.rows {
      AgesNot(t, n);
      return None, t, t;
    }
    var info := NotificationInfo(t, id).value;
    dir.Run(first);
    dir.NumbersNow();
    mid := dir.View();
    ghost var m := dir.nextSession;
    var schemas := SessionSchemas(dir.View(), id);
    dir.Run(second);
    dir.NumbersNow();
    late := dir.View();
    var replaced := SchemasOfAny(dir.View(), info.prev);
    AnnouncedExact(t, n, mid, m, late, dir.nextSession, id);
    if id in late.rows && late.rows[id].nextDev.None? {
      CurrentReadsHold(t, n, mid, m, late, dir.nextSession, id);
    }
    notice := Some(Notice(if info.nextDev.None? then Some(info.device) else None,
                          if info.nextAddr.None? then Some(info.address) else None,
                          SymDiff(replaced, schemas)));
    if info.nextDev.None? {
      var count := dir.PruneDeviceSessions(info.device);
    }
  }
}
