/**
 * The Directory's session rows. Each row sits in two linked lists, one per
 * device and one per address; births append to both, deaths and restarts
 * close rows, pruning deletes rows that nothing points at.
 */
module Sessions {
  import opened Basics

  datatype Session = Session(device: nat, address: nat, start: int, finish: Option<int>,
                             topSchema: Option<nat>, nextDev: Option<nat>, nextAddr: Option<nat>)
  {
    predicate Online() {
      finish.None?
    }
  }

  type Rows = map<nat, Session>

  /** The two lists a row is in. */
  datatype Chain = ByDevice | ByAddress

  /** Whose list: the device or the address of the row. */
  function Key(c: Chain, r: Session): nat {
    if c == ByDevice then r.device else r.address
  }

  function Next(c: Chain, r: Session): Option<nat> {
    if c == ByDevice then r.nextDev else r.nextAddr
  }

  // ---- The chain invariant ----

  /** Next pointers lead to a later row of the same key, and no two rows share a successor. */
  ghost predicate Linked(c: Chain, rows: Rows) {
    && (forall i :: i in rows && Next(c, rows[i]).Some? ==>
          var n := Next(c, rows[i]).value; n in rows && i < n && Key(c, rows[n]) == Key(c, rows[i]))
    && (forall i, j :: i in rows && j in rows && Next(c, rows[i]).Some? && Next(c, rows[i]) == Next(c, rows[j]) ==>
          i == j)
  }

  /** At most one row of a key is current. */
  ghost predicate OneCurrent(c: Chain, rows: Rows) {
    forall i, j ::
      (i in rows && j in rows && Key(c, rows[i]) == Key(c, rows[j]) &&
       Next(c, rows[i]).None? && Next(c, rows[j]).None?) ==> i == j
  }

  /** A row with a successor is finished. */
  ghost predicate SupersededClosed(c: Chain, rows: Rows) {
    forall i :: i in rows && Next(c, rows[i]).Some? ==> rows[i].finish.Some?
  }

  ghost predicate ChainOk(c: Chain, rows: Rows) {
    Linked(c, rows) && OneCurrent(c, rows) && SupersededClosed(c, rows)
  }

  ghost predicate Chains(rows: Rows) {
    forall c: Chain :: ChainOk(c, rows)
  }

  /** Following a chain from any row ends at the one current row of its key. */
  lemma {:induction false} CurrentRow(c: Chain, rows: Rows, i: nat, bound: nat) returns (cur: nat)
    requires ChainOk(c, rows) && i in rows && forall j :: j in rows ==> j < bound
    ensures cur in rows && i <= cur && Key(c, rows[cur]) == Key(c, rows[i]) && Next(c, rows[cur]).None?
    ensures forall k :: k in rows && Key(c, rows[k]) == Key(c, rows[i]) && Next(c, rows[k]).None? ==> k == cur
    decreases bound - i
  {
    if Next(c, rows[i]).None? {
      cur := i;
    } else {
      cur := CurrentRow(c, rows, Next(c, rows[i]).value, bound);
    }
  }

  /** At most one session of a device, and at most one of an address, is online. */
  lemma OneOnline(c: Chain, rows: Rows, i: nat, j: nat)
    requires Chains(rows) && i in rows && j in rows && rows[i].Online() && rows[j].Online()
    requires Key(c, rows[i]) == Key(c, rows[j])
    ensures i == j
  {
    assert ChainOk(c, rows);
    assert Next(c, rows[i]).None? && Next(c, rows[j]).None?;
  }

  // ---- Births ----

  function Close(finish: Option<int>, time: int): Option<int> {
    if finish.Some? then finish else Some(time)
  }

  /** One update of a birth, on one older row: supersede it if it was current. */
  function Supersede(c: Chain, r: Session, sess: nat, key: nat, time: int): Session {
    if Key(c, r) == key && Next(c, r).None? then
      if c == ByDevice then r.(nextDev := Some(sess), finish := Close(r.finish, time))
      else r.(nextAddr := Some(sess), finish := Close(r.finish, time))
    else r
  }

  /** The update statement of a birth, on the whole table. */
  ghost predicate Superseded(c: Chain, rows: Rows, rows': Rows, sess: nat, key: nat, time: int) {
    && rows'.Keys == rows.Keys
    && forall i :: i in rows ==> rows'[i] == if i == sess then rows[i] else Supersede(c, rows[i], sess, key, time)
  }

  /** A row just inserted is the only one of its key that is not yet linked in. */
  ghost predicate Pending(c: Chain, rows: Rows, sess: nat) {
    && sess in rows && Next(c, rows[sess]).None?
    && (forall i :: i in rows ==> i <= sess && Next(c, rows[i]) != Some(sess))
    && ChainOk(c, rows - {sess})
  }

  lemma SupersedeLinks(c: Chain, rows: Rows, rows': Rows, sess: nat, time: int)
    requires Pending(c, rows, sess) && Superseded(c, rows, rows', sess, Key(c, rows[sess]), time)
    ensures Linked(c, rows')
  {
    hide SupersededClosed, OneCurrent;
    var settled := rows - {sess};
    forall i | i in rows' && Next(c, rows'[i]).Some?
      ensures var n := Next(c, rows'[i]).value; n in rows' && i < n && Key(c, rows'[n]) == Key(c, rows'[i])
    {
      assert i in settled && settled[i] == rows[i];
    }
    OneSupersedes(c, rows, rows', sess, time);
  }

  lemma OneSupersedes(c: Chain, rows: Rows, rows': Rows, sess: nat, time: int)
    requires Pending(c, rows, sess) && Superseded(c, rows, rows', sess, Key(c, rows[sess]), time)
    ensures forall i, j ::
      i in rows' && j in rows' && Next(c, rows'[i]).Some? && Next(c, rows'[i]) == Next(c, rows'[j]) ==> i == j
  {
    hide SupersededClosed;
    var settled := rows - {sess};
    forall i, j | i in rows' && j in rows' && Next(c, rows'[i]).Some? && Next(c, rows'[i]) == Next(c, rows'[j])
      ensures i == j
    {
      assert i in settled && j in settled && settled[i] == rows[i] && settled[j] == rows[j];
    }
  }

  lemma SupersedeCurrent(c: Chain, rows: Rows, rows': Rows, sess: nat, time: int)
    requires Pending(c, rows, sess) && Superseded(c, rows, rows', sess, Key(c, rows[sess]), time)
    ensures OneCurrent(c, rows')
  {
    hide Linked, SupersededClosed;
    var settled := rows - {sess};
    forall i, j |
      i in rows' && j in rows' && Key(c, rows'[i]) == Key(c, rows'[j]) &&
      Next(c, rows'[i]).None? && Next(c, rows'[j]).None?
      ensures i == j
    {
      if i != sess && j != sess {
        assert i in settled && j in settled && settled[i] == rows[i] && settled[j] == rows[j];
      }
    }
  }

  lemma SupersedeCloses(c: Chain, rows: Rows, rows': Rows, sess: nat, time: int)
    requires Pending(c, rows, sess) && Superseded(c, rows, rows', sess, Key(c, rows[sess]), time)
    ensures SupersededClosed(c, rows')
  {
    hide Linked, OneCurrent;
    var settled := rows - {sess};
    forall i | i in rows' && Next(c, rows'[i]).Some? ensures rows'[i].finish.Some? {
      assert i in settled && settled[i] == rows[i];
    }
  }

  /** The update of one chain does not disturb the other. */
  lemma SupersedeOther(c: Chain, o: Chain, rows: Rows, rows': Rows, sess: nat, key: nat, time: int)
    requires c != o && Superseded(c, rows, rows', sess, key, time)
    ensures Pending(o, rows, sess) ==> Pending(o, rows', sess)
    ensures ChainOk(o, rows) ==> ChainOk(o, rows')
  {
    forall i | i in rows
      ensures Key(o, rows'[i]) == Key(o, rows[i]) && Next(o, rows'[i]) == Next(o, rows[i])
      ensures rows[i].finish.Some? ==> rows'[i].finish.Some?
    {}
    if Pending(o, rows, sess) {
      SameChain(o, rows - {sess}, rows' - {sess});
    }
    if ChainOk(o, rows) {
      SameChain(o, rows, rows');
    }
  }

  lemma SameChain(c: Chain, rows: Rows, rows': Rows)
    requires ChainOk(c, rows) && rows'.Keys == rows.Keys
    requires forall i :: i in rows ==>
      Key(c, rows'[i]) == Key(c, rows[i]) && Next(c, rows'[i]) == Next(c, rows[i])
    requires forall i :: i in rows && rows[i].finish.Some? ==> rows'[i].finish.Some?
    ensures ChainOk(c, rows')
  {
  }

  /** A whole birth: the row inserted, then both updates. */
  ghost predicate Born(rows: Rows, rows': Rows, sess: nat, r: Session) {
    && rows'.Keys == rows.Keys + {sess}
    && rows'[sess] == r
    && forall i :: i in rows ==>
         rows'[i] == Supersede(ByAddress, Supersede(ByDevice, rows[i], sess, r.device, r.start),
                               sess, r.address, r.start)
  }

  lemma BirthKeepsChains(rows: Rows, ins: Rows, upd: Rows, rows': Rows, sess: nat, r: Session)
    requires Chains(rows) && (forall i :: i in rows ==> i < sess)
    requires r.finish.None? && r.nextDev.None? && r.nextAddr.None?
    requires ins == rows[sess := r]
    requires Superseded(ByDevice, ins, upd, sess, r.device, r.start)
    requires Superseded(ByAddress, upd, rows', sess, r.address, r.start)
    ensures Chains(rows') && Born(rows, rows', sess, r)
  {
    hide ChainOk, Superseded, Pending, Supersede, Born;
    PendingAfterInsert(ByDevice, rows, sess, r);
    PendingAfterInsert(ByAddress, rows, sess, r);
    SupersedeLinks(ByDevice, ins, upd, sess, r.start);
    SupersedeCurrent(ByDevice, ins, upd, sess, r.start);
    SupersedeCloses(ByDevice, ins, upd, sess, r.start);
    SupersedeOther(ByDevice, ByAddress, ins, upd, sess, r.device, r.start);
    ChainOkFrom(ByDevice, upd);
    SameSession(ByDevice, ins, upd, sess, r.device, r.start);
    SupersedeLinks(ByAddress, upd, rows', sess, r.start);
    SupersedeCurrent(ByAddress, upd, rows', sess, r.start);
    SupersedeCloses(ByAddress, upd, rows', sess, r.start);
    SupersedeOther(ByAddress, ByDevice, upd, rows', sess, r.address, r.start);
    ChainOkFrom(ByAddress, rows');
    forall c: Chain ensures ChainOk(c, rows') {
      assert c == ByDevice || c == ByAddress;
    }
    BornTwice(rows, ins, upd, rows', sess, r);
  }

  lemma PendingAfterInsert(c: Chain, rows: Rows, sess: nat, r: Session)
    requires Chains(rows) && (forall i :: i in rows ==> i < sess)
    requires r.nextDev.None? && r.nextAddr.None?
    ensures Pending(c, rows[sess := r], sess)
  {
    assert rows[sess := r] - {sess} == rows;
    assert ChainOk(c, rows);
  }

  lemma ChainOkFrom(c: Chain, rows: Rows)
    requires Linked(c, rows) && OneCurrent(c, rows) && SupersededClosed(c, rows)
    ensures ChainOk(c, rows)
  {
  }

  lemma SameSession(c: Chain, rows: Rows, rows': Rows, sess: nat, key: nat, time: int)
    requires Superseded(c, rows, rows', sess, key, time) && sess in rows
    ensures sess in rows' && rows'[sess] == rows[sess]
  {
  }

  lemma BornTwice(rows: Rows, ins: Rows, upd: Rows, rows': Rows, sess: nat, r: Session)
    requires sess !in rows && ins == rows[sess := r]
    requires Superseded(ByDevice, ins, upd, sess, r.device, r.start)
    requires Superseded(ByAddress, upd, rows', sess, r.address, r.start)
    ensures Born(rows, rows', sess, r)
  {
  }

  lemma OnlineIsCurrent(rows: Rows)
    requires Chains(rows)
    ensures forall i :: i in rows && rows[i].Online() ==> rows[i].nextDev.None? && rows[i].nextAddr.None?
  {
    assert ChainOk(ByDevice, rows) && ChainOk(ByAddress, rows);
    forall i | i in rows && rows[i].Online() ensures rows[i].nextDev.None? && rows[i].nextAddr.None? {
      assert Next(ByDevice, rows[i]) == rows[i].nextDev && Next(ByAddress, rows[i]) == rows[i].nextAddr;
    }
  }

  /** The new session is current in both chains and the only one online in either. */
  lemma BirthIsCurrent(rows: Rows, rows': Rows, sess: nat, r: Session, c: Chain)
    requires Chains(rows) && Chains(rows') && sess !in rows && Born(rows, rows', sess, r)
    requires r.finish.None? && r.nextDev.None? && r.nextAddr.None?
    ensures forall i :: i in rows' && Key(c, rows'[i]) == Key(c, r) && rows'[i].Online() ==> i == sess
    ensures forall i :: i in rows && Key(c, rows[i]) == Key(c, r) && Next(c, rows[i]).None? ==>
              Next(c, rows'[i]) == Some(sess)
    ensures forall i :: i in rows && (Key(c, rows[i]) != Key(c, r) || Next(c, rows[i]).Some?) ==>
              Next(c, rows'[i]) == Next(c, rows[i])
    ensures forall i :: i in rows && rows[i].finish.Some? ==> rows'[i].finish == rows[i].finish
    ensures forall i :: i in rows && rows[i].Online() ==>
              rows'[i].finish ==
                if rows[i].device == r.device || rows[i].address == r.address then Some(r.start) else None
    ensures forall i :: i in rows && rows[i].device != r.device && rows[i].address != r.address ==> rows'[i] == rows[i]
  {
    OnlineIsCurrent(rows);
    forall i | i in rows' && Key(c, rows'[i]) == Key(c, r) && rows'[i].Online() ensures i == sess {
      OneOnline(c, rows', i, sess);
    }
  }

  // ---- Closing ----

  /** Only finish times are filled in, and only where there was none. */
  ghost predicate OnlyCloses(rows: Rows, rows': Rows) {
    && rows'.Keys == rows.Keys
    && forall i :: i in rows ==>
         && rows'[i] == rows[i].(finish := rows'[i].finish)
         && (rows[i].finish.Some? ==> rows'[i].finish == rows[i].finish)
  }

  lemma ClosingKeepsChains(rows: Rows, rows': Rows)
    requires Chains(rows) && OnlyCloses(rows, rows')
    ensures Chains(rows')
  {
    forall c: Chain ensures ChainOk(c, rows') {
      assert ChainOk(c, rows);
      SameChain(c, rows, rows');
    }
  }

  // ---- Pruning ----

  /** The row is followed, in a chain, by the current row. */
  predicate BeforeCurrent(c: Chain, rows: Rows, i: nat)
    requires i in rows
  {
    var n := Next(c, rows[i]);
    n.Some? && n.value in rows && Next(c, rows[n.value]).None?
  }

  /** The conditions of the delete statement, apart from the device. */
  predicate Eligible(rows: Rows, i: nat)
    requires i in rows
  {
    && rows[i].nextDev.Some?
    && rows[i].nextAddr.Some?
    && !BeforeCurrent(ByDevice, rows, i)
    && !BeforeCurrent(ByAddress, rows, i)
    && forall j :: j in rows.Keys ==> rows[j].nextDev != Some(i) && rows[j].nextAddr != Some(i)
  }

  function EligibleOf(rows: Rows, device: nat): set<nat> {
    set i | i in rows && rows[i].device == device && Eligible(rows, i)
  }

  ghost predicate Prunable(rows: Rows, gone: set<nat>) {
    forall i :: i in gone ==> i in rows && Eligible(rows, i)
  }

  /** Nothing that stays points at anything that goes. */
  lemma NoneDangles(c: Chain, rows: Rows, gone: set<nat>, i: nat)
    requires Chains(rows) && Prunable(rows, gone) && i in rows && i !in gone
    ensures Next(c, rows[i]).Some? ==> Next(c, rows[i]).value in rows - gone
  {
    assert ChainOk(c, rows);
  }

  lemma PruneKeepsChain(c: Chain, rows: Rows, gone: set<nat>)
    requires Chains(rows) && Prunable(rows, gone)
    ensures ChainOk(c, rows - gone)
  {
    hide Eligible;
    assert ChainOk(c, rows);
    var t := rows - gone;
    forall i | i in t && Next(c, t[i]).Some?
      ensures var n := Next(c, t[i]).value; n in t && i < n && Key(c, t[n]) == Key(c, t[i])
    {
      NoneDangles(c, rows, gone, i);
      assert t[i] == rows[i];
    }
  }

  /** Deleting any eligible rows keeps the chains, and the other eligible rows stay eligible. */
  lemma PruneKeepsChains(rows: Rows, gone: set<nat>)
    requires Chains(rows) && Prunable(rows, gone)
    ensures Chains(rows - gone)
    ensures forall i :: i in rows && i !in gone && Eligible(rows, i) ==> Eligible(rows - gone, i)
  {
    forall c: Chain ensures ChainOk(c, rows - gone) {
      PruneKeepsChain(c, rows, gone);
    }
  }

  // ---- Where pruning ends ----

  /** Current, or directly before the current row, in one chain or the other. */
  predicate Root(rows: Rows, i: nat)
    requires i in rows
  {
    || rows[i].nextDev.None?
    || rows[i].nextAddr.None?
    || BeforeCurrent(ByDevice, rows, i)
    || BeforeCurrent(ByAddress, rows, i)
  }

  predicate PointsAt(rows: Rows, j: nat, i: nat)
    requires j in rows
  {
    rows[j].nextDev == Some(i) || rows[j].nextAddr == Some(i)
  }

  /** Reachable from such a row along next pointers. */
  ghost predicate Reachable(rows: Rows, i: nat)
    decreases i
  {
    i in rows &&
    (Root(rows, i) || exists j :: j in rows && j < i && PointsAt(rows, j, i) && Reachable(rows, j))
  }

  ghost predicate NothingEligible(rows: Rows) {
    forall i :: i in rows ==> !Eligible(rows, i)
  }

  lemma ReachableNotEligible(rows: Rows, i: nat)
    requires Reachable(rows, i)
    ensures !Eligible(rows, i)
  {
    if j :| j in rows && j < i && PointsAt(rows, j, i) && Reachable(rows, j) {
      assert j in rows.Keys;
    }
  }

  /** Deleting eligible rows changes no row's status as a root ... */
  lemma RootStays(rows: Rows, gone: set<nat>, i: nat)
    requires Chains(rows) && Prunable(rows, gone) && i in rows && i !in gone
    ensures Root(rows - gone, i) <==> Root(rows, i)
  {
    hide Eligible;
    NoneDangles(ByDevice, rows, gone, i);
    NoneDangles(ByAddress, rows, gone, i);
    assert (rows - gone)[i] == rows[i];
  }

  /** ... nor as a reachable row. */
  lemma {:induction false} ReachableStays(rows: Rows, gone: set<nat>, i: nat)
    requires Chains(rows) && Prunable(rows, gone)
    ensures Reachable(rows - gone, i) <==> Reachable(rows, i)
    decreases i
  {
    hide Chains, Root, PointsAt, Eligible;
    var t := rows - gone;
    if i in gone {
      if Reachable(rows, i) {
        ReachableNotEligible(rows, i);
      }
    } else if i in rows {
      RootStays(rows, gone, i);
      forall j | j in rows && j < i ensures Reachable(t, j) <==> Reachable(rows, j) {
        ReachableStays(rows, gone, j);
      }
      forall j | j in t ensures PointsAt(t, j, i) <==> PointsAt(rows, j, i) {
        SamePointers(rows, gone, j, i);
      }
      if Reachable(rows, i) && !Root(rows, i) {
        var j :| j in rows && j < i && PointsAt(rows, j, i) && Reachable(rows, j);
        assert Reachable(t, j);
      }
    }
  }

  lemma SamePointers(rows: Rows, gone: set<nat>, j: nat, i: nat)
    requires j in rows && j !in gone
    ensures PointsAt(rows - gone, j, i) <==> PointsAt(rows, j, i)
  {
  }

  /** When nothing is eligible any more, everything left is reachable. */
  lemma {:induction false} StuckIsReachable(rows: Rows, i: nat)
    requires Chains(rows) && NothingEligible(rows) && i in rows
    ensures Reachable(rows, i)
    decreases i
  {
    hide Chains, Root, PointsAt, Eligible;
    if !Root(rows, i) {
      var j := Pointer(rows, i);
      StuckIsReachable(rows, j);
    }
  }

  lemma Pointer(rows: Rows, i: nat) returns (j: nat)
    requires Chains(rows) && i in rows && !Eligible(rows, i) && !Root(rows, i)
    ensures j in rows && j < i && PointsAt(rows, j, i)
  {
    assert ChainOk(ByDevice, rows) && ChainOk(ByAddress, rows);
    j :| j in rows && (rows[j].nextDev == Some(i) || rows[j].nextAddr == Some(i));
    assert Next(ByDevice, rows[j]) == rows[j].nextDev && Next(ByAddress, rows[j]) == rows[j].nextAddr;
  }

  ghost function ReachableOf(rows: Rows): set<nat> {
    set i | i in rows && Reachable(rows, i)
  }

  /** One prune, of whichever rows, moves towards the same end. */
  lemma PruneTowardsEnd(rows: Rows, gone: set<nat>)
    requires Chains(rows) && Prunable(rows, gone)
    ensures ReachableOf(rows - gone) == ReachableOf(rows)
  {
    forall i ensures i in ReachableOf(rows - gone) <==> i in ReachableOf(rows) {
      ReachableStays(rows, gone, i);
    }
  }

  lemma EndIsReachable(rows: Rows)
    requires Chains(rows) && NothingEligible(rows)
    ensures rows.Keys == ReachableOf(rows)
  {
    forall i | i in rows ensures Reachable(rows, i) {
      StuckIsReachable(rows, i);
    }
  }
}
