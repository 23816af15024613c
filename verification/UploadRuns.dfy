/** What one upload comes to, by what happens to it, and what a crash puts at risk. */
module UploadRuns {
  import opened Basics
  import opened Uploads

  /** A new upload can begin, and nobody has a lock on its UUID. */
  predicate Free(s: State, i: nat, u: string) {
    s.serving && i !in s.uploads && u !in s.disk.temps
  }

  /** The upload has ended with this answer, the disk is as it was, and so are all other uploads. */
  ghost predicate Rejected(s: State, t: State, i: nat, u: string, data: Bytes, status: int) {
    && t.serving && t.uploads == s.uploads[i := Upload(u, data, Finished(status))]
    && t.disk == s.disk && t.lost == s.lost
  }

  /** An upload to a UUID whose temporary file exists is told to come back. */
  lemma Locked(steps: seq<Step>, i: nat, u: string, data: Bytes, maxSize: nat)
    requires var s := After(steps, maxSize); s.serving && i !in s.uploads && u in s.disk.temps
    ensures Rejected(After(steps, maxSize), After(steps + [Begin(i, u, data)] + [Advance(i, Go)], maxSize),
                     i, u, data, 503)
  {
    hide Inv, Whole, HoldersHaveTemps, After;
    var one := steps + [Begin(i, u, data)];
    AfterIs(steps, Begin(i, u, data), maxSize);
    AfterIs(one, Advance(i, Go), maxSize);
    var s := After(steps, maxSize);
    assert s.uploads[i := Upload(u, data, Opening)][i := Upload(u, data, Finished(503))] ==
           s.uploads[i := Upload(u, data, Finished(503))];
  }

  /** The lock goes again. */
  lemma Unlocks(steps: seq<Step>, before: State, i: nat, u: string, data: Bytes, temp: Bytes, status: int, maxSize: nat)
    requires before.serving && u !in before.disk.temps
    requires var s := After(steps, maxSize);
      && s.serving && s.uploads == before.uploads[i := Upload(u, data, Unlocking(status))] && s.lost == before.lost
      && s.disk == before.disk.(temps := before.disk.temps[u := temp])
    ensures Rejected(before, After(steps + [Advance(i, Go)], maxSize), i, u, data, status)
  {
    hide Inv, Whole, HoldersHaveTemps, After;
    AfterIs(steps, Advance(i, Go), maxSize);
    var s, t := After(steps, maxSize), After(steps + [Advance(i, Go)], maxSize);
    assert t.uploads == before.uploads[i := Upload(u, data, Finished(status))];
    assert before.disk.temps[u := temp] - {u} == before.disk.temps;
    assert t.disk == before.disk;
  }

  /** An upload to a UUID that is stored is refused. */
  lemma Exists(steps: seq<Step>, i: nat, u: string, data: Bytes, maxSize: nat)
    requires Free(After(steps, maxSize), i, u) && u in After(steps, maxSize).disk.finals
    ensures Rejected(After(steps, maxSize),
                     After(steps + [Begin(i, u, data)] + [Advance(i, Go)] + [Advance(i, Go)] + [Advance(i, Go)],
                           maxSize),
                     i, u, data, 409)
  {
    hide Inv, Whole, HoldersHaveTemps, After;
    var one := steps + [Begin(i, u, data)];
    var two := one + [Advance(i, Go)];
    AfterIs(steps, Begin(i, u, data), maxSize);
    AfterIs(one, Advance(i, Go), maxSize);
    AfterIs(two, Advance(i, Go), maxSize);
    var s := After(steps, maxSize);
    var three := two + [Advance(i, Go)];
    assert After(three, maxSize).uploads ==
           s.uploads[i := Upload(u, data, Opening)][i := Upload(u, data, Opened)][i := Upload(u, data, Unlocking(409))];
    assert After(three, maxSize).uploads == s.uploads[i := Upload(u, data, Unlocking(409))];
    Unlocks(three, s, i, u, data, [], 409, maxSize);
  }

  /** The stream breaks, or exceeds the limit, after `n` bytes. */
  lemma CutShort(steps: seq<Step>, i: nat, u: string, data: Bytes, n: nat, ev: Event, maxSize: nat)
    requires Free(After(steps, maxSize), i, u) && u !in After(steps, maxSize).disk.finals
    requires n <= |data| && n <= maxSize
    requires ev == Break || (ev.Arrive? && maxSize < n + ev.k <= |data|)
    ensures Rejected(After(steps, maxSize),
                     After(steps + Opens(i, u, data, n) + [Advance(i, ev)] + [Advance(i, Go)], maxSize),
                     i, u, data, if ev.Break? then 500 else 413)
  {
    hide Inv, Whole, HoldersHaveTemps, After;
    var four := steps + Opens(i, u, data, n);
    OpensWrites(steps, i, u, data, n, maxSize);
    AfterIs(four, Advance(i, ev), maxSize);
    var s, st := After(steps, maxSize), if ev.Break? then 500 else 413;
    var five := four + [Advance(i, ev)];
    assert After(five, maxSize).uploads == s.uploads[i := Upload(u, data, Unlocking(st))];
    Unlocks(five, s, i, u, data, data[..n], st, maxSize);
  }

  /** An upload that has arrived whole, up to the request for its entry. */
  function Received(i: nat, u: string, data: Bytes): seq<Step> {
    Opens(i, u, data, |data|) + [Advance(i, Go)] + [Advance(i, Go)]
  }

  lemma ReceivedIs(steps: seq<Step>, i: nat, u: string, data: Bytes, maxSize: nat)
    requires Free(After(steps, maxSize), i, u) && u !in After(steps, maxSize).disk.finals && |data| <= maxSize
    ensures var s, t := After(steps, maxSize), After(steps + Received(i, u, data), maxSize);
      && t.serving && t.uploads == s.uploads[i := Upload(u, data, Statted(|data|))]
      && t.disk == s.disk.(temps := s.disk.temps[u := data]) && t.lost == s.lost
  {
    hide Inv, Whole, HoldersHaveTemps, After;
    var four := steps + Opens(i, u, data, |data|);
    var five := four + [Advance(i, Go)];
    OpensWrites(steps, i, u, data, |data|, maxSize);
    assert data[..|data|] == data;
    AfterIs(four, Advance(i, Go), maxSize);
    AfterIs(five, Advance(i, Go), maxSize);
    assert steps + Received(i, u, data) == five + [Advance(i, Go)];
    var s, t := After(steps, maxSize), After(five + [Advance(i, Go)], maxSize);
    assert t.uploads == s.uploads[i := Upload(u, data, Statted(|data|))];
  }

  /** When the entry is refused the upload fails. */
  lemma Refused(steps: seq<Step>, i: nat, u: string, data: Bytes, maxSize: nat)
    requires Free(After(steps, maxSize), i, u) && u !in After(steps, maxSize).disk.finals && |data| <= maxSize
    ensures Rejected(After(steps, maxSize),
                     After(steps + Received(i, u, data) + [Advance(i, Refuse)] + [Advance(i, Go)], maxSize),
                     i, u, data, 503)
  {
    hide Inv, Whole, HoldersHaveTemps, After, Received;
    var six := steps + Received(i, u, data);
    ReceivedIs(steps, i, u, data, maxSize);
    AfterIs(six, Advance(i, Refuse), maxSize);
    var s := After(steps, maxSize);
    assert After(six + [Advance(i, Refuse)], maxSize).uploads == s.uploads[i := Upload(u, data, Unlocking(503))];
    Unlocks(six + [Advance(i, Refuse)], s, i, u, data, data, 503, maxSize);
  }

  /** An upload of any contents within the limit, to a UUID that is free, is stored whole and nothing else changes. */
  lemma Stored(steps: seq<Step>, i: nat, u: string, data: Bytes, maxSize: nat)
    requires Free(After(steps, maxSize), i, u) && u !in After(steps, maxSize).disk.finals && |data| <= maxSize
    ensures var s := After(steps, maxSize);
      var t := After(steps + Received(i, u, data) + [Advance(i, Go)] + [Advance(i, Go)], maxSize);
      && t.serving && t.uploads == s.uploads[i := Upload(u, data, Finished(201))]
      && t.disk == Disk(s.disk.temps, s.disk.finals[u := data], s.disk.metas[u := |data|])
      && t.lost == s.lost - {u}
  {
    hide Inv, Whole, HoldersHaveTemps, After, Received;
    var six := steps + Received(i, u, data);
    var seven := six + [Advance(i, Go)];
    ReceivedIs(steps, i, u, data, maxSize);
    AfterIs(six, Advance(i, Go), maxSize);
    AfterIs(seven, Advance(i, Go), maxSize);
    var s, t := After(steps, maxSize), After(seven + [Advance(i, Go)], maxSize);
    assert t.uploads == s.uploads[i := Upload(u, data, Finished(201))];
    assert s.disk.temps[u := data] - {u} == s.disk.temps;
  }

  /**
   * A crash puts a UUID at risk exactly when it has an entry and an upload in
   * flight that either is on top of a stored file or is not whole after clean-up.
   */
  lemma CrashDamages(steps: seq<Step>, u: string, e: Disk, maxSize: nat)
    requires After(steps, maxSize).serving && Cleaned(After(steps, maxSize).disk, e)
    ensures var s, t := After(steps, maxSize), After(steps + [Crash], maxSize);
      u in t.damaged <==>
        u in s.damaged ||
        (u in e.metas &&
         exists i ::
           i in s.uploads && Holding(s.uploads[i].phase) && s.uploads[i].uuid == u &&
           (u in s.disk.finals || e.finals[u] != s.uploads[i].data))
  {
    hide Inv, Whole, After, Holding;
    AfterIs(steps, Crash, maxSize);
    var s := After(steps, maxSize);
    if i :| i in s.uploads && Holding(s.uploads[i].phase) && s.uploads[i].uuid == u {
      assert u in s.disk.temps;
    }
    HasWriterOf(s, u, maxSize);
  }

  lemma HasWriterOf(s: State, u: string, maxSize: nat)
    requires Inv(s, maxSize) && s.serving
    ensures u in s.disk.temps <==> exists i :: i in s.uploads && Holding(s.uploads[i].phase) && s.uploads[i].uuid == u
  {
    hide UploadOk, OneWriter, Backed, Holding;
    if u in s.disk.temps {
      assert HasWriter(s, u);
    }
  }

  // ---- Start-up ----

  function Sweeps(us: seq<string>): seq<Step> {
    if us == [] then [] else [Sweep(us[0])] + Sweeps(us[1..])
  }

  /** Start-up that goes once through all temporary files, in any order, is clean-up, and the service can begin. */
  lemma {:induction false} StartsUp(steps: seq<Step>, us: seq<string>, maxSize: nat)
    requires !After(steps, maxSize).serving && forall u :: u in After(steps, maxSize).disk.temps ==> u in us
    ensures var s, t := After(steps, maxSize), After(steps + Sweeps(us), maxSize);
      !t.serving && Cleaned(s.disk, t.disk) && t.damaged == s.damaged && t.lost == s.lost && t.uploads == s.uploads
    ensures After(steps + Sweeps(us) + [Resume], maxSize).serving
    decreases |us|
  {
    hide Inv, Whole, After;
    var s := After(steps, maxSize);
    AfterIs(steps + Sweeps(us), Resume, maxSize);
    if us == [] {
      assert steps + [] == steps;
      assert s.disk.temps == map[];
    } else {
      var one := steps + [Sweep(us[0])];
      AfterIs(steps, Sweep(us[0]), maxSize);
      assert steps + Sweeps(us) == one + Sweeps(us[1..]);
      assert After(one, maxSize).disk == Swept(s.disk, us[0]);
      StartsUp(one, us[1..], maxSize);
      SweepThenClean(s.disk, us[0], After(steps + Sweeps(us), maxSize).disk);
    }
  }

  /** A stored file has the size that its entry says, if the entry belongs to it and no crash has put it at risk. */
  lemma EntrySize(steps: seq<Step>, u: string, maxSize: nat)
    requires u in After(steps, maxSize).disk.finals
    ensures var s := After(steps, maxSize);
      u in s.disk.metas && (u !in s.lost && u !in s.damaged ==> s.disk.metas[u] == |s.disk.finals[u]|)
  {
    hide UploadOk, OneWriter, HoldersHaveTemps, After;
    var s := After(steps, maxSize);
    assert Inv(s, maxSize);
  }
}
