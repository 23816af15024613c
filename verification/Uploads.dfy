/**
 * File uploads: the temporary file that serves as a lock, the metadata entry,
 * the rename, and what start-up does with the files a crash has left behind.
 */
module Uploads {
  import opened Basics

  /** The storage directory and the configuration entries with the size of each file. */
  datatype Disk = Disk(temps: map<string, Bytes>, finals: map<string, Bytes>, metas: map<string, nat>)

  /** Where an upload stands between two awaits. */
  datatype Phase =
    | Opening
    | Opened
    | Writing(n: nat)
    | Written
    | Statted(size: nat)
    | Renaming
    | Unlocking(st: int)
    | Finished(status: int)

  datatype Upload = Upload(uuid: string, data: Bytes, phase: Phase)

  /**
   * `lost`: UUIDs whose entry was stored although the request for it seemed to fail.
   * `damaged`: UUIDs with an entry that at some crash had an upload on top of
   * the stored file, or an upload that had not received all its bytes.
   * `truth`: the content to which each metadata entry belongs.
   * `sent`: every content that was ever uploaded, with its UUID.
   */
  datatype State = State(disk: Disk, uploads: map<nat, Upload>, serving: bool,
                         lost: set<string>, damaged: set<string>, truth: map<string, Bytes>,
                         sent: set<(string, Bytes)>)

  /** What the world decides in a step: bytes arrive, the stream breaks, the configuration service refuses. */
  datatype Event = Go | Arrive(k: nat) | Break | Refuse | LoseReply

  datatype Step =
    | Begin(i: nat, uuid: string, data: Bytes)
    | Advance(i: nat, ev: Event)
    | Crash
    | Sweep(uuid: string)
    | Resume

  predicate Holding(p: Phase) {
    !p.Opening? && !p.Finished?
  }

  // ---- The steps ----

  /** The next step of upload `i`. */
  function Advanced(s: State, i: nat, ev: Event, maxSize: nat): State
    requires i in s.uploads && (Holding(s.uploads[i].phase) ==> s.uploads[i].uuid in s.disk.temps)
  {
    var u, d := s.uploads[i], s.disk;
    var id := u.uuid;
    match u.phase
    case Opening =>
      if id in d.temps then Moved(s, i, Finished(503), d) else Moved(s, i, Opened, d.(temps := d.temps[id := []]))
    case Opened =>
      Moved(s, i, if id in d.finals then Unlocking(409) else Writing(0), d)
    case Writing(n) =>
      (match ev
       case Break => Moved(s, i, Unlocking(500), d)
       case Arrive(k) =>
         if n + k > |u.data| then s
         else if n + k > maxSize then Moved(s, i, Unlocking(413), d)
         else Moved(s, i, Writing(n + k), d.(temps := d.temps[id := d.temps[id] + u.data[n..n + k]]))
       case _ => if n == |u.data| then Moved(s, i, Written, d) else s)
    case Written =>
      Moved(s, i, Statted(|d.temps[id]|), d)
    case Statted(size) =>
      (match ev
       case Refuse => Moved(s, i, Unlocking(503), d)
       case LoseReply =>
         Moved(s, i, Unlocking(503), d.(metas := d.metas[id := size])).(lost := s.lost + {id})
       case _ =>
         Moved(s, i, Renaming, d.(metas := d.metas[id := size])).(lost := s.lost - {id}, truth := s.truth[id := u.data]))
    case Renaming =>
      Moved(s, i, Finished(201), d.(finals := d.finals[id := d.temps[id]], temps := d.temps - {id}))
    case Unlocking(st) =>
      Moved(s, i, Finished(st), d.(temps := d.temps - {id}))
    case Finished(_) => s
  }

  function Moved(s: State, i: nat, p: Phase, d: Disk): State
    requires i in s.uploads
  {
    s.(disk := d, uploads := s.uploads[i := s.uploads[i].(phase := p)])
  }

  /** What start-up does with one temporary file. */
  function Swept(d: Disk, u: string): Disk {
    if u !in d.temps then d
    else if u in d.metas then d.(finals := d.finals[u := d.temps[u]], temps := d.temps - {u})
    else d.(temps := d.temps - {u})
  }

  /** Some upload to this UUID has the lock and not all its bytes on the disk. */
  predicate Unfinished(s: State, u: string) {
    exists i :: i in s.uploads && Holding(s.uploads[i].phase) && s.uploads[i].uuid == u &&
      u in s.disk.temps && s.disk.temps[u] != s.uploads[i].data
  }

  /** Clean-up after a crash now would put something else in the place of this file. */
  predicate AtRisk(s: State, u: string) {
    u in s.disk.metas && (u in s.disk.finals || Unfinished(s, u))
  }

  function Apply(s: State, step: Step, maxSize: nat): State
    requires HoldersHaveTemps(s)
  {
    match step
    case Begin(i, uuid, data) =>
      if s.serving && i !in s.uploads then
        s.(uploads := s.uploads[i := Upload(uuid, data, Opening)], sent := s.sent + {(uuid, data)})
      else s
    case Advance(i, ev) =>
      if s.serving && i in s.uploads then Advanced(s, i, ev, maxSize) else s
    case Crash =>
      s.(uploads := map[], serving := false,
         damaged := s.damaged + set u | u in s.disk.temps && AtRisk(s, u))
    case Sweep(u) =>
      if s.serving then s else s.(disk := Swept(s.disk, u))
    case Resume =>
      if s.disk.temps == map[] then s.(serving := true) else s
  }

  // ---- The invariant ----

  predicate HoldersHaveTemps(s: State) {
    forall i :: i in s.uploads && Holding(s.uploads[i].phase) ==> s.uploads[i].uuid in s.disk.temps
  }

  /** Each UUID has at most one writer. */
  predicate OneWriter(s: State) {
    forall i, j :: (i in s.uploads && j in s.uploads && i != j &&
      Holding(s.uploads[i].phase) && Holding(s.uploads[j].phase)) ==> s.uploads[i].uuid != s.uploads[j].uuid
  }

  predicate HasWriter(s: State, u: string) {
    exists i :: i in s.uploads && Holding(s.uploads[i].phase) && s.uploads[i].uuid == u
  }

  predicate HasRenamer(s: State, u: string) {
    exists i :: i in s.uploads && s.uploads[i].phase.Renaming? && s.uploads[i].uuid == u
  }

  /** What the disk holds for an upload that has the lock. */
  predicate UploadOk(s: State, u: Upload, maxSize: nat)
    requires Holding(u.phase) ==> u.uuid in s.disk.temps
  {
    var id, d := u.uuid, s.disk;
    match u.phase
    case Opening | Finished(_) => true
    case Opened => d.temps[id] == []
    case Writing(n) => n <= |u.data| && n <= maxSize && d.temps[id] == u.data[..n] && id !in d.finals
    case Written => |u.data| <= maxSize && d.temps[id] == u.data && id !in d.finals
    case Statted(size) => size == |u.data| <= maxSize && d.temps[id] == u.data && id !in d.finals
    case Renaming =>
      && |u.data| <= maxSize && d.temps[id] == u.data && id !in d.finals
      && id in d.metas && d.metas[id] == |u.data| && id !in s.lost && id in s.truth && s.truth[id] == u.data
    case Unlocking(st) =>
      && st != 201
      && if st == 409 then id in d.finals && d.temps[id] == [] else d.temps[id] <= u.data && id !in d.finals
  }

  /** The entry of `u` is backed: by the stored file, or by a complete temporary file about to be renamed. */
  predicate Backed(s: State, u: string) {
    && u in s.disk.metas && u in s.truth && s.disk.metas[u] == |s.truth[u]|
    && (if u in s.disk.finals then
          && (u !in s.damaged ==> s.disk.finals[u] == s.truth[u])
          && (!s.serving && u in s.disk.temps ==> u in s.damaged)
        else
          && u in s.disk.temps && s.disk.temps[u] == s.truth[u]
          && (s.serving ==> HasRenamer(s, u)))
  }

  predicate Inv(s: State, maxSize: nat) {
    && HoldersHaveTemps(s) && OneWriter(s)
    && (forall i :: i in s.uploads ==> UploadOk(s, s.uploads[i], maxSize))
    && (forall u :: u in s.disk.temps && s.serving ==> HasWriter(s, u))
    && (!s.serving ==> s.uploads == map[])
    && (forall u :: u in s.disk.finals ==> u in s.disk.metas)
    && (forall u :: u in s.disk.metas && u !in s.lost ==> Backed(s, u))
  }

  /** Every stored file is the whole of something that was uploaded under its UUID, unless it was damaged. */
  predicate Whole(s: State) {
    && (forall i :: i in s.uploads ==> (s.uploads[i].uuid, s.uploads[i].data) in s.sent)
    && (forall u :: u in s.disk.finals && u !in s.damaged ==> (u, s.disk.finals[u]) in s.sent)
    && (!s.serving ==>
          forall u :: u in s.disk.temps && u in s.disk.metas && u !in s.damaged ==> (u, s.disk.temps[u]) in s.sent)
  }

  const EMPTY := State(Disk(map[], map[], map[]), map[], false, {}, {}, map[], {})

  lemma EmptyInv(maxSize: nat)
    ensures Inv(EMPTY, maxSize) && Whole(EMPTY)
  {
  }

  // ---- One upload's step leaves the others alone ----

  /** The two states hold the same for the UUID `k`. */
  predicate SameAt(s: State, t: State, k: string) {
    && (k in s.disk.temps <==> k in t.disk.temps) && (k in s.disk.temps ==> s.disk.temps[k] == t.disk.temps[k])
    && (k in s.disk.finals <==> k in t.disk.finals) && (k in s.disk.finals ==> s.disk.finals[k] == t.disk.finals[k])
    && (k in s.disk.metas <==> k in t.disk.metas) && (k in s.disk.metas ==> s.disk.metas[k] == t.disk.metas[k])
    && (k in s.lost <==> k in t.lost)
    && (k in s.truth <==> k in t.truth) && (k in s.truth ==> s.truth[k] == t.truth[k])
  }

  /** An upload that does not have the lock, and finds it taken, changes nothing on the disk. */
  predicate Excluded(s: State, u: Upload) {
    !Holding(u.phase) && u.uuid in s.disk.temps
  }

  lemma AdvanceFrame(s: State, i: nat, ev: Event, k: string, maxSize: nat)
    requires i in s.uploads && (Holding(s.uploads[i].phase) ==> s.uploads[i].uuid in s.disk.temps)
    requires k != s.uploads[i].uuid || Excluded(s, s.uploads[i])
    ensures SameAt(s, Advanced(s, i, ev, maxSize), k)
  {
    hide Advanced, SameAt;
    if s.uploads[i].phase.Writing? {
      WritingFrame(s, i, ev, k, maxSize);
    } else if s.uploads[i].phase.Statted? {
      StattedFrame(s, i, ev, k, maxSize);
    } else {
      OtherFrame(s, i, ev, k, maxSize);
    }
  }

  lemma WritingFrame(s: State, i: nat, ev: Event, k: string, maxSize: nat)
    requires i in s.uploads && s.uploads[i].phase.Writing? && s.uploads[i].uuid in s.disk.temps
    requires k != s.uploads[i].uuid
    ensures SameAt(s, Advanced(s, i, ev, maxSize), k)
  {
  }

  lemma StattedFrame(s: State, i: nat, ev: Event, k: string, maxSize: nat)
    requires i in s.uploads && s.uploads[i].phase.Statted? && s.uploads[i].uuid in s.disk.temps
    requires k != s.uploads[i].uuid
    ensures SameAt(s, Advanced(s, i, ev, maxSize), k)
  {
  }

  lemma OtherFrame(s: State, i: nat, ev: Event, k: string, maxSize: nat)
    requires i in s.uploads && (Holding(s.uploads[i].phase) ==> s.uploads[i].uuid in s.disk.temps)
    requires !s.uploads[i].phase.Writing? && !s.uploads[i].phase.Statted?
    requires k != s.uploads[i].uuid || Excluded(s, s.uploads[i])
    ensures SameAt(s, Advanced(s, i, ev, maxSize), k)
  {
  }

  lemma MovedUploads(s: State, i: nat, p: Phase, d: Disk)
    requires i in s.uploads
    ensures var t := Moved(s, i, p, d);
      && i in t.uploads && t.uploads == s.uploads[i := s.uploads[i].(phase := t.uploads[i].phase)]
      && t.serving == s.serving && t.damaged == s.damaged && t.sent == s.sent
  {
  }

  lemma AdvanceUploads(s: State, i: nat, ev: Event, maxSize: nat)
    requires i in s.uploads && (Holding(s.uploads[i].phase) ==> s.uploads[i].uuid in s.disk.temps)
    ensures var t := Advanced(s, i, ev, maxSize);
      && i in t.uploads && t.uploads == s.uploads[i := s.uploads[i].(phase := t.uploads[i].phase)]
      && t.serving == s.serving && t.damaged == s.damaged && t.sent == s.sent
  {
    hide Moved;
    forall p, d {
      MovedUploads(s, i, p, d);
    }
    assert s.uploads == s.uploads[i := s.uploads[i].(phase := s.uploads[i].phase)];
  }

  /** Who has the lock after the step, and that the file is there exactly then. */
  lemma AdvanceLock(s: State, i: nat, ev: Event, maxSize: nat)
    requires i in s.uploads && (Holding(s.uploads[i].phase) ==> s.uploads[i].uuid in s.disk.temps)
    requires i in Advanced(s, i, ev, maxSize).uploads
    ensures var t, id := Advanced(s, i, ev, maxSize), s.uploads[i].uuid;
      && (id in t.disk.temps && !Excluded(s, s.uploads[i]) ==> Holding(t.uploads[i].phase))
      && (Holding(t.uploads[i].phase) ==> id in t.disk.temps && !Excluded(s, s.uploads[i]))
  {
    if s.uploads[i].phase.Writing? || s.uploads[i].phase.Statted? {
      LongerLock(s, i, ev, maxSize);
    }
  }

  lemma LongerLock(s: State, i: nat, ev: Event, maxSize: nat)
    requires i in s.uploads && s.uploads[i].uuid in s.disk.temps
    requires s.uploads[i].phase.Writing? || s.uploads[i].phase.Statted?
    requires i in Advanced(s, i, ev, maxSize).uploads
    ensures Holding(Advanced(s, i, ev, maxSize).uploads[i].phase)
    ensures s.uploads[i].uuid in Advanced(s, i, ev, maxSize).disk.temps
  {
  }

  lemma OkFrame(s: State, t: State, u: Upload, maxSize: nat)
    requires Holding(u.phase) ==> u.uuid in s.disk.temps
    requires SameAt(s, t, u.uuid) && UploadOk(s, u, maxSize)
    ensures UploadOk(t, u, maxSize)
  {
  }

  lemma OthersKept(s: State, i: nat, j: nat, ev: Event, maxSize: nat)
    requires HoldersHaveTemps(s) && OneWriter(s) && i in s.uploads && j in s.uploads && j != i
    requires UploadOk(s, s.uploads[j], maxSize)
    ensures var t := Advanced(s, i, ev, maxSize);
      && (Holding(s.uploads[j].phase) ==> s.uploads[j].uuid in t.disk.temps)
      && UploadOk(t, s.uploads[j], maxSize)
  {
    hide Advanced, UploadOk;
    if Holding(s.uploads[j].phase) {
      AdvanceFrame(s, i, ev, s.uploads[j].uuid, maxSize);
      OkFrame(s, Advanced(s, i, ev, maxSize), s.uploads[j], maxSize);
    } else {
      IdleOk(Advanced(s, i, ev, maxSize), s.uploads[j], maxSize);
    }
  }

  lemma IdleOk(s: State, u: Upload, maxSize: nat)
    requires !Holding(u.phase)
    ensures UploadOk(s, u, maxSize)
  {
  }

  lemma OwnOk(s: State, i: nat, ev: Event, maxSize: nat)
    requires i in s.uploads && (Holding(s.uploads[i].phase) ==> s.uploads[i].uuid in s.disk.temps)
    requires UploadOk(s, s.uploads[i], maxSize)
    ensures i in Advanced(s, i, ev, maxSize).uploads
    ensures var t := Advanced(s, i, ev, maxSize);
      && (Holding(t.uploads[i].phase) ==> t.uploads[i].uuid in t.disk.temps)
      && UploadOk(t, t.uploads[i], maxSize)
  {
    hide Advanced, UploadOk;
    if s.uploads[i].phase.Writing? {
      OwnWritingOk(s, i, ev, maxSize);
    } else if s.uploads[i].phase.Written? || s.uploads[i].phase.Statted? {
      OwnWrittenOk(s, i, ev, maxSize);
    } else {
      OwnOtherOk(s, i, ev, maxSize);
    }
  }

  lemma OwnWritingOk(s: State, i: nat, ev: Event, maxSize: nat)
    requires i in s.uploads && s.uploads[i].phase.Writing? && s.uploads[i].uuid in s.disk.temps
    requires UploadOk(s, s.uploads[i], maxSize)
    ensures i in Advanced(s, i, ev, maxSize).uploads
    ensures var t := Advanced(s, i, ev, maxSize);
      && (Holding(t.uploads[i].phase) ==> t.uploads[i].uuid in t.disk.temps)
      && UploadOk(t, t.uploads[i], maxSize)
  {
    var u := s.uploads[i];
    assert u.data[..|u.data|] == u.data;
    if ev.Arrive? && u.phase.n + ev.k <= |u.data| {
      assert u.data[..u.phase.n] + u.data[u.phase.n..u.phase.n + ev.k] == u.data[..u.phase.n + ev.k];
    }
  }

  lemma OwnWrittenOk(s: State, i: nat, ev: Event, maxSize: nat)
    requires i in s.uploads && s.uploads[i].uuid in s.disk.temps && UploadOk(s, s.uploads[i], maxSize)
    requires s.uploads[i].phase.Written? || s.uploads[i].phase.Statted?
    ensures i in Advanced(s, i, ev, maxSize).uploads
    ensures var t := Advanced(s, i, ev, maxSize);
      && (Holding(t.uploads[i].phase) ==> t.uploads[i].uuid in t.disk.temps)
      && UploadOk(t, t.uploads[i], maxSize)
  {
  }

  lemma OwnOtherOk(s: State, i: nat, ev: Event, maxSize: nat)
    requires i in s.uploads && (Holding(s.uploads[i].phase) ==> s.uploads[i].uuid in s.disk.temps)
    requires UploadOk(s, s.uploads[i], maxSize)
    requires !s.uploads[i].phase.Writing? && !s.uploads[i].phase.Written? && !s.uploads[i].phase.Statted?
    ensures i in Advanced(s, i, ev, maxSize).uploads
    ensures var t := Advanced(s, i, ev, maxSize);
      && (Holding(t.uploads[i].phase) ==> t.uploads[i].uuid in t.disk.temps)
      && UploadOk(t, t.uploads[i], maxSize)
  {
  }

  lemma WritersKept(s: State, i: nat, ev: Event, maxSize: nat)
    requires HoldersHaveTemps(s) && OneWriter(s) && i in s.uploads
    requires forall u :: u in s.disk.temps ==> HasWriter(s, u)
    ensures var t := Advanced(s, i, ev, maxSize);
      OneWriter(t) && forall u :: u in t.disk.temps ==> HasWriter(t, u)
  {
    hide Advanced;
    AdvanceUploads(s, i, ev, maxSize);
    AdvanceLock(s, i, ev, maxSize);
    var t, id := Advanced(s, i, ev, maxSize), s.uploads[i].uuid;
    forall u | u in t.disk.temps ensures HasWriter(t, u) {
      if u == id && !Excluded(s, s.uploads[i]) {
        assert i in t.uploads && t.uploads[i].uuid == u;
      } else {
        AdvanceFrame(s, i, ev, u, maxSize);
        assert HasWriter(s, u);
        var j :| j in s.uploads && Holding(s.uploads[j].phase) && s.uploads[j].uuid == u;
        assert j in t.uploads && t.uploads[j] == s.uploads[j];
      }
    }
  }

  lemma StoredHaveEntries(s: State, i: nat, ev: Event, maxSize: nat)
    requires HoldersHaveTemps(s) && i in s.uploads && UploadOk(s, s.uploads[i], maxSize)
    requires forall u :: u in s.disk.finals ==> u in s.disk.metas
    ensures forall u :: u in Advanced(s, i, ev, maxSize).disk.finals ==> u in Advanced(s, i, ev, maxSize).disk.metas
  {
  }

  lemma BackedFrame(s: State, t: State, k: string)
    requires Backed(s, k) && SameAt(s, t, k) && s.serving == t.serving && s.damaged == t.damaged
    requires HasRenamer(s, k) ==> HasRenamer(t, k)
    ensures Backed(t, k)
  {
  }

  /** The entry of the UUID that upload `i` is about. */
  lemma OwnBacked(s: State, i: nat, ev: Event, maxSize: nat)
    requires i in s.uploads && (Holding(s.uploads[i].phase) ==> s.uploads[i].uuid in s.disk.temps) && s.serving
    requires UploadOk(s, s.uploads[i], maxSize)
    requires !Excluded(s, s.uploads[i])
    requires var id := s.uploads[i].uuid;
      id in s.disk.metas && id !in s.lost && !s.uploads[i].phase.Renaming? ==> Backed(s, id) && id in s.disk.finals
    ensures var t, id := Advanced(s, i, ev, maxSize), s.uploads[i].uuid;
      id in t.disk.metas && id !in t.lost ==> Backed(t, id)
  {
    hide HasRenamer;
    var t := Advanced(s, i, ev, maxSize);
    AdvanceUploads(s, i, ev, maxSize);
    RenamerIs(t, i);
    match s.uploads[i].phase
    case Opening =>
    case Opened =>
    case Writing(_) =>
    case Written =>
    case Statted(_) =>
    case Renaming =>
    case Unlocking(_) =>
    case Finished(_) =>
  }

  lemma RenamerIs(s: State, i: nat)
    ensures i in s.uploads && s.uploads[i].phase.Renaming? ==> HasRenamer(s, s.uploads[i].uuid)
  {
  }

  lemma BackedKept(s: State, i: nat, ev: Event, k: string, maxSize: nat)
    requires Inv(s, maxSize) && s.serving && i in s.uploads
    requires k in Advanced(s, i, ev, maxSize).disk.metas && k !in Advanced(s, i, ev, maxSize).lost
    ensures Backed(Advanced(s, i, ev, maxSize), k)
  {
    hide Advanced, Backed, UploadOk;
    var t, u := Advanced(s, i, ev, maxSize), s.uploads[i];
    AdvanceUploads(s, i, ev, maxSize);
    if k != u.uuid || Excluded(s, u) {
      AdvanceFrame(s, i, ev, k, maxSize);
      if HasRenamer(s, k) {
        var j :| j in s.uploads && s.uploads[j].phase.Renaming? && s.uploads[j].uuid == k;
        assert j in t.uploads && t.uploads[j] == s.uploads[j];
      }
      BackedFrame(s, t, k);
    } else {
      OwnBackedHolds(s, i, maxSize);
      OwnBacked(s, i, ev, maxSize);
    }
  }

  /** An upload that has the lock and is not renaming knows that nobody else is. */
  lemma OwnBackedHolds(s: State, i: nat, maxSize: nat)
    requires Inv(s, maxSize) && s.serving && i in s.uploads && !Excluded(s, s.uploads[i])
    ensures var id := s.uploads[i].uuid;
      id in s.disk.metas && id !in s.lost && !s.uploads[i].phase.Renaming? ==> Backed(s, id) && id in s.disk.finals
  {
    hide UploadOk;
  }

  lemma AdvanceKeeps(s: State, i: nat, ev: Event, maxSize: nat)
    requires Inv(s, maxSize) && s.serving && i in s.uploads
    ensures Inv(Advanced(s, i, ev, maxSize), maxSize)
  {
    hide Advanced, Backed, UploadOk;
    var t := Advanced(s, i, ev, maxSize);
    AdvanceUploads(s, i, ev, maxSize);
    WritersKept(s, i, ev, maxSize);
    StoredHaveEntries(s, i, ev, maxSize);
    OwnOk(s, i, ev, maxSize);
    forall j | j in t.uploads
      ensures Holding(t.uploads[j].phase) ==> t.uploads[j].uuid in t.disk.temps
      ensures UploadOk(t, t.uploads[j], maxSize)
    {
      if j != i {
        OthersKept(s, i, j, ev, maxSize);
      }
    }
    forall k | k in t.disk.metas && k !in t.lost ensures Backed(t, k) {
      BackedKept(s, i, ev, k, maxSize);
    }
  }

  lemma SweepKeeps(s: State, u: string, maxSize: nat)
    requires Inv(s, maxSize) && !s.serving
    ensures Inv(s.(disk := Swept(s.disk, u)), maxSize)
  {
    var t := s.(disk := Swept(s.disk, u));
    forall k | k in t.disk.metas && k !in t.lost ensures Backed(t, k) {
      assert Backed(s, k);
    }
  }

  lemma CrashKeeps(s: State, maxSize: nat)
    requires Inv(s, maxSize)
    ensures Inv(Apply(s, Crash, maxSize), maxSize)
  {
    var t := Apply(s, Crash, maxSize);
    forall k | k in t.disk.metas && k !in t.lost ensures Backed(t, k) {
      assert Backed(s, k);
    }
  }

  lemma ResumeKeeps(s: State, maxSize: nat)
    requires Inv(s, maxSize)
    ensures Inv(Apply(s, Resume, maxSize), maxSize)
  {
    var t := Apply(s, Resume, maxSize);
    forall k | k in t.disk.metas && k !in t.lost ensures Backed(t, k) {
      assert Backed(s, k);
      assert HasRenamer(s, k) ==> HasRenamer(t, k);
    }
  }

  lemma BeginKeeps(s: State, i: nat, uuid: string, data: Bytes, maxSize: nat)
    requires Inv(s, maxSize)
    ensures Inv(Apply(s, Begin(i, uuid, data), maxSize), maxSize)
  {
    hide Backed, UploadOk, SameAt;
    var t := Apply(s, Begin(i, uuid, data), maxSize);
    if t != s {
      forall j | j in t.uploads
        ensures Holding(t.uploads[j].phase) ==> t.uploads[j].uuid in t.disk.temps
        ensures UploadOk(t, t.uploads[j], maxSize)
      {
        if j == i {
          IdleOk(t, t.uploads[j], maxSize);
        } else {
          SameDisk(s, t, s.uploads[j].uuid);
          OkFrame(s, t, s.uploads[j], maxSize);
        }
      }
      forall u | u in t.disk.temps && t.serving ensures HasWriter(t, u) {
        var j :| j in s.uploads && Holding(s.uploads[j].phase) && s.uploads[j].uuid == u;
        assert j in t.uploads && t.uploads[j] == s.uploads[j];
      }
      forall k | k in t.disk.metas && k !in t.lost ensures Backed(t, k) {
        if HasRenamer(s, k) {
          var j :| j in s.uploads && s.uploads[j].phase.Renaming? && s.uploads[j].uuid == k;
          assert j in t.uploads && t.uploads[j] == s.uploads[j];
        }
        SameDisk(s, t, k);
        BackedFrame(s, t, k);
      }
    }
  }

  lemma SameDisk(s: State, t: State, k: string)
    requires t.disk == s.disk && t.lost == s.lost && t.truth == s.truth
    ensures SameAt(s, t, k)
  {
  }

  lemma StepKeeps(s: State, step: Step, maxSize: nat)
    requires Inv(s, maxSize)
    ensures Inv(Apply(s, step, maxSize), maxSize)
  {
    hide Inv, Advanced;
    InvFacts(s, maxSize);
    match step
    case Begin(i, uuid, data) => BeginKeeps(s, i, uuid, data, maxSize);
    case Advance(i, ev) =>
      if s.serving && i in s.uploads {
        AdvanceKeeps(s, i, ev, maxSize);
      }
    case Crash => CrashKeeps(s, maxSize);
    case Sweep(u) =>
      if !s.serving {
        SweepKeeps(s, u, maxSize);
      }
    case Resume => ResumeKeeps(s, maxSize);
  }

  lemma InvFacts(s: State, maxSize: nat)
    requires Inv(s, maxSize)
    ensures HoldersHaveTemps(s) && OneWriter(s)
  {
  }

  lemma RenamedIsStored(s: State, i: nat, ev: Event, maxSize: nat)
    requires Inv(s, maxSize) && i in s.uploads && s.uploads[i].phase != Finished(201)
    requires i in Advanced(s, i, ev, maxSize).uploads
    requires Advanced(s, i, ev, maxSize).uploads[i].phase == Finished(201)
    ensures var d, u := Advanced(s, i, ev, maxSize).disk, s.uploads[i];
      && u.uuid in d.finals && d.finals[u.uuid] == u.data && |u.data| <= maxSize
      && u.uuid in d.metas && d.metas[u.uuid] == |u.data| && u.uuid !in d.temps
  {
    hide OneWriter, Backed;
    assert UploadOk(s, s.uploads[i], maxSize);
  }

  // ---- Stored files are whole uploads ----

  lemma AdvanceFinals(s: State, i: nat, ev: Event, maxSize: nat)
    requires i in s.uploads && (Holding(s.uploads[i].phase) ==> s.uploads[i].uuid in s.disk.temps)
    ensures Advanced(s, i, ev, maxSize).disk.finals ==
      if s.uploads[i].phase.Renaming? then s.disk.finals[s.uploads[i].uuid := s.disk.temps[s.uploads[i].uuid]]
      else s.disk.finals
  {
  }

  lemma AdvanceStores(s: State, i: nat, ev: Event, u: string, maxSize: nat)
    requires i in s.uploads && (Holding(s.uploads[i].phase) ==> s.uploads[i].uuid in s.disk.temps)
    requires UploadOk(s, s.uploads[i], maxSize)
    requires u in Advanced(s, i, ev, maxSize).disk.finals
    ensures var f := Advanced(s, i, ev, maxSize).disk.finals;
      (u in s.disk.finals && f[u] == s.disk.finals[u]) || (u == s.uploads[i].uuid && f[u] == s.uploads[i].data)
  {
    hide Advanced;
    AdvanceFinals(s, i, ev, maxSize);
  }

  lemma CrashKeepsWhole(s: State, maxSize: nat)
    requires Inv(s, maxSize) && Whole(s)
    ensures Whole(Apply(s, Crash, maxSize))
  {
    hide UploadOk, Backed, OneWriter;
    var t := Apply(s, Crash, maxSize);
    forall u | u in t.disk.temps && u in t.disk.metas && u !in t.damaged ensures (u, t.disk.temps[u]) in t.sent {
      assert !AtRisk(s, u);
      if s.serving {
        assert HasWriter(s, u);
        var i :| i in s.uploads && Holding(s.uploads[i].phase) && s.uploads[i].uuid == u;
        assert s.disk.temps[u] == s.uploads[i].data;
      }
    }
  }

  lemma StepKeepsWhole(s: State, step: Step, maxSize: nat)
    requires Inv(s, maxSize) && Whole(s)
    ensures Whole(Apply(s, step, maxSize))
  {
    hide Advanced, UploadOk, Backed, OneWriter;
    var t := Apply(s, step, maxSize);
    match step
    case Begin(_, _, _) =>
    case Advance(i, ev) =>
      if s.serving && i in s.uploads {
        AdvanceUploads(s, i, ev, maxSize);
        forall u | u in t.disk.finals && u !in t.damaged ensures (u, t.disk.finals[u]) in t.sent {
          AdvanceStores(s, i, ev, u, maxSize);
        }
      }
    case Crash => CrashKeepsWhole(s, maxSize);
    case Sweep(_) =>
    case Resume =>
  }

  // ---- Runs ----

  /** The state after a run from an empty disk. */
  function After(steps: seq<Step>, maxSize: nat): (s: State)
    ensures Inv(s, maxSize) && Whole(s)
    decreases |steps|
  {
    if steps == [] then
      EmptyInv(maxSize);
      EMPTY
    else
      var last := |steps| - 1;
      var s := After(steps[..last], maxSize);
      InvFacts(s, maxSize);
      StepKeeps(s, steps[last], maxSize);
      StepKeepsWhole(s, steps[last], maxSize);
      Apply(s, steps[last], maxSize)
  }

  lemma AdvanceKeepsStored(s: State, i: nat, ev: Event, u: string, maxSize: nat)
    requires Inv(s, maxSize) && i in s.uploads && u in s.disk.finals
    ensures u in Advanced(s, i, ev, maxSize).disk.finals
    ensures Advanced(s, i, ev, maxSize).disk.finals[u] == s.disk.finals[u]
  {
    hide OneWriter, Backed, Advanced;
    AdvanceFinals(s, i, ev, maxSize);
    assert UploadOk(s, s.uploads[i], maxSize);
  }

  /** While the service runs, a stored file is never replaced nor removed. */
  lemma StoredIsKept(steps: seq<Step>, step: Step, u: string, maxSize: nat)
    requires u in After(steps, maxSize).disk.finals && !step.Sweep?
    ensures u in After(steps + [step], maxSize).disk.finals
    ensures After(steps + [step], maxSize).disk.finals[u] == After(steps, maxSize).disk.finals[u]
  {
    hide Inv, Advanced;
    assert (steps + [step])[..|steps|] == steps;
    var s := After(steps, maxSize);
    InvFacts(s, maxSize);
    if step.Advance? && s.serving && step.i in s.uploads {
      AdvanceKeepsStored(s, step.i, step.ev, u, maxSize);
    }
  }

  /** An upload that is answered with 201 has stored all of its data under a metadata entry of its size. */
  lemma CreatedIsStored(steps: seq<Step>, i: nat, ev: Event, maxSize: nat)
    requires i in After(steps, maxSize).uploads && After(steps, maxSize).serving
    requires After(steps, maxSize).uploads[i].phase != Finished(201)
    requires i in After(steps + [Advance(i, ev)], maxSize).uploads
    requires After(steps + [Advance(i, ev)], maxSize).uploads[i].phase == Finished(201)
    ensures var s, u := After(steps + [Advance(i, ev)], maxSize).disk, After(steps, maxSize).uploads[i];
      && u.uuid in s.finals && s.finals[u.uuid] == u.data && |u.data| <= maxSize
      && u.uuid in s.metas && s.metas[u.uuid] == |u.data| && u.uuid !in s.temps
  {
    hide Inv;
    assert (steps + [Advance(i, ev)])[..|steps|] == steps;
    RenamedIsStored(After(steps, maxSize), i, ev, maxSize);
  }

  // ---- Crash and clean-up ----

  /** The outcome of clean-up, file by file. */
  ghost predicate Cleaned(d: Disk, e: Disk) {
    && e.temps == map[] && e.metas == d.metas
    && (forall u :: u in d.finals || (u in d.temps && u in d.metas) ==> u in e.finals)
    && (forall u :: u in e.finals ==> u in d.finals || (u in d.temps && u in d.metas))
    && (forall u :: u in e.finals ==>
          e.finals[u] == if u in d.temps && u in d.metas then d.temps[u] else d.finals[u])
  }

  /** Clean-up may be cut short and begun again, and may take the files in any order. */
  lemma SweepThenClean(d: Disk, u: string, e: Disk)
    requires Cleaned(Swept(d, u), e)
    ensures Cleaned(d, e)
  {
    forall k | k in e.finals
      ensures k in d.finals || (k in d.temps && k in d.metas)
      ensures e.finals[k] == if k in d.temps && k in d.metas then d.temps[k] else d.finals[k]
    {
      assert k in Swept(d, u).finals || (k in Swept(d, u).temps && k in Swept(d, u).metas);
    }
  }

  lemma CleanedIsUnique(d: Disk, e: Disk, f: Disk)
    requires Cleaned(d, e) && Cleaned(d, f)
    ensures e == f
  {
    assert e.finals == f.finals;
  }

  /** An upload of a file that is already stored. */
  predicate PutOnStored(s: State, u: string) {
    u in s.disk.finals && HasWriter(s, u)
  }

  /** How many bytes of an upload are in its temporary file. */
  function Arrived(s: State, i: nat): nat
    requires i in s.uploads && Holding(s.uploads[i].phase) && s.uploads[i].uuid in s.disk.temps
  {
    var u := s.uploads[i];
    if u.phase.Opened? then 0
    else if u.phase.Writing? then u.phase.n
    else if u.phase.Unlocking? then |s.disk.temps[u.uuid]|
    else |u.data|
  }

  lemma ArrivedIsPrefix(s: State, i: nat, maxSize: nat)
    requires Inv(s, maxSize) && i in s.uploads && Holding(s.uploads[i].phase)
    ensures var u := s.uploads[i];
      && u.uuid in s.disk.temps && Arrived(s, i) <= |u.data| && s.disk.temps[u.uuid] == u.data[..Arrived(s, i)]
      && (s.disk.temps[u.uuid] == u.data <==> Arrived(s, i) == |u.data|)
  {
    hide Backed, OneWriter;
    var u := s.uploads[i];
    assert UploadOk(s, u, maxSize);
    assert u.data[..|u.data|] == u.data;
  }

  /**
   * A crash of the running service at any step, then clean-up. No temporary
   * file is left. An entry is without a file exactly when the reply to its
   * request was lost and no upload to it is stored or under way. A stored file
   * keeps its content if and only if no upload to its UUID was under way or it
   * was empty anyway.
   */
  lemma CrashRecovery(steps: seq<Step>, e: Disk, maxSize: nat)
    requires After(steps, maxSize).serving && Cleaned(After(steps, maxSize).disk, e)
    ensures var s := After(steps, maxSize);
      && e.temps == map[]
      && (forall u :: u in e.metas ==>
            (u !in e.finals <==> u in s.lost && u !in s.disk.finals && !HasWriter(s, u)))
      && (forall u :: u in e.finals ==> u in e.metas)
      && (forall u :: u in s.disk.finals ==> u in e.finals)
      && (forall u :: u in s.disk.finals ==>
            (e.finals[u] == s.disk.finals[u] <==> !PutOnStored(s, u) || s.disk.finals[u] == []))
  {
    hide Inv, UploadOk, Backed;
    var s := After(steps, maxSize);
    forall u | u in s.disk.metas
      ensures u !in e.finals <==> u in s.lost && u !in s.disk.finals && !HasWriter(s, u)
    {
      EntryBacked(s, u, maxSize);
    }
    forall u | u in e.finals ensures u in e.metas {
      EntryBacked(s, u, maxSize);
    }
    forall u | u in s.disk.finals
      ensures e.finals[u] == s.disk.finals[u] <==> !PutOnStored(s, u) || s.disk.finals[u] == []
    {
      EntryBacked(s, u, maxSize);
      if HasWriter(s, u) {
        var i :| i in s.uploads && Holding(s.uploads[i].phase) && s.uploads[i].uuid == u;
        OverStored(s, i, maxSize);
      }
    }
  }

  lemma EntryBacked(s: State, u: string, maxSize: nat)
    requires Inv(s, maxSize) && s.serving
    ensures u in s.disk.finals ==> u in s.disk.metas
    ensures u in s.disk.temps <==> HasWriter(s, u)
    ensures u in s.disk.metas && u !in s.lost && u !in s.disk.finals ==> u in s.disk.temps && HasRenamer(s, u)
  {
    hide UploadOk, OneWriter;
    if u in s.disk.metas && u !in s.lost {
      assert Backed(s, u);
    }
  }

  lemma OverStored(s: State, i: nat, maxSize: nat)
    requires Inv(s, maxSize) && i in s.uploads && Holding(s.uploads[i].phase) && s.uploads[i].uuid in s.disk.finals
    ensures s.uploads[i].uuid in s.disk.temps && s.disk.temps[s.uploads[i].uuid] == []
  {
    hide Backed, OneWriter;
    assert UploadOk(s, s.uploads[i], maxSize);
  }

  /**
   * What clean-up makes of an interrupted upload whose UUID has an entry and
   * no file: it stores the bytes that had arrived. That is the whole upload if
   * and only if all had; and short of that the entry is one whose reply was lost.
   */
  lemma InterruptedUpload(steps: seq<Step>, i: nat, e: Disk, maxSize: nat)
    requires After(steps, maxSize).serving && Cleaned(After(steps, maxSize).disk, e)
    requires i in After(steps, maxSize).uploads && Holding(After(steps, maxSize).uploads[i].phase)
    requires After(steps, maxSize).uploads[i].uuid in e.metas
    requires After(steps, maxSize).uploads[i].uuid !in After(steps, maxSize).disk.finals
    ensures var s := After(steps, maxSize);
      var u := s.uploads[i];
      && u.uuid in s.disk.temps && Arrived(s, i) <= |u.data|
      && u.uuid in e.finals && e.finals[u.uuid] == u.data[..Arrived(s, i)]
      && (e.finals[u.uuid] == u.data <==> Arrived(s, i) == |u.data|)
      && (u.uuid !in s.lost <==> u.phase.Renaming?)
      && (u.uuid !in s.lost ==> Arrived(s, i) == |u.data| && e.metas[u.uuid] == |u.data|)
  {
    hide Inv, UploadOk, Backed, OneWriter;
    var s := After(steps, maxSize);
    ArrivedIsPrefix(s, i, maxSize);
    EntryBacked(s, s.uploads[i].uuid, maxSize);
    RenamerAlone(s, i, maxSize);
  }

  lemma RenamerAlone(s: State, i: nat, maxSize: nat)
    requires Inv(s, maxSize) && i in s.uploads && Holding(s.uploads[i].phase)
    ensures HasRenamer(s, s.uploads[i].uuid) ==> s.uploads[i].phase.Renaming?
    ensures s.uploads[i].phase.Renaming? ==>
      s.uploads[i].uuid !in s.lost && s.uploads[i].uuid in s.disk.metas &&
      s.disk.metas[s.uploads[i].uuid] == |s.uploads[i].data|
  {
    hide Backed;
    assert UploadOk(s, s.uploads[i], maxSize);
  }

  /** When the reply to a stored entry is lost, the upload ends as failed and leaves an entry without a file. */
  lemma LostReplyLeavesEntry(steps: seq<Step>, i: nat, maxSize: nat)
    requires var s := After(steps, maxSize);
      s.serving && i in s.uploads && s.uploads[i].phase.Statted?
    ensures var id := After(steps, maxSize).uploads[i].uuid;
      var t := After(steps + [Advance(i, LoseReply)] + [Advance(i, Go)], maxSize);
      && i in t.uploads && t.uploads[i].phase == Finished(503)
      && id in t.disk.metas && id !in t.disk.finals && id !in t.disk.temps && id in t.lost
      && t.serving && t.uploads.Keys == After(steps, maxSize).uploads.Keys
      && t.disk.metas[id] == After(steps, maxSize).uploads[i].phase.size
  {
    hide Inv, Whole, HoldersHaveTemps;
    var one := steps + [Advance(i, LoseReply)];
    var two := one + [Advance(i, Go)];
    assert one[..|steps|] == steps && two[..|one|] == one;
    var s := After(steps, maxSize);
    StattedNotStored(s, i, maxSize);
    LoseThenUnlock(s, i, maxSize);
    AfterIs(steps, Advance(i, LoseReply), maxSize);
    AfterIs(one, Advance(i, Go), maxSize);
  }

  lemma AfterIs(steps: seq<Step>, step: Step, maxSize: nat)
    ensures HoldersHaveTemps(After(steps, maxSize))
    ensures After(steps + [step], maxSize) == Apply(After(steps, maxSize), step, maxSize)
  {
    hide Inv, Whole, Apply, HoldersHaveTemps;
    assert (steps + [step])[..|steps|] == steps;
    InvFacts(After(steps, maxSize), maxSize);
  }

  lemma LoseThenUnlock(s: State, i: nat, maxSize: nat)
    requires i in s.uploads && s.uploads[i].phase.Statted? && s.uploads[i].uuid in s.disk.temps
    requires s.uploads[i].uuid !in s.disk.finals
    ensures var id, t := s.uploads[i].uuid, Advanced(s, i, LoseReply, maxSize);
      && i in t.uploads && t.uploads[i].phase == Unlocking(503) && id in t.disk.temps && t.serving == s.serving
      && t.uploads[i].uuid == id
      && var w := Advanced(t, i, Go, maxSize);
         && i in w.uploads && w.uploads[i].phase == Finished(503)
         && id in w.disk.metas && id !in w.disk.finals && id !in w.disk.temps && id in w.lost
         && w.disk.metas[id] == s.uploads[i].phase.size
         && w.serving == s.serving && w.uploads.Keys == s.uploads.Keys
  {
  }

  lemma StattedNotStored(s: State, i: nat, maxSize: nat)
    requires Inv(s, maxSize) && i in s.uploads && s.uploads[i].phase.Statted?
    ensures s.uploads[i].uuid !in s.disk.finals && s.uploads[i].uuid in s.disk.temps
  {
    assert UploadOk(s, s.uploads[i], maxSize);
  }

  // ---- A truncated file ----

  /** The first steps of an upload that finds its UUID free. */
  function Opens(i: nat, u: string, data: Bytes, n: nat): seq<Step> {
    [Begin(i, u, data), Advance(i, Go), Advance(i, Go), Advance(i, Arrive(n))]
  }

  lemma OpensWrites(steps: seq<Step>, i: nat, u: string, data: Bytes, n: nat, maxSize: nat)
    requires n <= |data| && n <= maxSize
    requires var s := After(steps, maxSize);
      s.serving && i !in s.uploads && u !in s.disk.temps && u !in s.disk.finals
    ensures var s, t := After(steps, maxSize), After(steps + Opens(i, u, data, n), maxSize);
      && t.serving && t.uploads == s.uploads[i := Upload(u, data, Writing(n))]
      && t.disk == s.disk.(temps := s.disk.temps[u := data[..n]]) && t.lost == s.lost
  {
    hide Inv, Whole, HoldersHaveTemps, After;
    var one := steps + [Begin(i, u, data)];
    var two := one + [Advance(i, Go)];
    var three := two + [Advance(i, Go)];
    AfterIs(steps, Begin(i, u, data), maxSize);
    AfterIs(one, Advance(i, Go), maxSize);
    AfterIs(two, Advance(i, Go), maxSize);
    AfterIs(three, Advance(i, Arrive(n)), maxSize);
    assert steps + Opens(i, u, data, n) == three + [Advance(i, Arrive(n))];
    var s := After(steps, maxSize);
    assert After(one, maxSize).disk == s.disk;
    assert After(two, maxSize).disk == s.disk.(temps := s.disk.temps[u := []]);
    assert [] + data[0..n] == data[..n];
    assert s.uploads[i := Upload(u, data, Opening)][i := Upload(u, data, Opened)][i := Upload(u, data, Writing(0))]
                    [i := Upload(u, data, Writing(n))] == s.uploads[i := Upload(u, data, Writing(n))];
    assert s.disk.temps[u := []][u := data[..n]] == s.disk.temps[u := data[..n]];
  }

  function Uploading(u: string, data: Bytes): seq<Step> {
    [Resume] + Opens(0, u, data, |data|) + [Advance(0, Go)] + [Advance(0, Go)]
  }

  lemma UploadingStats(u: string, data: Bytes, maxSize: nat)
    requires |data| <= maxSize
    ensures var s := After(Uploading(u, data), maxSize);
      s.serving && s.uploads == map[0 := Upload(u, data, Statted(|data|))]
  {
    hide Inv, Whole, HoldersHaveTemps;
    var one := [Resume];
    AfterIs([], Resume, maxSize);
    assert [] + one == one;
    assert After(one, maxSize) == EMPTY.(serving := true);
    OpensWrites(one, 0, u, data, |data|, maxSize);
    var two := one + Opens(0, u, data, |data|);
    assert data[..|data|] == data;
    AfterIs(two, Advance(0, Go), maxSize);
    AfterIs(two + [Advance(0, Go)], Advance(0, Go), maxSize);
    var s := After(Uploading(u, data), maxSize);
    assert s.uploads == map[0 := Upload(u, data, Statted(|data|))];
  }

  /**
   * After a lost reply a second upload to the same UUID can be cut short by a
   * crash, and clean-up then stores what had arrived of it, under the entry of
   * the first: no upload to a stored file was under way.
   */
  lemma TruncatedUpload(u: string, first: Bytes, second: Bytes, n: nat, e: Disk, maxSize: nat)
    requires |first| <= maxSize && n <= maxSize && n < |second|
    requires Cleaned(After(Uploading(u, first) + [Advance(0, LoseReply)] + [Advance(0, Go)] + Opens(1, u, second, n),
                           maxSize).disk, e)
    ensures var s := After(Uploading(u, first) + [Advance(0, LoseReply)] + [Advance(0, Go)] + Opens(1, u, second, n),
                           maxSize);
      && s.serving && u !in s.disk.finals
      && u in e.finals && e.finals[u] == second[..n] != second
      && u in e.metas && e.metas[u] == |first|
  {
    hide Inv, Whole, HoldersHaveTemps, After, Apply;
    var lost := Uploading(u, first) + [Advance(0, LoseReply)] + [Advance(0, Go)];
    UploadingStats(u, first, maxSize);
    LostReplyLeavesEntry(Uploading(u, first), 0, maxSize);
    OpensWrites(lost, 1, u, second, n, maxSize);
  }

  // ---- A file emptied ----

  /** An upload to its end, and then one that has just taken the lock for the same UUID. */
  function StoredThenOpened(u: string, data: Bytes, other: Bytes): seq<Step> {
    Uploading(u, data) + [Advance(0, Go)] + [Advance(0, Go)] + [Begin(1, u, other)] + [Advance(1, Go)]
  }

  lemma EntryThenRename(s: State, maxSize: nat)
    requires 0 in s.uploads && s.uploads[0].phase.Statted? && s.uploads[0].uuid in s.disk.temps
    ensures var id, t := s.uploads[0].uuid, Advanced(s, 0, Go, maxSize);
      && 0 in t.uploads && t.uploads[0].phase == Renaming && t.uploads[0].uuid == id && id in t.disk.temps
      && t.serving == s.serving && t.uploads.Keys == s.uploads.Keys
      && var w := Advanced(t, 0, Go, maxSize);
         && w.serving == s.serving && w.uploads.Keys == s.uploads.Keys
         && id !in w.disk.temps && id in w.disk.finals && w.disk.finals[id] == s.disk.temps[id]
         && id in w.disk.metas && w.disk.metas[id] == s.uploads[0].phase.size
  {
  }

  lemma OpensOver(s: State, u: string, other: Bytes, maxSize: nat)
    requires HoldersHaveTemps(s) && s.serving && 1 !in s.uploads && u !in s.disk.temps && u in s.disk.finals
    ensures var t := Apply(s, Begin(1, u, other), maxSize);
      && HoldersHaveTemps(t) && t.serving && t.disk == s.disk && 1 in t.uploads
      && var w := Apply(t, Advance(1, Go), maxSize);
         w.serving && w.disk == s.disk.(temps := s.disk.temps[u := []]) && PutOnStored(w, u)
  {
    var t := Apply(s, Begin(1, u, other), maxSize);
    var w := Apply(t, Advance(1, Go), maxSize);
    assert 1 in w.uploads && w.uploads[1] == Upload(u, other, Opened);
  }

  /**
   * A crash right after a second upload has taken the lock of a stored file:
   * clean-up leaves an empty file under the entry of the first upload.
   */
  lemma EmptiedFile(u: string, data: Bytes, other: Bytes, e: Disk, maxSize: nat)
    requires |data| <= maxSize && Cleaned(After(StoredThenOpened(u, data, other), maxSize).disk, e)
    ensures var s := After(StoredThenOpened(u, data, other), maxSize);
      && s.serving && PutOnStored(s, u) && u in s.disk.finals && s.disk.finals[u] == data
      && u in e.finals && e.finals[u] == [] && u in e.metas && e.metas[u] == |data|
  {
    hide Inv, Whole, HoldersHaveTemps, After, Apply, PutOnStored;
    var one := Uploading(u, data);
    var two := one + [Advance(0, Go)];
    var three := two + [Advance(0, Go)];
    var four := three + [Begin(1, u, other)];
    UploadingStats(u, data, maxSize);
    UploadingHolds(u, data, maxSize);
    StattedNotStored(After(one, maxSize), 0, maxSize);
    EntryThenRename(After(one, maxSize), maxSize);
    Advances(one, 0, Go, maxSize);
    Advances(two, 0, Go, maxSize);
    AfterIs(three, Begin(1, u, other), maxSize);
    AfterIs(four, Advance(1, Go), maxSize);
    OpensOver(After(three, maxSize), u, other, maxSize);
  }

  lemma Advances(steps: seq<Step>, i: nat, ev: Event, maxSize: nat)
    requires After(steps, maxSize).serving && i in After(steps, maxSize).uploads
    requires Holding(After(steps, maxSize).uploads[i].phase) ==>
      After(steps, maxSize).uploads[i].uuid in After(steps, maxSize).disk.temps
    ensures After(steps + [Advance(i, ev)], maxSize) == Advanced(After(steps, maxSize), i, ev, maxSize)
  {
    hide Inv, Whole, HoldersHaveTemps, After, Advanced;
    AfterIs(steps, Advance(i, ev), maxSize);
  }

  lemma UploadingHolds(u: string, data: Bytes, maxSize: nat)
    requires |data| <= maxSize
    ensures var s := After(Uploading(u, data), maxSize);
      u in s.disk.temps && s.disk.temps[u] == data
  {
    hide Whole, After, OneWriter, Backed;
    UploadingStats(u, data, maxSize);
    var s := After(Uploading(u, data), maxSize);
    assert UploadOk(s, s.uploads[0], maxSize);
  }
}
