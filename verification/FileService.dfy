/** The file service as it runs: one atomic step of an upload at a time, and the clean-up loop of start-up. */
module FileService {
  import opened Basics
  import opened Uploads

  class Service {
    const maxSize: nat
    var temps: map<string, Bytes>
    var finals: map<string, Bytes>
    var metas: map<string, nat>
    var uploads: map<nat, Upload>
    var serving: bool
    ghost var lost: set<string>
    ghost var damaged: set<string>
    ghost var truth: map<string, Bytes>
    ghost var sent: set<(string, Bytes)>
    /** The steps since the disk was empty. */
    ghost var history: seq<Step>

    ghost function View(): State
      reads this
    {
      State(Disk(temps, finals, metas), uploads, serving, lost, damaged, truth, sent)
    }

    /** The state is the one that the steps so far lead to. */
    ghost predicate Valid()
      reads this
    {
      View() == After(history, maxSize)
    }

    constructor (maxSize: nat)
      ensures Valid() && history == [] && this.maxSize == maxSize
    {
      this.maxSize := maxSize;
      temps, finals, metas, uploads, serving := map[], map[], map[], map[], false;
      lost, damaged, truth, sent, history := {}, {}, map[], {}, [];
    }

    lemma Took(before: State, step: Step)
      requires HoldersHaveTemps(before) && before == After(history, maxSize)
      ensures Apply(before, step, maxSize) == After(history + [step], maxSize)
    {
      assert (history + [step])[..|history|] == history;
    }

    lemma Locks()
      requires Valid()
      ensures HoldersHaveTemps(View())
    {
    }

    method BeginPut(i: nat, uuid: string, data: Bytes)
      requires Valid()
      modifies this
      ensures Valid() && history == old(history) + [Begin(i, uuid, data)]
    {
      hide Inv;
      Locks();
      Took(View(), Begin(i, uuid, data));
      if serving && i !in uploads {
        uploads := uploads[i := Upload(uuid, data, Opening)];
        sent := sent + {(uuid, data)};
      }
      history := history + [Begin(i, uuid, data)];
    }

    method ContinuePut(i: nat, ev: Event)
      requires Valid()
      modifies this
      ensures Valid() && history == old(history) + [Advance(i, ev)]
    {
      hide Inv, Advanced;
      Locks();
      Took(View(), Advance(i, ev));
      if serving && i in uploads {
        Proceed(i, ev);
      }
      history := history + [Advance(i, ev)];
    }

    /** What upload `i` does between one await and the next. */
    method Proceed(i: nat, ev: Event)
      requires i in uploads && (Holding(uploads[i].phase) ==> uploads[i].uuid in temps)
      modifies `temps, `finals, `metas, `uploads, `lost, `truth
      ensures View() == Advanced(old(View()), i, ev, maxSize)
    {
      hide Inv, After;
      var u := uploads[i];
      match u.phase {
        case Opening =>
          if u.uuid in temps {
            Enter(i, Finished(503));
          } else {
            temps := temps[u.uuid := []];
            Enter(i, Opened);
          }
        case Opened =>
          Enter(i, if u.uuid in finals then Unlocking(409) else Writing(0));
        case Writing(n) =>
          Receive(i, n, ev);
        case Written =>
          Enter(i, Statted(|temps[u.uuid]|));
        case Statted(size) =>
          WriteEntry(i, size, ev);
        case Renaming =>
          finals := finals[u.uuid := temps[u.uuid]];
          temps := temps - {u.uuid};
          Enter(i, Finished(201));
        case Unlocking(st) =>
          temps := temps - {u.uuid};
          Enter(i, Finished(st));
        case Finished(_) =>
      }
    }

    method Enter(i: nat, p: Phase)
      requires i in uploads
      modifies `uploads
      ensures uploads == old(uploads)[i := old(uploads)[i].(phase := p)]
    {
      uploads := uploads[i := uploads[i].(phase := p)];
    }

    method Receive(i: nat, n: nat, ev: Event)
      requires i in uploads && uploads[i].phase == Writing(n) && uploads[i].uuid in temps
      modifies `temps, `uploads
      ensures View() == Advanced(old(View()), i, ev, maxSize)
    {
      hide Inv, After;
      var u := uploads[i];
      if ev.Break? {
        Enter(i, Unlocking(500));
      } else if ev.Arrive? {
        if n + ev.k <= |u.data| {
          if n + ev.k > maxSize {
            Enter(i, Unlocking(413));
          } else {
            temps := temps[u.uuid := temps[u.uuid] + u.data[n..n + ev.k]];
            Enter(i, Writing(n + ev.k));
          }
        }
      } else if n == |u.data| {
        Enter(i, Written);
      }
    }

    method WriteEntry(i: nat, size: nat, ev: Event)
      requires i in uploads && uploads[i].phase == Statted(size) && uploads[i].uuid in temps
      modifies `metas, `uploads, `lost, `truth
      ensures View() == Advanced(old(View()), i, ev, maxSize)
    {
      hide Inv, After;
      var u := uploads[i];
      if ev.Refuse? {
        Enter(i, Unlocking(503));
      } else {
        metas := metas[u.uuid := size];
        if ev.LoseReply? {
          lost := lost + {u.uuid};
          Enter(i, Unlocking(503));
        } else {
          lost, truth := lost - {u.uuid}, truth[u.uuid := u.data];
          Enter(i, Renaming);
        }
      }
    }

    method Fail()
      requires Valid()
      modifies this
      ensures Valid() && history == old(history) + [Crash]
    {
      hide Inv;
      Locks();
      Took(View(), Crash);
      damaged := damaged + set u | u in temps && AtRisk(View(), u);
      uploads, serving := map[], false;
      history := history + [Crash];
    }

    /** Start-up: rename each temporary file that has an entry, delete the others, then serve. */
    method StartUp()
      requires Valid() && !serving
      modifies this
      ensures Valid() && serving
      ensures Cleaned(old(View()).disk, View().disk)
    {
      hide Inv, Swept, Cleaned, HoldersHaveTemps, After, Whole;
      ghost var before := View().disk;
      var files := temps.Keys;
      CleanNothing(before);
      while files != {}
        invariant Valid() && !serving && files == temps.Keys
        invariant forall e :: Cleaned(View().disk, e) ==> Cleaned(before, e)
      {
        var u :| u in files;
        Locks();
        Took(View(), Sweep(u));
        ghost var d := View().disk;
        SweptIs(d, u);
        forall e | Cleaned(Swept(d, u), e) ensures Cleaned(d, e) {
          SweepThenClean(d, u, e);
        }
        if u in metas {
          finals := finals[u := temps[u]];
        }
        temps := temps - {u};
        files := files - {u};
        history := history + [Sweep(u)];
      }
      CleanNothing(View().disk);
      Locks();
      Took(View(), Resume);
      serving := true;
      history := history + [Resume];
    }
  }

  lemma CleanNothing(d: Disk)
    ensures d.temps == map[] ==> Cleaned(d, d)
  {
  }

  lemma SweptIs(d: Disk, u: string)
    requires u in d.temps
    ensures Swept(d, u) == d.(finals := if u in d.metas then d.finals[u := d.temps[u]] else d.finals,
                              temps := d.temps - {u})
  {
  }
}
