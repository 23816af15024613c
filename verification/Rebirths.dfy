/** The Directory's throttle on the rebirth requests that it sends to unknown devices. */
module Rebirths {
  /** Times are in milliseconds. */
  const COOLING := 300000
  const MIN_WAIT := 5000
  const MAX_WAIT := 10000

  datatype Waiter = Waiter(addr: string, since: int, due: int)

  datatype Grant = Grant(addr: string, time: int)

  datatype Step =
    | Tick(elapsed: nat)
    | Birth(addr: string)
    | Death(addr: string)
    | Data(w: nat, addr: string, wait: int)     // the call number w decides whether to wait
    | Wake(w: nat)

  /** No two grants for the same address are within the cooling time and a wait of each other. */
  ghost predicate FarApart(grants: seq<Grant>) {
    forall i, j :: 0 <= i < j < |grants| && grants[i].addr == grants[j].addr ==>
      grants[j].time > grants[i].time + COOLING + MIN_WAIT
  }

  /** Every earlier grant for `addr` is longer ago than the cooling time. */
  ghost predicate CooledDown(grants: seq<Grant>, addr: string, time: int) {
    forall i :: 0 <= i < |grants| && grants[i].addr == addr ==> grants[i].time + COOLING < time
  }

  predicate SomeoneWaits(waiting: map<nat, Waiter>, a: string) {
    exists w :: w in waiting && waiting[w].addr == a
  }

  /** At most one call per address is asleep, and `pending` says for which. */
  ghost predicate OneEach(waiting: map<nat, Waiter>, pending: set<string>) {
    && (forall v, w :: v in waiting && w in waiting && v != w ==> waiting[v].addr != waiting[w].addr)
    && (forall w :: w in waiting ==> waiting[w].addr in pending)
    && (forall a :: a in pending ==> SomeoneWaits(waiting, a))
  }

  /** Whoever sleeps began after the cooling time of all earlier grants. */
  ghost predicate SleepersCool(waiting: map<nat, Waiter>, grants: seq<Grant>, now: int) {
    forall w :: w in waiting ==>
      && waiting[w].since <= now && waiting[w].since + MIN_WAIT <= waiting[w].due
      && CooledDown(grants, waiting[w].addr, waiting[w].since)
  }

  /** `sent` has the last grant of an address for as long as it matters. */
  ghost predicate Remembers(sent: map<string, int>, grants: seq<Grant>, now: int) {
    && (forall a :: a in sent ==> Grant(a, sent[a]) in grants)
    && (forall i :: 0 <= i < |grants| ==> grants[i].time <= now)
    && (forall i :: 0 <= i < |grants| && grants[i].addr in sent ==> grants[i].time <= sent[grants[i].addr])
    && (forall i :: 0 <= i < |grants| && grants[i].addr !in sent ==> grants[i].time + COOLING < now)
  }

  lemma FallAsleep(waiting: map<nat, Waiter>, pending: set<string>, w: nat, x: Waiter)
    requires OneEach(waiting, pending) && w !in waiting && x.addr !in pending
    ensures OneEach(waiting[w := x], pending + {x.addr})
  {
    var after := waiting[w := x];
    forall a | a in pending + {x.addr} ensures SomeoneWaits(after, a) {
      if a == x.addr {
        assert after[w].addr == a;
      } else {
        var v :| v in waiting && waiting[v].addr == a;
        assert after[v].addr == a;
      }
    }
  }

  lemma WakeUp(waiting: map<nat, Waiter>, pending: set<string>, w: nat)
    requires OneEach(waiting, pending) && w in waiting
    ensures OneEach(waiting - {w}, pending - {waiting[w].addr})
  {
    var after := waiting - {w};
    forall a | a in pending - {waiting[w].addr} ensures SomeoneWaits(after, a) {
      var v :| v in waiting && waiting[v].addr == a;
      assert after[v].addr == a;
    }
  }

  /** A grant at the end of a wait is far from all earlier ones for its address and does not concern the other sleepers. */
  lemma GrantKeeps(waiting: map<nat, Waiter>, pending: set<string>, sent: map<string, int>, grants: seq<Grant>,
                   now: int, w: nat)
    requires OneEach(waiting, pending) && SleepersCool(waiting, grants, now) && Remembers(sent, grants, now)
    requires FarApart(grants) && w in waiting && waiting[w].due <= now
    ensures var addr := waiting[w].addr;
      && FarApart(grants + [Grant(addr, now)])
      && SleepersCool(waiting - {w}, grants + [Grant(addr, now)], now)
      && Remembers(sent[addr := now], grants + [Grant(addr, now)], now)
  {
    var addr := waiting[w].addr;
    var after := grants + [Grant(addr, now)];
    assert CooledDown(grants, addr, waiting[w].since);
    assert after[|grants|] == Grant(addr, now);
    forall v | v in waiting - {w} ensures CooledDown(after, waiting[v].addr, waiting[v].since) {
      assert CooledDown(grants, waiting[v].addr, waiting[v].since) && waiting[v].addr != addr;
    }
    var remembered := sent[addr := now];
    forall a | a in remembered ensures Grant(a, remembered[a]) in after {
      assert a != addr ==> Grant(a, sent[a]) in grants;
    }
  }

  lemma SleepsFrom(waiting: map<nat, Waiter>, grants: seq<Grant>, now: int, w: nat, x: Waiter)
    requires SleepersCool(waiting, grants, now) && x.since == now && x.since + MIN_WAIT <= x.due
    ensures CooledDown(grants, x.addr, now) ==> SleepersCool(waiting[w := x], grants, now)
  {
  }

  lemma OthersSleepOn(waiting: map<nat, Waiter>, grants: seq<Grant>, now: int, w: nat)
    requires SleepersCool(waiting, grants, now)
    ensures SleepersCool(waiting - {w}, grants, now)
  {
  }

  /** Forgetting a grant that is long enough ago. */
  lemma ForgetKeeps(sent: map<string, int>, grants: seq<Grant>, now: int, addr: string)
    requires Remembers(sent, grants, now) && addr in sent && sent[addr] < now - COOLING
    ensures Remembers(sent - {addr}, grants, now)
  {
  }

  /** What `sent` says about an address is what the grants say. */
  lemma SentIsHistory(sent: map<string, int>, grants: seq<Grant>, now: int, addr: string)
    requires Remembers(sent, grants, now)
    ensures CooledDown(grants, addr, now) <==> (addr in sent ==> sent[addr] < now - COOLING)
  {
    if addr in sent {
      var i :| 0 <= i < |grants| && grants[i] == Grant(addr, sent[addr]);
    }
  }

  class Throttle {
    var online: set<string>
    var pending: set<string>
    var sent: map<string, int>
    /** The calls that are asleep. */
    var waiting: map<nat, Waiter>
    var now: int
    ghost var grants: seq<Grant>

    ghost predicate Valid()
      reads this
    {
      && OneEach(waiting, pending) && SleepersCool(waiting, grants, now)
      && Remembers(sent, grants, now) && sent.Keys !! pending
      && FarApart(grants)
    }

    constructor (now: int)
      ensures Valid() && grants == [] && waiting == map[] && online == {}
    {
      this.now := now;
      online, pending, sent, waiting, grants := {}, {}, map[], map[], [];
    }

    method Pass(elapsed: nat)
      requires Valid()
      modifies this`now
      ensures Valid() && now == old(now) + elapsed
    {
      now := now + elapsed;
    }

    method OnBirth(addr: string)
      requires Valid()
      modifies this`online
      ensures Valid() && online == old(online) + {addr}
    {
      online := online + {addr};
    }

    method OnDeath(addr: string)
      requires Valid()
      modifies this`online
      ensures Valid() && online == old(online) - {addr}
    {
      online := online - {addr};
    }

    /**
     * Data from `addr`: the call goes to sleep if and only if nobody waits for
     * this address, it is not online, and its last rebirth is long enough ago.
     */
    method OnData(w: nat, addr: string, wait: int) returns (asleep: bool)
      requires Valid() && w !in waiting && MIN_WAIT <= wait <= MAX_WAIT
      modifies this`pending, this`sent, this`waiting
      ensures Valid()
      ensures asleep <==> addr !in old(pending) && addr !in online && CooledDown(grants, addr, now)
      ensures waiting == if asleep then old(waiting)[w := Waiter(addr, now, now + wait)] else old(waiting)
      ensures pending == if asleep then old(pending) + {addr} else old(pending)
    {
      hide OneEach, SleepersCool, Remembers, CooledDown, FarApart;
      SentIsHistory(sent, grants, now, addr);
      SleepsFrom(waiting, grants, now, w, Waiter(addr, now, now + wait));
      if addr in sent {
        if sent[addr] < now - COOLING {
          ForgetKeeps(sent, grants, now, addr);
          sent := sent - {addr};
        } else {
          return false;
        }
      }
      if addr in pending || addr in online {
        return false;
      }
      FallAsleep(waiting, pending, w, Waiter(addr, now, now + wait));
      pending := pending + {addr};
      waiting := waiting[w := Waiter(addr, now, now + wait)];
      asleep := true;
    }

    /** The wait of call `w` is over: it asks for a rebirth if and only if the address is still not online. */
    method OnWake(w: nat) returns (granted: bool)
      requires Valid() && w in waiting && waiting[w].due <= now
      modifies this`pending, this`sent, this`waiting, this`grants
      ensures Valid()
      ensures waiting == old(waiting) - {w} && pending == old(pending) - {old(waiting)[w].addr}
      ensures granted <==> old(waiting)[w].addr !in online
      ensures grants == if granted then old(grants) + [Grant(old(waiting)[w].addr, now)] else old(grants)
    {
      hide OneEach, SleepersCool, Remembers, CooledDown, FarApart;
      WakeUp(waiting, pending, w);
      GrantKeeps(waiting, pending, sent, grants, now, w);
      OthersSleepOn(waiting, grants, now, w);
      var addr := waiting[w].addr;
      pending := pending - {addr};
      waiting := waiting - {w};
      if addr in online {
        return false;
      }
      sent := sent[addr := now];
      grants := grants + [Grant(addr, now)];
      granted := true;
    }

    lemma ValidSays()
      requires Valid()
      ensures FarApart(grants) && OneEach(waiting, pending)
    {
    }

    /** Any interleaving of these; steps that are not possible do nothing. */
    method Run(steps: seq<Step>)
      requires Valid()
      modifies this
      ensures Valid()
      ensures |old(grants)| <= |grants| && old(grants) == grants[..|old(grants)|]
      ensures FarApart(grants) && OneEach(waiting, pending)
    {
      hide Valid;
      for i := 0 to |steps|
        invariant Valid()
        invariant |old(grants)| <= |grants| && old(grants) == grants[..|old(grants)|]
      {
        match steps[i] {
          case Tick(elapsed) => Pass(elapsed);
          case Birth(addr) => OnBirth(addr);
          case Death(addr) => OnDeath(addr);
          case Data(w, addr, wait) =>
            if w !in waiting && MIN_WAIT <= wait <= MAX_WAIT {
              var asleep := OnData(w, addr, wait);
            }
          case Wake(w) =>
            if w in waiting && waiting[w].due <= now {
              var granted := OnWake(w);
            }
        }
      }
      ValidSays();
    }
  }
}
