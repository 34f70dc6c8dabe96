// The portal at work: a database session whose changes are committed only after the controller
// has synchronized the host (_commit_with_reconcile and the handlers of vpnhub/routes.py).

module Hub {
  import opened Seqs
  import opened Ipv4
  import opened Records
  import opened Registry
  import opened Payload
  import opened Validation
  import opened ValidationFacts
  import opened Host
  import opened SyncSpec
  import opened Sync
  import opened Ipam
  import opened Database
  import opened PortalInvariant
  import opened Acceptance
  import opened Portal
  import opened PortalRuns
  import opened Confinement
  import opened ClientConfig
  import opened Rerun

  /** The host carries the desired state of this database. */
  predicate Agrees(reg: Instances, keys: KeyFiles, db: Db, n: Net) {
    Acceptable(reg, DesiredState(db)) && Realizes(StateOf(reg, DesiredState(db)), keys, n)
  }

  /** A failed synchronization does not disturb the state the host carried before it. */
  lemma RollbackKeepsAgreement(reg: Instances, keys: KeyFiles, db: Db, n: Net, raws: seq<RawInstance>, r: Net)
    requires ValidRegistry(reg) && Acceptable(reg, raws) && Agrees(reg, keys, db, n)
    requires RolledBackTo(StateOf(reg, raws), n, r)
    ensures Agrees(reg, keys, db, r)
  {
    AcceptedMatchesRegistry(reg, raws);
    AcceptedMatchesRegistry(reg, DesiredState(db));
    RealizesRestored(reg, StateOf(reg, raws), StateOf(reg, DesiredState(db)), keys, n, r);
  }

  lemma SuccessAgrees(reg: Instances, keys: KeyFiles, db: Db, a: Net, b: Net)
    requires ValidRegistry(reg) && Acceptable(reg, DesiredState(db)) && NetOk(b)
    requires Applied(StateOf(reg, DesiredState(db)), keys, a, b)
    ensures Agrees(reg, keys, db, b)
  {
    AcceptedMatchesRegistry(reg, DesiredState(db));
    AppliedRealizes(StateOf(reg, DesiredState(db)), keys, a, b);
  }

  /** Whatever database the host carried, it still carries. */
  ghost predicate KeepsAgreements(reg: Instances, keys: KeyFiles, a: Net, b: Net) {
    forall db :: Agrees(reg, keys, db, a) ==> Agrees(reg, keys, db, b)
  }

  /** So it is for every outcome of a synchronization that did not succeed. */
  lemma FailureKeepsAgreements(reg: Instances, keys: KeyFiles, a: Net, b: Net, raws: seq<RawInstance>)
    requires ValidRegistry(reg)
    requires b == a || (Acceptable(reg, raws) && RolledBackTo(StateOf(reg, raws), a, b))
    ensures KeepsAgreements(reg, keys, a, b)
  {
    forall db | Agrees(reg, keys, db, a) ensures Agrees(reg, keys, db, b) {
      if b != a {
        RollbackKeepsAgreement(reg, keys, db, a, raws, b);
      }
    }
  }

  lemma KeepsTwice(reg: Instances, keys: KeyFiles, a: Net, b: Net, c: Net)
    requires KeepsAgreements(reg, keys, a, b) && KeepsAgreements(reg, keys, b, c)
    ensures KeepsAgreements(reg, keys, a, c)
  {
  }

  // ----- what a synchronization needs, for a planned database

  predicate KeysHeld(reg: Instances, keys: KeyFiles) {
    forall d :: d in reg ==> reg[d].keyPath in keys
  }

  lemma CommittedKeys(db: Db, reg: Instances, s: State, keys: KeyFiles)
    requires Inv(db) && MatchesRegistry(db, reg) && Represents(s, db)
    ensures KeysPresent(s, keys) <==> KeysHeld(reg, keys)
  {
    forall x | x in s ensures x.enabled && x.Dev() in reg && reg[x.Dev()] == x.record {
      var i := StateTrunk(db, s, x);
    }
    forall d | d in reg ensures exists x :: x in s && x.enabled && x.record == reg[d] {
      var i :| i in db.instances && i.record.interface == d;
      TrunkInState(db, s, i);
      assert TrunkState(db, i).enabled;
    }
  }

  /** For a planned database only a route conflict or a missing private key speaks against its
      synchronization. */
  lemma PlannedPasses(db: Db, reg: Instances, keys: KeyFiles, n: Net)
    requires Inv(db) && MatchesRegistry(db, reg)
    ensures Passes(reg, keys, DesiredState(db), n) <==>
            NoConflict(StateOf(reg, DesiredState(db)), n) && KeysHeld(reg, keys)
  {
    StateOfDesired(db, reg);
    PlannedIsLoadable(db, CommittedState(db));
    CommittedKeys(db, reg, CommittedState(db), keys);
  }

  lemma CandidateKeepsTrunks(db: Db, op: Op, reg: Instances)
    requires MatchesRegistry(db, reg) && Candidate(db, op).Some? && !op.InstanceNew?
    ensures MatchesRegistry(Candidate(db, op).value, reg)
  {
    assert Candidate(db, op).value.instances == db.instances;
  }

  /** What the candidate of an operation needs to be synchronized. */
  lemma CandidatePasses(db: Db, op: Op, reg: Instances, keys: KeyFiles, n: Net)
    requires Inv(db) && MatchesRegistry(db, reg) && Candidate(db, op).Some? && !op.InstanceNew?
    ensures var raws := DesiredState(Candidate(db, op).value);
            Passes(reg, keys, raws, n) <==>
            LeftToController(db, op) && NoConflict(StateOf(reg, raws), n) && KeysHeld(reg, keys)
  {
    CandidateKeepsTrunks(db, op, reg);
    PortalChecksSuffice(db, op, reg);
    if LeftToController(db, op) {
      CandidateKeepsInv(db, op);
      PlannedPasses(Candidate(db, op).value, reg, keys, n);
    }
  }

  // ----- a host on which a database can be synchronized at any time

  ghost predicate Fits(reg: Instances, keys: KeyFiles, db: Db, n: Net) {
    Passes(reg, keys, DesiredState(db), n) && LinksUp(reg.Keys, n)
  }

  /** Whatever could be synchronized before, still can be. */
  ghost predicate KeepsFits(reg: Instances, keys: KeyFiles, a: Net, b: Net) {
    forall db :: Fits(reg, keys, db, a) ==> Fits(reg, keys, db, b)
  }

  lemma KeepsFitsTwice(reg: Instances, keys: KeyFiles, a: Net, b: Net, c: Net)
    requires KeepsFits(reg, keys, a, b) && KeepsFits(reg, keys, b, c)
    ensures KeepsFits(reg, keys, a, c)
  {
  }

  lemma AppliedKeepsFits(reg: Instances, keys: KeyFiles, raws: seq<RawInstance>, a: Net, b: Net)
    requires ValidRegistry(reg) && Repeatable(reg, a) && Acceptable(reg, raws)
    requires Synced(StateOf(reg, raws), keys, a, b)
    ensures KeepsFits(reg, keys, a, b)
  {
    AcceptedMatchesRegistry(reg, raws);
    forall db | Fits(reg, keys, db, a) ensures Fits(reg, keys, db, b) {
      AcceptedMatchesRegistry(reg, DesiredState(db));
      StillAccepted(reg, StateOf(reg, raws), StateOf(reg, DesiredState(db)), keys, a, b);
      SyncedLinksUp(StateOf(reg, raws), keys, a, b);
    }
  }

  lemma RestoredKeepsConflictFree(s: State, t: State, a: Net, b: Net)
    requires LinksUp(Interfaces(s), a) && NoConflict(t, a) && RolledBackTo(s, a, b)
    ensures NoConflict(t, b) && LinksUp(Interfaces(s), b)
  {
    forall dst, row | Wanted(t, dst) && Listed(b, row) && Protected(t, row) ensures !Overlaps(dst, row.dst) {
      assert Listed(a, row);
    }
  }

  lemma RestoredKeepsFits(reg: Instances, keys: KeyFiles, raws: seq<RawInstance>, a: Net, b: Net)
    requires ValidRegistry(reg) && Acceptable(reg, raws) && RolledBackTo(StateOf(reg, raws), a, b)
    ensures KeepsFits(reg, keys, a, b)
  {
    AcceptedMatchesRegistry(reg, raws);
    forall db | Fits(reg, keys, db, a) ensures Fits(reg, keys, db, b) {
      RestoredKeepsConflictFree(StateOf(reg, raws), StateOf(reg, DesiredState(db)), a, b);
    }
  }

  // ----- one operation

  /** A handler leaves the previous database or the candidate that the controller accepted. */
  lemma HandledIsStep(before: Db, op: Op, reg: Instances, ok: bool, after: Db)
    requires Inv(before) && Candidate(before, op).Some?
    requires ok ==> after == Candidate(before, op).value && Acceptable(reg, DesiredState(after))
    requires !ok ==> after == before
    ensures after == Step(before, Event(op, reg, ok)) && Inv(after)
  {
    StepKeepsInv(before, Event(op, reg, ok));
  }

  /** The operation has a candidate against which nothing speaks. */
  ghost predicate Completes(db: Db, op: Op, reg: Instances, keys: KeyFiles, n: Net) {
    && Candidate(db, op).Some?
    && LeftToController(db, op)
    && NoConflict(StateOf(reg, DesiredState(Candidate(db, op).value)), n)
    && KeysHeld(reg, keys)
  }

  lemma OutcomeKeepsFits(reg: Instances, keys: KeyFiles, raws: seq<RawInstance>, a: Net, b: Net, r: Outcome)
    requires ValidRegistry(reg) && Repeatable(reg, a)
    requires !r.Synchronized? && !r.RolledBack? ==> b == a
    requires r.Synchronized? ==> Acceptable(reg, raws) && Synced(StateOf(reg, raws), keys, a, b)
    requires r.RolledBack? ==> Acceptable(reg, raws) && RolledBackTo(StateOf(reg, raws), a, b)
    ensures KeepsFits(reg, keys, a, b)
  {
    if r.Synchronized? {
      AppliedKeepsFits(reg, keys, raws, a, b);
    } else if r.RolledBack? {
      RestoredKeepsFits(reg, keys, raws, a, b);
    }
  }

  /** The request has no candidate because a handler fails inside its try block: all host
      addresses are taken, or a generated key is in use. */
  predicate FailsInTry(db: Db, op: Op) {
    Candidate(db, op).None? &&
    match op
    case PeerNew(s, gateway, _, _) =>
      FindSite(db, s).Some? && !(gateway && exists p :: p in db.peers && p.siteId == s && p.gateway)
    case AdminNew(i, _, _) => FindInstance(db, i).Some?
    case PeerRekey(p, _, _) => HasPeer(db, p)
    case AdminRekey(p, _, _) => HasAdmin(db, p)
    case _ => false
  }

  /** For a fresh key that is exactly a Site or a first block whose 245 addresses are taken. */
  lemma FailsInTryExactly(db: Db, op: Op)
    requires Inv(db)
    ensures op.PeerNew? && Fresh(db, op.key, op.psk) ==>
              (FailsInTry(db, op) <==>
               && (exists s :: s in db.sites && s.id == op.siteId)
               && !(op.gateway && exists p :: p in db.peers && p.siteId == op.siteId && p.gateway)
               && |UsedIps(db, op.siteId)| == 245)
    ensures op.AdminNew? && Fresh(db, op.key, op.psk) ==>
              (FailsInTry(db, op) <==>
               (exists i :: i in db.instances && i.id == op.instanceId) && |UsedAdminIps(db, op.instanceId)| == 245)
    ensures op.SiteNew? || op.NetworkNew? || op.SiteDelete? || op.NetworkDelete? || op.PeerDelete? || op.AdminDelete?
            ==> !FailsInTry(db, op)
  {
    match op
    case PeerNew(s, gateway, key, psk) =>
      if Fresh(db, key, psk) {
        AddPeerOutcome(db, s, gateway, key, psk);
      }
    case AdminNew(i, key, psk) =>
      if Fresh(db, key, psk) {
        AddAdminOutcome(db, i, key, psk);
      }
    case _ =>
  }

  /** What an operation did to the host: it carries whatever it carried before, or the committed
      database, or a candidate that was not committed. */
  datatype Fate = Undisturbed | Carried | Stale

  ghost predicate HostAfter(fate: Fate, reg: Instances, keys: KeyFiles, committed: Db, candidate: Db, a: Net, b: Net) {
    match fate
    case Undisturbed => KeepsAgreements(reg, keys, a, b)
    case Carried => Agrees(reg, keys, committed, b)
    case Stale => Agrees(reg, keys, candidate, b)
  }

  /** What the outside world does to the n-th reconcile: nothing, refuse the flush before it,
      lose the reply after it, or fail the commit that follows. */
  datatype Mishap = NoMishap | FlushFails | ReplyLost | CommitFails

  /** What the controller works with, and whether all its commands work. */
  datatype World = World(reg: Instances, keys: KeyFiles, dryRun: bool, benign: bool)

  /** What one reconcile of a database does.  `took` says whether the host changed to it; the
      caller only learns `ok`. */
  ghost predicate Attempted(w: World, db: Db, lost: bool, a: Net, b: Net, ok: bool, took: bool) {
    match w
    case World(reg, keys, dryRun, benign) =>
      && SameOutside(reg.Keys, a, b)
      && (ok ==> !lost && (took || dryRun) && Passes(reg, keys, DesiredState(db), a))
      && (took ==> !dryRun && Agrees(reg, keys, db, b))
      && (took && !lost ==> ok)
      && (!took ==> KeepsAgreements(reg, keys, a, b))
      && (Repeatable(reg, a) ==> KeepsFits(reg, keys, a, b))
      // where commands work, it succeeds exactly when nothing speaks against it
      && (benign ==>
            && (ok <==> !lost && Passes(reg, keys, DesiredState(db), a))
            && (took <==> !dryRun && Passes(reg, keys, DesiredState(db), a))
            && (!took ==> b == a))
  }

  /** The host carries the candidate, because reconciling the committed database again has not
      taken effect. */
  ghost predicate RestoreFailed(w: World, before: Db, candidate: Db, b: Net) {
    exists m :: Agrees(w.reg, w.keys, candidate, m) && Attempted(w, before, false, m, b, false, false)
  }

  /** What flushing, reconciling and committing a candidate does, when `before` was committed. */
  ghost predicate CommitOutcome(w: World, mishap: Mishap, before: Db, candidate: Db, a: Net, b: Net,
                                ok: bool, fate: Fate)
  {
    match w
    case World(reg, keys, dryRun, benign) =>
      && SameOutside(reg.Keys, a, b)
      // a completed operation was accepted and is carried by the host
      && (ok ==> Passes(reg, keys, DesiredState(candidate), a))
      && (ok ==> fate == if dryRun then Undisturbed else Carried)
      && HostAfter(fate, reg, keys, if ok then candidate else before, candidate, a, b)
      // the host carries a candidate that was not committed only after a lost reply or a failing
      // commit, and only when the restoring reconcile failed
      && (fate.Stale? ==> (mishap.ReplyLost? || mishap.CommitFails?) && RestoreFailed(w, before, candidate, b))
      && (Repeatable(reg, a) ==> KeepsFits(reg, keys, a, b))
      // where commands work, only a mishap or a refusal cancels, and then the host is restored
      && (benign ==> (ok <==> mishap.NoMishap? && Passes(reg, keys, DesiredState(candidate), a)))
      && (benign && !ok && !dryRun && Passes(reg, keys, DesiredState(before), a) ==>
            mishap.FlushFails? || !Passes(reg, keys, DesiredState(candidate), a) ==> fate.Carried?)
      && (benign && !ok && !dryRun && Repeatable(reg, a) && Fits(reg, keys, before, a) ==> fate.Carried?)
  }

  lemma CommitCompleted(w: World, before: Db, candidate: Db, a: Net, b: Net, took: bool)
    requires Attempted(w, candidate, false, a, b, true, took)
    ensures CommitOutcome(w, NoMishap, before, candidate, a, b, true, if took then Carried else Undisturbed)
  {
  }

  /** The flush failed and the previous database was reconciled again. */
  lemma FlushCancelled(w: World, before: Db, candidate: Db, a: Net, b: Net, again: bool, restored: bool)
    requires Attempted(w, before, false, a, b, again, restored)
    ensures CommitOutcome(w, FlushFails, before, candidate, a, b, false, if restored then Carried else Undisturbed)
  {
  }

  /** The reconcile or the commit after it failed, and the previous database was reconciled again. */
  lemma CommitCancelled(w: World, mishap: Mishap, before: Db, candidate: Db, a: Net, m: Net, b: Net,
                        done: bool, took: bool, again: bool, restored: bool)
    requires !mishap.FlushFails? && (done ==> mishap.CommitFails?)
    requires Attempted(w, candidate, mishap.ReplyLost?, a, m, done, took)
    requires Attempted(w, before, false, m, b, again, restored)
    ensures CommitOutcome(w, mishap, before, candidate, a, b, false,
                          if restored then Carried else if took then Stale else Undisturbed)
  {
    if !restored && !took {
      KeepsTwice(w.reg, w.keys, a, m, b);
    }
    if !restored && took {
      assert Attempted(w, before, false, m, b, false, false);
    }
    if Repeatable(w.reg, a) {
      KeepsFitsTwice(w.reg, w.keys, a, m, b);
    }
  }

  /** A handler leaves the previous database or the candidate that the controller accepted; the
      plan holds, and the operation is a step of a run. */
  lemma SubmittedIsStep(w: World, mishap: Mishap, before: Db, op: Op, a: Net, b: Net, ok: bool, fate: Fate)
    requires Inv(before) && Candidate(before, op).Some? && !op.InstanceNew?
    requires CommitOutcome(w, mishap, before, Candidate(before, op).value, a, b, ok, fate)
    ensures var after := if ok then Candidate(before, op).value else before;
            after == Step(before, Event(op, w.reg, ok)) && Inv(after)
    ensures w.benign && MatchesRegistry(before, w.reg) ==>
              (ok <==> Completes(before, op, w.reg, w.keys, a) && mishap.NoMishap?)
  {
    HandledIsStep(before, op, w.reg, ok, if ok then Candidate(before, op).value else before);
    CompletedExactly(w, mishap, before, op, a, b, ok, fate);
  }

  /** In the terms of the portal: for a database that matches the registry, where commands work,
      an operation is completed exactly when it has a candidate, nothing is left for the controller
      to refuse, no route conflicts, no private key is missing and no mishap occurs. */
  lemma CompletedExactly(w: World, mishap: Mishap, before: Db, op: Op, a: Net, b: Net, ok: bool, fate: Fate)
    requires Inv(before) && Candidate(before, op).Some? && !op.InstanceNew?
    requires CommitOutcome(w, mishap, before, Candidate(before, op).value, a, b, ok, fate)
    ensures w.benign && MatchesRegistry(before, w.reg) ==>
              (ok <==> Completes(before, op, w.reg, w.keys, a) && mishap.NoMishap?)
  {
    if MatchesRegistry(before, w.reg) {
      CandidatePasses(before, op, w.reg, w.keys, a);
    }
  }

  class Session {
    var session: Db
    var committed: Db
    var count: nat
    const kernel: Kernel
    const reg: Instances
    const keys: KeyFiles
    const dryRun: bool
    const mishaps: nat -> Mishap

    constructor (db: Db, kernel: Kernel, reg: Instances, keys: KeyFiles, dryRun: bool, mishaps: nat -> Mishap)
      ensures session == committed == db
      ensures this.kernel == kernel && this.reg == reg && this.keys == keys
      ensures this.dryRun == dryRun && this.mishaps == mishaps
    {
      this.session, this.committed, this.count := db, db, 0;
      this.kernel, this.reg, this.keys, this.dryRun, this.mishaps := kernel, reg, keys, dryRun, mishaps;
    }

    ghost predicate Ready()
      reads this, kernel
    {
      NetOk(kernel.net) && ValidRegistry(reg) && (kernel.net.nft.Some? ==> Loadable(kernel.net.nft.value))
    }

    ghost function Surroundings(): World {
      World(reg, keys, dryRun, kernel.Benign())
    }

    /** reconcile: synchronizes the session's state, where the reply may be lost. */
    method Reconcile(lost: bool) returns (ok: bool, ghost took: bool)
      requires Ready()
      modifies kernel
      ensures Ready()
      ensures Attempted(Surroundings(), session, lost, old(kernel.net), kernel.net, ok, took)
    {
      ghost var before := kernel.net;
      var raws := DesiredState(session);
      var r := PerformSync(kernel, reg, keys, raws, dryRun);
      took := r.Synchronized?;
      ok := (r.Synchronized? || r.DryRun?) && !lost;
      if r.Synchronized? {
        SuccessAgrees(reg, keys, session, before, kernel.net);
      } else {
        FailureKeepsAgreements(reg, keys, before, kernel.net, raws);
      }
      if Repeatable(reg, before) {
        OutcomeKeepsFits(reg, keys, raws, before, kernel.net, r);
      }
    }

    /** The except clause: roll the session back and reconcile once more, whatever comes of it. */
    method RollBack() returns (ghost again: bool, ghost restored: bool)
      requires Ready()
      modifies this`session, kernel
      ensures Ready() && session == committed
      ensures Attempted(Surroundings(), committed, false, old(kernel.net), kernel.net, again, restored)
    {
      session := committed;
      var answer;
      answer, restored := Reconcile(false);
      again := answer;
    }

    /** _commit_with_reconcile once the flush has gone through. */
    method ReconcileAndCommit(mishap: Mishap) returns (ok: bool, ghost fate: Fate)
      requires Ready() && !mishap.FlushFails?
      modifies this`session, this`committed, kernel
      ensures Ready() && session == committed == if ok then old(session) else old(committed)
      ensures CommitOutcome(Surroundings(), mishap, old(committed), old(session), old(kernel.net), kernel.net, ok, fate)
    {
      ghost var w, candidate, start := Surroundings(), session, kernel.net;
      ghost var took;
      ok, took := Reconcile(mishap.ReplyLost?);
      if ok && !mishap.CommitFails? {
        CommitCompleted(w, committed, session, start, kernel.net, took);
        committed := session;
        return true, if took then Carried else Undisturbed;
      }
      ghost var between := kernel.net;
      ghost var again, restored := RollBack();
      CommitCancelled(w, mishap, committed, candidate, start, between, kernel.net, ok, took, again, restored);
      return false, if restored then Carried else if took then Stale else Undisturbed;
    }

    /** _commit_with_reconcile.  The host and the committed database disagree afterwards only if
        the first reconcile took effect and the restoring one did not; a cancelled operation
        leaves the database alone. */
    method CommitWithReconcile() returns (ok: bool, ghost fate: Fate)
      requires Ready()
      modifies this`session, this`committed, this`count, kernel
      ensures Ready() && session == committed == if ok then old(session) else old(committed)
      ensures CommitOutcome(Surroundings(), mishaps(old(count)), old(committed), old(session),
                            old(kernel.net), kernel.net, ok, fate)
    {
      var mishap := mishaps(count);
      count := count + 1;
      if mishap.FlushFails? {
        ghost var candidate, start := session, kernel.net;
        ghost var again, restored := RollBack();
        FlushCancelled(Surroundings(), committed, candidate, start, kernel.net, again, restored);
        return false, if restored then Carried else Undisturbed;
      }
      ok, fate := ReconcileAndCommit(mishap);
    }

    // ----- what each handler flushes

    /** site_new */
    method ProposeSite(instanceId: nat, name: string) returns (next: Option<Db>)
      ensures next == AddSite(session, instanceId, name)
    {
      var instance := FindInstance(session, instanceId);
      if name == "" || instance.None? {
        return None;
      }
      if exists s :: s in session.sites && s.instanceId == instanceId && s.name == name {
        return None;
      }
      var block := AllocateSiteCidr(instance.value.record.vpnPool, UsedBlocks(session, instanceId));
      if block.None? {
        return None;
      }
      var row := SiteRow(session.nextId, instanceId, name, block.value);
      return Some(session.(sites := session.sites + [row], nextId := session.nextId + 1));
    }

    /** The loops of network_new over the trunks and over all Networks. */
    method CheckNetwork(siteId: nat, n: Network) returns (passes: bool)
      ensures passes <==> NetworkPasses(session, siteId, n)
    {
      for k := 0 to |session.instances|
        invariant forall j :: 0 <= j < k ==> !Overlaps(n, session.instances[j].record.vpnPool)
      {
        if Overlaps(n, session.instances[k].record.vpnPool) {
          assert session.instances[k] in session.instances;
          return false;
        }
      }
      for k := 0 to |session.networks|
        invariant forall j :: 0 <= j < k && session.networks[j].siteId == siteId ==> n != session.networks[j].cidr
        invariant forall j :: 0 <= j < k && session.networks[j].siteId != siteId ==>
          !Overlaps(n, session.networks[j].cidr)
      {
        var row := session.networks[k];
        assert row in session.networks;
        if row.siteId == siteId && n == row.cidr {
          return false;
        }
        if row.siteId != siteId && Overlaps(n, row.cidr) {
          return false;
        }
      }
      return true;
    }

    /** network_new */
    method ProposeNetwork(siteId: nat, cidr: Text) returns (next: Option<Db>)
      ensures next == AddNetwork(session, siteId, cidr)
    {
      var site := FindSite(session, siteId);
      if site.None? || !Parses(cidr) {
        return None;
      }
      var n := ParseNetwork(cidr);
      var passes := CheckNetwork(siteId, n);
      if !passes {
        return None;
      }
      var row := NetworkRow(session.nextId, siteId, n);
      return Some(session.(networks := session.networks + [row], nextId := session.nextId + 1));
    }

    /** peer_new, for a generated key pair */
    method ProposePeer(siteId: nat, gateway: bool, key: Key, psk: Key) returns (next: Option<Db>)
      ensures next == AddPeer(session, siteId, gateway, key, psk)
    {
      var site := FindSite(session, siteId);
      if site.None? || !Fresh(session, key, psk) {
        return None;
      }
      if gateway && exists p :: p in session.peers && p.siteId == siteId && p.gateway {
        return None;
      }
      var ip := AllocateHost(site.value.cidr, UsedIps(session, siteId));
      if ip.None? {
        return None;
      }
      var row := PeerRow(session.nextId, siteId, gateway, key, Some(psk), ip.value);
      return Some(session.(peers := session.peers + [row], nextId := session.nextId + 1));
    }

    /** admin_peer_new, for a generated key pair */
    method ProposeAdmin(instanceId: nat, key: Key, psk: Key) returns (next: Option<Db>)
      ensures next == AddAdmin(session, instanceId, key, psk)
    {
      var instance := FindInstance(session, instanceId);
      if instance.None? || !Fresh(session, key, psk) {
        return None;
      }
      var ip := AllocateAdminIp(instance.value.record.vpnPool, UsedAdminIps(session, instanceId));
      if ip.None? {
        return None;
      }
      var row := AdminRow(session.nextId, instanceId, key, Some(psk), ip.value);
      return Some(session.(admins := session.admins + [row], nextId := session.nextId + 1));
    }

    method Propose(op: Op) returns (next: Option<Db>)
      requires !op.InstanceNew?
      ensures next == Candidate(session, op)
    {
      match op {
        case SiteNew(i, name) => next := ProposeSite(i, name);
        case NetworkNew(s, cidr) => next := ProposeNetwork(s, cidr);
        case PeerNew(s, gateway, key, psk) => next := ProposePeer(s, gateway, key, psk);
        case AdminNew(i, key, psk) => next := ProposeAdmin(i, key, psk);
        case _ => next := Candidate(session, op);
      }
    }

    /** The second half of a handler: flush the candidate, reconcile, and commit or roll back. */
    method Submit(op: Op, candidate: Db) returns (ok: bool, ghost fate: Fate)
      requires Ready() && Inv(committed) && !op.InstanceNew? && Candidate(committed, op) == Some(candidate)
      modifies this`session, this`committed, this`count, kernel
      ensures Ready() && session == committed == if ok then candidate else old(committed)
      ensures Inv(committed) && committed == Step(old(committed), Event(op, reg, ok))
      ensures CommitOutcome(Surroundings(), mishaps(old(count)), old(committed), candidate,
                            old(kernel.net), kernel.net, ok, fate)
      ensures kernel.Benign() && MatchesRegistry(old(committed), reg) ==>
        (ok <==> Completes(old(committed), op, reg, keys, old(kernel.net)) && mishaps(old(count)).NoMishap?)
    {
      ghost var mishap, before, start := mishaps(count), committed, kernel.net;
      session := candidate;
      ok, fate := CommitWithReconcile();
      SubmittedIsStep(Surroundings(), mishap, before, op, start, kernel.net, ok, fate);
    }

    /** A handler without a candidate: it stops before its try block, or in it with nothing
        flushed yet. */
    method Refuse(op: Op) returns (ghost fate: Fate)
      requires Ready() && session == committed && Candidate(committed, op).None?
      modifies this`session, kernel
      ensures Ready() && session == committed
      ensures !FailsInTry(committed, op) ==> fate == Undisturbed && kernel.net == old(kernel.net)
      ensures FailsInTry(committed, op) ==>
        CommitOutcome(Surroundings(), FlushFails, committed, committed, old(kernel.net), kernel.net, false, fate)
    {
      fate := Undisturbed;
      if FailsInTry(committed, op) {
        ghost var start := kernel.net;
        ghost var again, restored := RollBack();
        FlushCancelled(Surroundings(), committed, committed, start, kernel.net, again, restored);
        fate := if restored then Carried else Undisturbed;
      }
    }

    /** A handler.  Without a candidate nothing happens, or the handler fails in its try block and
        reconciles the committed database. */
    method Handle(op: Op) returns (ok: bool, ghost fate: Fate)
      requires Ready() && session == committed && Inv(committed) && !op.InstanceNew?
      modifies this`session, this`committed, this`count, kernel
      ensures Ready() && session == committed && Inv(committed)
      ensures committed == Step(old(committed), Event(op, reg, ok))
      ensures Candidate(old(committed), op).None? ==> !ok && committed == old(committed)
      ensures Candidate(old(committed), op).None? && !FailsInTry(old(committed), op) ==>
        fate == Undisturbed && kernel.net == old(kernel.net)
      ensures FailsInTry(old(committed), op) ==>
        CommitOutcome(Surroundings(), FlushFails, old(committed), old(committed),
                      old(kernel.net), kernel.net, false, fate)
      ensures Candidate(old(committed), op).Some? ==>
        && committed == (if ok then Candidate(old(committed), op).value else old(committed))
        && CommitOutcome(Surroundings(), mishaps(old(count)), old(committed), Candidate(old(committed), op).value,
                         old(kernel.net), kernel.net, ok, fate)
      ensures kernel.Benign() && MatchesRegistry(old(committed), reg) ==>
        (ok <==> Completes(old(committed), op, reg, keys, old(kernel.net)) && mishaps(old(count)).NoMishap?)
    {
      var next := Propose(op);
      if next.Some? {
        ok, fate := Submit(op, next.value);
      } else {
        ok := false;
        fate := Refuse(op);
      }
    }
  }
}
