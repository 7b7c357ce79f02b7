/**
 Only a separate batch converges: whenever a second LXC network apply passes and
 writes nothing, no two discovered interfaces contend for a record, name, key or primary address.
 */
module LxcNecessity {
  import opened Wrappers
  import opened Texts
  import opened SourceIdentities
  import opened Guests
  import opened LxcNetworks
  import opened LxcConvergence
  import opened LxcSecondApply

  lemma {:induction false} EmptyLogIsQuiet(nb: NetBox, steps: seq<Step>, s: Step)
    requires Log(nb, steps) == [] && s in steps
    ensures Perform(nb, s) == []
  {
    hide Perform;
    var init, last := steps[..|steps| - 1], steps[|steps| - 1];
    assert Log(nb, init) == [] && Perform(Run(nb, init), last) == [];
    LogReplays(nb, init);
    assert Run(nb, init) == nb;
    if s != last {
      EmptyLogIsQuiet(nb, init, s);
    }
  }

  /** A state in which the batch passes and has nothing to write. */
  ghost predicate Quiet(nb: NetBox, ids: Ids, cluster: nat, cs: seq<Container>) {
    Passes(nb, cluster, cs) && Log(nb, Steps(nb, ids, cluster, cs)) == []
  }

  /** In a quiet state every job has a record of its own identity and name. */
  lemma QuietRow(nb: NetBox, ids: Ids, cluster: nat, cs: seq<Container>, j: Job)
    requires Quiet(nb, ids, cluster, cs) && j in Jobs(cs)
    ensures var vm := VmFor(nb, cluster, j.c); var f := FindInterface(nb, vm, j.c, j.n);
      && f.At? && f.id in Rows(nb, vm)
      && nb.interfaces[f.id].name == Display(j.c, j.n)
      && HoldsOnly(nb.interfaces[f.id].fields.identities, NicIdentity(j.c, j.n))
  {
    hide Log, Steps, FindInterface, DesiredFields, MacPasses, IpsPass, HoldsOnly, Mergeable, Display, FindVm;
    JobPasses(nb, ids, cluster, cs, j);
    var vm := VmFor(nb, cluster, j.c);
    var f := FindInterface(nb, vm, j.c, j.n);
    FindInterfaceFacts(nb, vm, j.c, j.n);
    var s := InterfaceStep(nb, ids, vm, j);
    JobStepsMember(nb, ids, vm, j, s);
    assert FromJob(nb, ids, cluster, cs, s, j);
    JobStepIn(nb, ids, cluster, cs, s, j);
    EmptyLogIsQuiet(nb, Steps(nb, ids, cluster, cs), s);
    DesiredFieldsHoldOnly(j.c, j.n, FieldsOf(nb, f));
  }

  lemma SameHolder(cs: seq<Container>, field: IdentityField, a: Job, b: Job)
    requires OneSource(cs) && InjectiveIdentities(cs) && a in Jobs(cs) && b in Jobs(cs)
    requires HoldsOnly(field, NicIdentity(a.c, a.n)) && HoldsOnly(field, NicIdentity(b.c, b.n))
    ensures a == b
  {
  }

  lemma QuietNames(nb: NetBox, after: NetBox, ids: Ids, cluster: nat, cs: seq<Container>)
    requires Passes(nb, cluster, cs) && OneSource(cs) && InjectiveIdentities(cs)
    requires Quiet(after, ids, cluster, cs) && after.vms == nb.vms
    ensures DistinctNames(nb, cluster, cs)
  {
    hide OneSource, InjectiveIdentities, FindInterface, Fold, Display, HoldsOnly, NicPasses, Steps, Log;
    forall a, b | a in Jobs(cs) && b in Jobs(cs) && a != b && VmFor(nb, cluster, a.c) == VmFor(nb, cluster, b.c)
      ensures Fold(Display(a.c, a.n)) != Fold(Display(b.c, b.n))
    {
      SameVm(nb, after, cluster, a.c);
      SameVm(nb, after, cluster, b.c);
      QuietRow(after, ids, cluster, cs, a);
      QuietRow(after, ids, cluster, cs, b);
      var vm := VmFor(after, cluster, a.c);
      var r := FindInterface(after, vm, b.c, b.n).id;
      if Fold(Display(a.c, a.n)) == Fold(Display(b.c, b.n)) {
        JobPasses(after, ids, cluster, cs, a);
        assert NamesPass(after, vm, a.c);
        assert FindInterface(after, vm, a.c, a.n) == At(r);
        SameHolder(cs, after.interfaces[r].fields.identities, a, b);
      }
    }
  }

  lemma QuietIp(nb: NetBox, ids: Ids, cluster: nat, cs: seq<Container>, j: Job, k: IpKey)
    requires Quiet(nb, ids, cluster, cs) && j in Jobs(cs) && k in Keys(j.n)
    ensures IpTarget(nb, ids, k) in IpsAt(nb, k)
  {
    hide Log, Steps, Keys, FindInterface, ContainerPasses, Target, Jobs, NoRepeats;
    JobIpStep(nb, ids, cluster, cs, j, k);
    EmptyLogIsQuiet(nb, Steps(nb, ids, cluster, cs), IpStep(nb, ids, Target(nb, ids, VmFor(nb, cluster, j.c), j), k));
  }

  /** A quiet container's candidate is its VM's primary address. */
  lemma QuietPrimary(nb: NetBox, ids: Ids, cluster: nat, cs: seq<Container>, c: Container, k: IpKey)
    requires Quiet(nb, ids, cluster, cs) && c in cs && Candidate(nb, VmFor(nb, cluster, c), c) == Some(k)
    ensures var vm := VmFor(nb, cluster, c);
      vm in nb.primaryIp && nb.primaryIp[vm] == IpTarget(nb, ids, k)
  {
    hide Log, Steps, Candidate, ContainerPasses, IpTarget, Jobs, NoRepeats, FindVm;
    var vm := VmFor(nb, cluster, c);
    var s := EnsurePrimary(vm, IpTarget(nb, ids, k));
    assert s in PrimarySteps(nb, ids, vm, c);
    assert FromContainer(nb, ids, cluster, cs, s, c);
    ContainerStepIn(nb, ids, cluster, cs, s, c);
    EmptyLogIsQuiet(nb, Steps(nb, ids, cluster, cs), s);
  }

  lemma QuietPrimaries(nb: NetBox, after: NetBox, ids: Ids, cluster: nat, cs: seq<Container>)
    requires Passes(nb, cluster, cs) && Quiet(after, ids, cluster, cs) && after.vms == nb.vms
    ensures DistinctPrimaries(nb, cluster, cs)
  {
    hide Quiet, Candidate, Keys, Jobs, IpTarget, Passes, FindVm;
    assert NoRepeats(DiscoveredIps(Jobs(cs))) by { PassesUniqueIps(nb, cluster, cs); }
    forall c, d | c in cs && d in cs && VmFor(nb, cluster, c) == VmFor(nb, cluster, d)
                  && Candidate(nb, VmFor(nb, cluster, c), c).Some? && Candidate(nb, VmFor(nb, cluster, d), d).Some?
      ensures c == d
    {
      var vm := VmFor(nb, cluster, c);
      SameVm(nb, after, cluster, c);
      SameVm(nb, after, cluster, d);
      SameCandidate(nb, after, vm, c);
      SameCandidate(nb, after, vm, d);
      var k, l := Candidate(nb, vm, c).value, Candidate(nb, vm, d).value;
      var n :| n in c.nics && k in Keys(n);
      var m :| m in d.nics && l in Keys(m);
      assert Job(c, n) in Jobs(cs) && Job(d, m) in Jobs(cs);
      QuietPrimary(after, ids, cluster, cs, c, k);
      QuietPrimary(after, ids, cluster, cs, d, l);
      QuietIp(after, ids, cluster, cs, Job(c, n), k);
      QuietIp(after, ids, cluster, cs, Job(d, m), l);
      assert k == l;
      IpNamesOneJob(Jobs(cs), Job(c, n), Job(d, m), k);
    }
  }

  lemma PassesUniqueIps(nb: NetBox, cluster: nat, cs: seq<Container>)
    requires Passes(nb, cluster, cs)
    ensures NoRepeats(DiscoveredIps(Jobs(cs)))
  {
  }

  // -------------------------------------------------- distinct records

  /** A row is as before in identity and place, or carries the identity of one job that targets it. */
  ghost predicate Accounted(nb: NetBox, ids: Ids, cluster: nat, cs: seq<Container>, now: NetBox, r: nat) {
    || (r in nb.interfaces && r in now.interfaces
        && now.interfaces[r].fields == nb.interfaces[r].fields && now.interfaces[r].vm == nb.interfaces[r].vm)
    || (exists z :: z in Jobs(cs) && r == Target(nb, ids, VmFor(nb, cluster, z.c), z)
                    && r in now.interfaces
                    && HoldsOnly(now.interfaces[r].fields.identities, NicIdentity(z.c, z.n)))
  }

  /** The fields an interface step may write. */
  lemma InterfaceStepFields(nb: NetBox, ids: Ids, cluster: nat, cs: seq<Container>, s: Step)
    requires Passes(nb, cluster, cs) && s in Steps(nb, ids, cluster, cs) && s.EnsureInterface?
    ensures exists z :: z in Jobs(cs) && s.id == Target(nb, ids, VmFor(nb, cluster, z.c), z)
                        && HoldsOnly(s.fields.identities, NicIdentity(z.c, z.n))
    ensures s.changes.fields.Some? ==> s.changes.fields.value == s.fields
  {
    hide Passes, Steps, FindInterface, DesiredFields, MacPasses, IpsPass, HoldsOnly, Mergeable, Display, NicSteps,
         Jobs;
    StepOrigin(nb, ids, cluster, cs, s);
    var z :| FromJob(nb, ids, cluster, cs, s, z);
    var vm := VmFor(nb, cluster, z.c);
    JobStepKinds(nb, ids, vm, z, s);
    DesiredFieldsHoldOnly(z.c, z.n, FieldsOf(nb, FindInterface(nb, vm, z.c, z.n)));
  }

  lemma {:induction false} RowsAccounted(nb: NetBox, ids: Ids, cluster: nat, cs: seq<Container>, steps: seq<Step>,
                                         r: nat)
    requires Passes(nb, cluster, cs) && (forall s :: s in steps ==> s in Steps(nb, ids, cluster, cs))
    requires r in Run(nb, steps).interfaces
    ensures Accounted(nb, ids, cluster, cs, Run(nb, steps), r)
  {
    hide Passes, Steps, Accounted, After;
    if steps == [] {
      AccountedAtFirst(nb, ids, cluster, cs, r);
    } else {
      var init, last := steps[..|steps| - 1], steps[|steps| - 1];
      var before := Run(nb, init);
      if r in before.interfaces {
        RowsAccounted(nb, ids, cluster, cs, init, r);
      }
      AccountedNext(nb, ids, cluster, cs, before, last, r);
    }
  }

  lemma AccountedAtFirst(nb: NetBox, ids: Ids, cluster: nat, cs: seq<Container>, r: nat)
    requires r in nb.interfaces
    ensures Accounted(nb, ids, cluster, cs, nb, r)
  {
  }

  lemma AccountedNext(nb: NetBox, ids: Ids, cluster: nat, cs: seq<Container>, before: NetBox, last: Step, r: nat)
    requires Passes(nb, cluster, cs) && last in Steps(nb, ids, cluster, cs) && r in After(before, last).interfaces
    requires r in before.interfaces ==> Accounted(nb, ids, cluster, cs, before, r)
    ensures Accounted(nb, ids, cluster, cs, After(before, last), r)
  {
    hide Passes, Steps, Target, HoldsOnly, Jobs, After, VmFor, NicIdentity;
    AfterIsSettled(before, last);
    if last.EnsureInterface? && last.id == r {
      InterfaceStepFields(nb, ids, cluster, cs, last);
    } else {
      SparesInterface(before, last, r);
    }
  }

  /** A record carrying the identity of a job after the apply is the job's own target. */
  lemma HolderIsTarget(nb: NetBox, ids: Ids, cluster: nat, cs: seq<Container>, j: Job, r: nat)
    requires Batch(nb, ids, cluster, cs) && j in Jobs(cs)
    requires var after := Applied(nb, ids, cluster, cs);
      && r in Rows(after, VmFor(nb, cluster, j.c))
      && HoldsOnly(after.interfaces[r].fields.identities, NicIdentity(j.c, j.n))
    ensures r == Target(nb, ids, VmFor(nb, cluster, j.c), j)
  {
    hide Passes, Steps, Target, FindInterface, NicRank, NicPasses, HoldsOnly, FreshIds, Run, OneSource,
         InjectiveIdentities, Jobs;
    JustPasses(nb, ids, cluster, cs);
    JobPasses(nb, ids, cluster, cs, j);
    var after, vm := Applied(nb, ids, cluster, cs), VmFor(nb, cluster, j.c);
    RowsAccounted(nb, ids, cluster, cs, Steps(nb, ids, cluster, cs), r);
    if z :| z in Jobs(cs) && r == Target(nb, ids, VmFor(nb, cluster, z.c), z)
            && HoldsOnly(after.interfaces[r].fields.identities, NicIdentity(z.c, z.n)) {
      SameHolder(cs, after.interfaces[r].fields.identities, j, z);
    } else {
      HolderWasFound(nb, vm, j, r);
      TargetFacts(nb, ids, vm, j);
    }
  }

  lemma HolderWasFound(nb: NetBox, vm: nat, j: Job, r: nat)
    requires NicPasses(nb, vm, j.c, j.n) && r in Rows(nb, vm)
    requires HoldsOnly(nb.interfaces[r].fields.identities, NicIdentity(j.c, j.n))
    ensures FindInterface(nb, vm, j.c, j.n) == At(r)
  {
    hide FindInterface, NicRank;
    if FindInterface(nb, vm, j.c, j.n) != At(r) {
      OtherRowsRankLow(nb, vm, j.c, j.n, r);
      UnmatchedIsClean(nb.interfaces[r].fields.identities, j.c, j.n);
    }
  }

  lemma QuietRecords(nb: NetBox, ids: Ids, ids2: Ids, cluster: nat, cs: seq<Container>)
    requires Batch(nb, ids, cluster, cs) && Quiet(Applied(nb, ids, cluster, cs), ids2, cluster, cs)
    ensures DistinctRecords(nb, cluster, cs)
  {
    hide Quiet, Target, FindInterface, HoldsOnly, FreshIds, Applied, OneSource, InjectiveIdentities, Jobs, Passes,
         Display;
    JustPasses(nb, ids, cluster, cs);
    var after := Applied(nb, ids, cluster, cs);
    AppliedVms(nb, ids, cluster, cs);
    forall a, b | a in Jobs(cs) && b in Jobs(cs)
                  && FindInterface(nb, VmFor(nb, cluster, a.c), a.c, a.n).At?
                  && FindInterface(nb, VmFor(nb, cluster, a.c), a.c, a.n) ==
                    FindInterface(nb, VmFor(nb, cluster, b.c), b.c, b.n)
      ensures a == b
    {
      TargetFacts(nb, ids, VmFor(nb, cluster, a.c), a);
      TargetFacts(nb, ids, VmFor(nb, cluster, b.c), b);
      SameVm(nb, after, cluster, a.c);
      SameVm(nb, after, cluster, b.c);
      QuietRow(after, ids2, cluster, cs, a);
      QuietRow(after, ids2, cluster, cs, b);
      HolderIsTarget(nb, ids, cluster, cs, a, FindInterface(after, VmFor(after, cluster, a.c), a.c, a.n).id);
      HolderIsTarget(nb, ids, cluster, cs, b, FindInterface(after, VmFor(after, cluster, b.c), b.c, b.n).id);
      SameHolder(cs, after.interfaces[FindInterface(after, VmFor(after, cluster, a.c), a.c, a.n).id].fields.identities,
                 a, b);
    }
  }

  lemma AppliedVms(nb: NetBox, ids: Ids, cluster: nat, cs: seq<Container>)
    requires Passes(nb, cluster, cs)
    ensures Applied(nb, ids, cluster, cs).vms == nb.vms
  {
    hide Run, Steps, ContainerPasses;
    RunSpares(nb, Steps(nb, ids, cluster, cs));
  }

  // ------------------------------------------------------- distinct keys

  lemma QuietKeys(nb: NetBox, ids: Ids, ids2: Ids, cluster: nat, cs: seq<Container>, after: NetBox)
    requires Reached(nb, ids, cluster, cs, after) && Quiet(after, ids2, cluster, cs)
    ensures DistinctKeys(nb, cluster, cs)
  {
    hide Reached, Quiet, Target, FindInterface, HoldsOnly, Mergeable, Jobs, Passes, Display, NicRank, HasLegacy,
         NicPasses, DistinctRecords, FreshIds, OneSource, InjectiveIdentities, Hidden, Desired;
    JustReached(nb, ids, cluster, cs, after);
    JustPasses(nb, ids, cluster, cs);
    forall a, b | a in Jobs(cs) && b in Jobs(cs) && a != b && VmFor(nb, cluster, a.c) == VmFor(nb, cluster, b.c)
                  && ReadsFormer(a.c, a.n) && FormerNicIdentity(a.c, a.n) == NicIdentity(b.c, b.n)
      ensures Hidden(nb, VmFor(nb, cluster, b.c), a, b)
    {
      var vm := VmFor(nb, cluster, b.c);
      SameVm(nb, after, cluster, a.c);
      JobRow(nb, ids, cluster, cs, after, b);
      DesiredFacts(nb, vm, b);
      LegacyKept(nb, vm, a, b);
      if NicIdentity(a.c, a.n) == NicIdentity(b.c, b.n) {
        IdentityNamesOneJob(cs, a, b);
      }
      var r := Target(nb, ids, vm, b);
      RankOnForeignRecord(after.interfaces[r].fields.identities, a.c, a.n, NicIdentity(b.c, b.n));
      QuietRow(after, ids2, cluster, cs, a);
      if FindInterface(after, vm, a.c, a.n) == At(r) {
        SameHolder(cs, after.interfaces[r].fields.identities, a, b);
      }
      OtherRowsRankLow(after, vm, a.c, a.n, r);
    }
  }

  /**
   The exact condition for convergence. For every accepted batch of one source whose identities
   name one interface each, and for any ids NetBox assigns: the second apply passes its preflight
   and writes nothing if and only if the batch was separate before the first apply.
   */
  lemma SecondApplyWritesNothingIffSeparate(nb: NetBox, ids: Ids, ids2: Ids, cluster: nat, cs: seq<Container>)
    requires Batch(nb, ids, cluster, cs)
    ensures var after := Applied(nb, ids, cluster, cs);
      Separate(nb, cluster, cs) <==> Passes(after, cluster, cs) && Log(after, Steps(after, ids2, cluster, cs)) == []
  {
    hide Log, Steps, ContainerPasses, DistinctRecords, DistinctNames, DistinctKeys, DistinctPrimaries, FreshIds, Met,
         Untouched;
    var after := Applied(nb, ids, cluster, cs);
    if Separate(nb, cluster, cs) {
      SeparateBatchConverges(nb, ids, ids2, cluster, cs);
    }
    if Quiet(after, ids2, cluster, cs) {
      AppliedVms(nb, ids, cluster, cs);
      QuietRecords(nb, ids, ids2, cluster, cs);
      QuietNames(nb, after, ids2, cluster, cs);
      QuietPrimaries(nb, after, ids2, cluster, cs);
      AppliedMeets(nb, ids, cluster, cs);
      assert Reached(nb, ids, cluster, cs, after);
      QuietKeys(nb, ids, ids2, cluster, cs, after);
    }
  }
}
