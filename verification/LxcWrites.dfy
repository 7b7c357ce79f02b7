/**
 The LXC write phase as it runs: a writer that updates NetBox in place, one record at a time,
 from the contexts the preflight filled.
 */
module LxcWrites {
  import opened Guests
  import opened LxcNetworks
  import opened LxcInventory
  import opened LxcPreflight

  // -------------------------------------------------- the steps of a context

  function InterfaceId(ids: Ids, c: Container, n: NicContext): nat {
    if n.existing.Some? then n.existing.value else ids.interface(NicIdentity(c, n.nic))
  }

  function InterfaceStepOf(ids: Ids, vm: nat, c: Container, n: NicContext): Step {
    EnsureInterface(InterfaceId(ids, c, n), n.existing.None?, vm, Display(c, n.nic), n.fields, n.changes)
  }

  function MacStepsOf(ids: Ids, c: Container, n: NicContext): seq<Step> {
    match n.mac
    case None => []
    case Some(a) =>
      [EnsureMac(if n.existingMac.Some? then n.existingMac.value else ids.mac(a), n.existingMac.None?,
                 a, InterfaceId(ids, c, n))]
  }

  function IpId(ids: Ids, x: IpContext): nat {
    if x.existing.Some? then x.existing.value else ids.ip(x.key)
  }

  function IpStepOf(ids: Ids, interface: nat, x: IpContext): Step {
    EnsureIp(IpId(ids, x), x.existing.None?, x.key, interface)
  }

  function IpStepsOf(ids: Ids, interface: nat, ips: seq<IpContext>): seq<Step> {
    seq(|ips|, i requires 0 <= i < |ips| => IpStepOf(ids, interface, ips[i]))
  }

  function NicStepsOf(ids: Ids, vm: nat, c: Container, n: NicContext): seq<Step> {
    [InterfaceStepOf(ids, vm, c, n)] + MacStepsOf(ids, c, n) + IpStepsOf(ids, InterfaceId(ids, c, n), n.ips)
  }

  function NicsStepsOf(ids: Ids, vm: nat, c: Container, nics: seq<NicContext>): seq<Step> {
    if nics == [] then []
    else NicsStepsOf(ids, vm, c, nics[..|nics| - 1]) + NicStepsOf(ids, vm, c, nics[|nics| - 1])
  }

  /** `applied_ips` after one NIC's addresses. */
  function Record(ids: Ids, applied: map<IpKey, nat>, ips: seq<IpContext>): map<IpKey, nat> {
    if ips == [] then applied
    else Record(ids, applied, ips[..|ips| - 1])[ips[|ips| - 1].key := IpId(ids, ips[|ips| - 1])]
  }

  function AppliedIps(ids: Ids, nics: seq<NicContext>): map<IpKey, nat> {
    if nics == [] then map[] else Record(ids, AppliedIps(ids, nics[..|nics| - 1]), nics[|nics| - 1].ips)
  }

  function PrimaryStepsOf(vms: map<nat, Vm>, ids: Ids, ctx: ContainerContext): seq<Step> {
    var applied := AppliedIps(ids, ctx.nics);
    if ctx.vm in vms && vms[ctx.vm].primaryOwned then []
    else if ctx.candidate.Some? && ctx.candidate.value in applied
      then [EnsurePrimary(ctx.vm, applied[ctx.candidate.value])]
    else []
  }

  function ContextSteps(vms: map<nat, Vm>, ids: Ids, ctx: ContainerContext): seq<Step> {
    NicsStepsOf(ids, ctx.vm, ctx.c, ctx.nics) + PrimaryStepsOf(vms, ids, ctx)
  }

  function AllSteps(vms: map<nat, Vm>, ids: Ids, ctxs: seq<ContainerContext>): seq<Step> {
    if ctxs == [] then []
    else AllSteps(vms, ids, ctxs[..|ctxs| - 1]) + ContextSteps(vms, ids, ctxs[|ctxs| - 1])
  }

  // ------------------------------------------------------ contexts and records

  lemma {:induction false} IpContextsAt(nb: NetBox, keys: seq<IpKey>)
    ensures |IpContexts(nb, keys)| == |keys|
    ensures forall k :: 0 <= k < |keys| ==> IpContexts(nb, keys)[k] == IpContext(keys[k], Sole(IpsAt(nb, keys[k])))
  {
    hide Sole, IpsAt;
    if keys != [] {
      IpContextsAt(nb, keys[..|keys| - 1]);
    }
  }

  lemma {:induction false} IpStepsAt(nb: NetBox, ids: Ids, target: nat, keys: seq<IpKey>)
    ensures |IpSteps(nb, ids, target, keys)| == |keys|
    ensures forall k :: 0 <= k < |keys| ==> IpSteps(nb, ids, target, keys)[k] == IpStep(nb, ids, target, keys[k])
  {
    hide IpStep;
    if keys != [] {
      IpStepsAt(nb, ids, target, keys[1..]);
    }
  }

  lemma SoleIsTarget(nb: NetBox, ids: Ids, key: IpKey)
    requires AtMostOne(IpsAt(nb, key))
    ensures IpTarget(nb, ids, key) == IpId(ids, IpContext(key, Sole(IpsAt(nb, key))))
    ensures Sole(IpsAt(nb, key)).None? <==> IpsAt(nb, key) == {}
  {
  }

  lemma IpStepsAgree(nb: NetBox, ids: Ids, target: nat, keys: seq<IpKey>)
    requires forall k :: k in keys ==> AtMostOne(IpsAt(nb, k))
    ensures IpStepsOf(ids, target, IpContexts(nb, keys)) == IpSteps(nb, ids, target, keys)
  {
    hide AtMostOne, IpsAt, Sole, IpTarget, IpContexts, IpSteps;
    IpContextsAt(nb, keys);
    IpStepsAt(nb, ids, target, keys);
    forall k | 0 <= k < |keys|
      ensures IpStepOf(ids, target, IpContexts(nb, keys)[k]) == IpStep(nb, ids, target, keys[k])
    {
      SoleIsTarget(nb, ids, keys[k]);
    }
  }

  lemma NicStepsAgree(nb: NetBox, ids: Ids, vm: nat, c: Container, n: Nic)
    requires NicPasses(nb, vm, c, n)
    ensures NicStepsOf(ids, vm, c, NicContextOf(nb, vm, c, n)) == NicSteps(nb, ids, vm, Job(c, n))
  {
    hide IpSteps, IpContexts, IpStepsOf, IpsAt, DesiredFields, FindInterface, CanonicalMac, MacsAt;
    IpStepsAgree(nb, ids, Target(nb, ids, vm, Job(c, n)), Keys(n));
  }

  lemma {:induction false} NicsStepsSnoc(nb: NetBox, ids: Ids, vm: nat, c: Container, nics: seq<Nic>, n: Nic)
    requires NicPasses(nb, vm, c, n) && forall m :: m in nics ==> NicPasses(nb, vm, c, m)
    ensures NicsSteps(nb, ids, vm, c, nics + [n]) == NicsSteps(nb, ids, vm, c, nics) + NicSteps(nb, ids, vm, Job(c, n))
  {
    hide NicPasses, NicSteps;
    var all := nics + [n];
    if nics != [] {
      NicsStepsSnoc(nb, ids, vm, c, nics[1..], n);
      assert all[0] == nics[0] && all[1..] == nics[1..] + [n];
      Regroup(NicSteps(nb, ids, vm, Job(c, nics[0])), NicsSteps(nb, ids, vm, c, nics[1..]),
        NicSteps(nb, ids, vm, Job(c, n)));
    } else {
      assert all[0] == n && all[1..] == [];
    }
  }

  lemma {:induction false} NicsStepsAgree(nb: NetBox, ids: Ids, vm: nat, c: Container, nics: seq<Nic>,
                                          ctxs: seq<NicContext>)
    requires forall n :: n in nics ==> NicPasses(nb, vm, c, n)
    requires |ctxs| == |nics| && forall k :: 0 <= k < |nics| ==> ctxs[k] == NicContextOf(nb, vm, c, nics[k])
    ensures NicsStepsOf(ids, vm, c, ctxs) == NicsSteps(nb, ids, vm, c, nics)
  {
    hide NicPasses, NicSteps, NicStepsOf, NicContextOf;
    if nics != [] {
      var init, last := nics[..|nics| - 1], nics[|nics| - 1];
      NicsStepsAgree(nb, ids, vm, c, init, ctxs[..|ctxs| - 1]);
      NicsStepsSnoc(nb, ids, vm, c, init, last);
      assert nics == init + [last];
      NicStepsAgree(nb, ids, vm, c, last);
    }
  }

  /** Every applied address is recorded under the one record the preflight found or the writer creates. */
  ghost predicate Recorded(nb: NetBox, ids: Ids, applied: map<IpKey, nat>) {
    forall k :: k in applied ==> applied[k] == IpTarget(nb, ids, k)
  }

  lemma {:induction false} RecordAgrees(nb: NetBox, ids: Ids, applied: map<IpKey, nat>, keys: seq<IpKey>)
    requires Recorded(nb, ids, applied)
    requires forall k :: k in keys ==> AtMostOne(IpsAt(nb, k))
    ensures Recorded(nb, ids, Record(ids, applied, IpContexts(nb, keys)))
    ensures forall k :: k in Record(ids, applied, IpContexts(nb, keys)) <==> k in applied || k in keys
  {
    hide AtMostOne, IpsAt, Sole, IpTarget, IpId;
    if keys != [] {
      var init, last := keys[..|keys| - 1], keys[|keys| - 1];
      RecordAgrees(nb, ids, applied, init);
      SoleIsTarget(nb, ids, last);
      var ctxs := IpContexts(nb, keys);
      assert ctxs[..|ctxs| - 1] == IpContexts(nb, init);
      assert keys == init + [last];
    }
  }

  lemma {:induction false} AppliedAgrees(nb: NetBox, ids: Ids, vm: nat, c: Container, nics: seq<Nic>,
                                         ctxs: seq<NicContext>)
    requires forall n :: n in nics ==> NicPasses(nb, vm, c, n)
    requires |ctxs| == |nics| && forall k :: 0 <= k < |nics| ==> ctxs[k] == NicContextOf(nb, vm, c, nics[k])
    ensures Recorded(nb, ids, AppliedIps(ids, ctxs))
    ensures forall n, k :: n in nics && k in Keys(n) ==> k in AppliedIps(ids, ctxs)
  {
    hide Record, IpContexts, IpsAt, Recorded, FindInterface, DesiredFields, MacPasses, CanonicalMac, Keys, AtMostOne;
    if nics != [] {
      var init, last := nics[..|nics| - 1], nics[|nics| - 1];
      AppliedAgrees(nb, ids, vm, c, init, ctxs[..|ctxs| - 1]);
      assert NicPasses(nb, vm, c, last);
      RecordAgrees(nb, ids, AppliedIps(ids, ctxs[..|ctxs| - 1]), Keys(last));
      assert forall n :: n in nics <==> n in init || n == last;
    } else {
      assert Recorded(nb, ids, map[]) by { NothingRecorded(nb, ids); }
    }
  }

  lemma NothingRecorded(nb: NetBox, ids: Ids)
    ensures Recorded(nb, ids, map[])
  {
  }

  /** The contexts the preflight filled stand for exactly the steps of the specification. */
  lemma ContextStepsAgree(nb: NetBox, ids: Ids, cluster: nat, c: Container, ctx: ContainerContext)
    requires ContainerPasses(nb, cluster, c) && Describes(nb, cluster, c, ctx)
    ensures ContextSteps(nb.vms, ids, ctx) == ContainerSteps(nb, ids, cluster, c)
  {
    hide NicPasses, NicContextOf, NicsSteps, NicsStepsOf, AppliedIps, FindVm, NamesPass, Keys, IpTarget, Ipv4;
    NicsStepsAgree(nb, ids, ctx.vm, c, c.nics, ctx.nics);
    AppliedAgrees(nb, ids, ctx.vm, c, c.nics, ctx.nics);
    if ctx.candidate.Some? {
      assert ctx.candidate.value in Ipv4(c.nics);
    }
  }

  lemma {:induction false} StepsSnoc(nb: NetBox, ids: Ids, cluster: nat, cs: seq<Container>, c: Container)
    requires ContainerPasses(nb, cluster, c) && forall d :: d in cs ==> ContainerPasses(nb, cluster, d)
    ensures Steps(nb, ids, cluster, cs + [c]) == Steps(nb, ids, cluster, cs) + ContainerSteps(nb, ids, cluster, c)
  {
    hide ContainerPasses, ContainerSteps;
    var all := cs + [c];
    if cs != [] {
      StepsSnoc(nb, ids, cluster, cs[1..], c);
      assert all[0] == cs[0] && all[1..] == cs[1..] + [c];
      Regroup(ContainerSteps(nb, ids, cluster, cs[0]), Steps(nb, ids, cluster, cs[1..]),
        ContainerSteps(nb, ids, cluster, c));
    } else {
      assert all[0] == c && all[1..] == [];
    }
  }

  lemma {:induction false} AllStepsAgree(nb: NetBox, ids: Ids, cluster: nat, cs: seq<Container>,
                                         ctxs: seq<ContainerContext>)
    requires forall c :: c in cs ==> ContainerPasses(nb, cluster, c)
    requires |ctxs| == |cs| && forall k :: 0 <= k < |cs| ==> Describes(nb, cluster, cs[k], ctxs[k])
    ensures AllSteps(nb.vms, ids, ctxs) == Steps(nb, ids, cluster, cs)
  {
    hide ContainerPasses, ContainerSteps, ContextSteps, Describes;
    if cs != [] {
      var init, last := cs[..|cs| - 1], cs[|cs| - 1];
      AllStepsAgree(nb, ids, cluster, init, ctxs[..|ctxs| - 1]);
      StepsSnoc(nb, ids, cluster, init, last);
      assert cs == init + [last];
      ContextStepsAgree(nb, ids, cluster, last, ctxs[|ctxs| - 1]);
    }
  }

  // ------------------------------------------------------------------- writer

  /** From `nb` with log `log`, the steps were performed in order and nothing else was written. */
  ghost predicate Did(nb: NetBox, log: seq<Write>, steps: seq<Step>, nb': NetBox, log': seq<Write>) {
    nb' == Run(nb, steps) && log' == log + Log(nb, steps)
  }

  lemma DidNothing(nb: NetBox, log: seq<Write>)
    ensures Did(nb, log, [], nb, log)
  {
  }

  /** A step is at most two writes. */
  lemma AfterIs(nb: NetBox, s: Step)
    ensures Perform(nb, s) == [] ==> After(nb, s) == nb
    ensures |Perform(nb, s)| == 1 ==> After(nb, s) == Apply(nb, Perform(nb, s)[0])
    ensures |Perform(nb, s)| == 2 ==> After(nb, s) == Apply(Apply(nb, Perform(nb, s)[0]), Perform(nb, s)[1])
  {
    hide Perform, Apply;
    var ws := Perform(nb, s);
    if |ws| == 1 {
      assert ws[..|ws| - 1] == [];
      assert Replay(nb, ws) == Apply(nb, ws[0]);
    } else if |ws| == 2 {
      assert ws[..1][..0] == [] && ws[..1][0] == ws[0];
      assert Replay(nb, ws[..1]) == Apply(nb, ws[0]);
    }
  }

  lemma DidOne(nb: NetBox, log: seq<Write>, s: Step)
    ensures Did(nb, log, [s], After(nb, s), log + Perform(nb, s))
    ensures Perform(nb, s) == [] ==> After(nb, s) == nb && log + Perform(nb, s) == log
    ensures |Perform(nb, s)| == 1 ==> After(nb, s) == Apply(nb, Perform(nb, s)[0])
    ensures |Perform(nb, s)| == 2 ==>
      && After(nb, s) == Apply(Apply(nb, Perform(nb, s)[0]), Perform(nb, s)[1])
      && log + Perform(nb, s) == log + [Perform(nb, s)[0]] + [Perform(nb, s)[1]]
  {
    AfterIs(nb, s);
    hide After, Perform;
    LogLast(nb, [s], [], s);
    assert Log(nb, []) + Perform(nb, s) == Perform(nb, s);
    RunConcat(nb, [], [s]);
  }

  lemma DidThen(nb: NetBox, log: seq<Write>, a: seq<Step>, nb1: NetBox, log1: seq<Write>, b: seq<Step>, nb2: NetBox,
                log2: seq<Write>)
    requires Did(nb, log, a, nb1, log1) && Did(nb1, log1, b, nb2, log2)
    ensures Did(nb, log, a + b, nb2, log2)
  {
    hide Run, Log;
    RunConcat(nb, a, b);
    LogConcat(nb, a, b);
    Regroup(log, Log(nb, a), Log(nb1, b));
  }

  lemma ApplyKeepsVms(nb: NetBox, w: Write)
    ensures Apply(nb, w).vms == nb.vms
  {
  }

  lemma {:induction false} ReplayKeepsVms(nb: NetBox, log: seq<Write>)
    ensures Replay(nb, log).vms == nb.vms
  {
    hide Apply;
    if log != [] {
      ReplayKeepsVms(nb, log[..|log| - 1]);
      ApplyKeepsVms(Replay(nb, log[..|log| - 1]), log[|log| - 1]);
    }
  }

  lemma {:induction false} RunKeepsVms(nb: NetBox, steps: seq<Step>)
    ensures Run(nb, steps).vms == nb.vms
  {
    hide Perform, Replay;
    if steps != [] {
      var init, last := steps[..|steps| - 1], steps[|steps| - 1];
      RunKeepsVms(nb, init);
      ReplayKeepsVms(Run(nb, init), Perform(Run(nb, init), last));
    }
  }

  /** NetBox behind its API: every write is one accepted request. */
  class LxcWriter {
    var nb: NetBox
    var log: seq<Write>
    const ids: Ids

    constructor (nb: NetBox, ids: Ids)
      ensures this.nb == nb && this.log == [] && this.ids == ids
    {
      this.nb := nb;
      this.log := [];
      this.ids := ids;
    }

    method Send(w: Write)
      modifies this
      ensures nb == Apply(old(nb), w) && log == old(log) + [w]
    {
      nb := Apply(nb, w);
      log := log + [w];
    }

    /** `_write_interface`. */
    method WriteInterface(vm: nat, c: Container, n: NicContext) returns (id: nat)
      modifies this
      ensures id == InterfaceId(ids, c, n)
      ensures Did(old(nb), old(log), [InterfaceStepOf(ids, vm, c, n)], nb, log)
    {
      hide Did, After;
      DidOne(nb, log, InterfaceStepOf(ids, vm, c, n));
      id := InterfaceId(ids, c, n);
      if n.existing.None? {
        Send(CreateInterface(id, vm, Display(c, n.nic), n.fields));
      } else if n.changes != NO_CHANGES {
        Send(UpdateInterface(id, n.changes));
      }
    }

    /** `_write_mac`: create or adopt the record, then make it the interface's primary. */
    method WriteMac(c: Container, n: NicContext, interface: nat)
      requires interface == InterfaceId(ids, c, n)
      modifies this
      ensures Did(old(nb), old(log), MacStepsOf(ids, c, n), nb, log)
    {
      hide Did, After;
      DidNothing(nb, log);
      if n.mac.Some? {
        var mac := if n.existingMac.Some? then n.existingMac.value else ids.mac(n.mac.value);
        ghost var step := EnsureMac(mac, n.existingMac.None?, n.mac.value, interface);
        DidOne(nb, log, step);
        if n.existingMac.None? {
          Send(CreateMac(mac, n.mac.value, interface));
        } else if mac in nb.macs && nb.macs[mac].owner == FREE {
          Send(AssignMac(mac, interface));
        }
        if interface !in nb.primaryMac || nb.primaryMac[interface] != mac {
          Send(SetPrimaryMac(interface, mac));
        }
        assert log == old(log) + Perform(old(nb), step);
      }
    }

    /** `_write_ip`. */
    method WriteIp(x: IpContext, interface: nat) returns (id: nat)
      modifies this
      ensures id == IpId(ids, x)
      ensures Did(old(nb), old(log), [IpStepOf(ids, interface, x)], nb, log)
    {
      hide Did, After;
      DidOne(nb, log, IpStepOf(ids, interface, x));
      id := IpId(ids, x);
      if x.existing.None? {
        Send(CreateIp(id, x.key, interface));
      } else if id in nb.ips && nb.ips[id].owner == FREE {
        Send(AssignIp(id, interface));
      }
    }

    /** The address loop of one NIC, with the growing `applied_ips`. */
    method WriteIps(n: NicContext, interface: nat, before: map<IpKey, nat>) returns (applied: map<IpKey, nat>)
      modifies this
      ensures applied == Record(ids, before, n.ips)
      ensures Did(old(nb), old(log), IpStepsOf(ids, interface, n.ips), nb, log)
    {
      hide Did;
      applied := before;
      DidNothing(nb, log);
      assert IpStepsOf(ids, interface, n.ips[..0]) == [];
      for i := 0 to |n.ips|
        invariant applied == Record(ids, before, n.ips[..i])
        invariant Did(old(nb), old(log), IpStepsOf(ids, interface, n.ips[..i]), nb, log)
      {
        ghost var nb1, log1 := nb, log;
        var id := WriteIp(n.ips[i], interface);
        DidThen(old(nb), old(log), IpStepsOf(ids, interface, n.ips[..i]), nb1, log1,
          [IpStepOf(ids, interface, n.ips[i])], nb, log);
        assert n.ips[..i + 1][..i] == n.ips[..i];
        assert IpStepsOf(ids, interface, n.ips[..i + 1]) ==
               IpStepsOf(ids, interface, n.ips[..i]) + [IpStepOf(ids, interface, n.ips[i])];
        applied := applied[n.ips[i].key := id];
      }
      assert n.ips[..|n.ips|] == n.ips;
    }

    /** `_write_primary`: skipped while the provider owns the address, or when the candidate was not applied. */
    method WritePrimary(ctx: ContainerContext, applied: map<IpKey, nat>)
      requires applied == AppliedIps(ids, ctx.nics)
      modifies this
      ensures Did(old(nb), old(log), PrimaryStepsOf(old(nb).vms, ids, ctx), nb, log)
    {
      hide Did, After;
      DidNothing(nb, log);
      if ctx.vm in nb.vms && nb.vms[ctx.vm].primaryOwned {
        return;
      }
      if ctx.candidate.Some? && ctx.candidate.value in applied {
        var ip := applied[ctx.candidate.value];
        DidOne(nb, log, EnsurePrimary(ctx.vm, ip));
        if ctx.vm !in nb.primaryIp || nb.primaryIp[ctx.vm] != ip {
          Send(SetPrimaryIp(ctx.vm, ip));
        }
      }
    }

    method WriteNic(vm: nat, c: Container, n: NicContext, before: map<IpKey, nat>) returns (applied: map<IpKey, nat>)
      modifies this
      ensures applied == Record(ids, before, n.ips)
      ensures Did(old(nb), old(log), NicStepsOf(ids, vm, c, n), nb, log)
    {
      hide Did, Record;
      var interface := WriteInterface(vm, c, n);
      ghost var nb1, log1 := nb, log;
      WriteMac(c, n, interface);
      DidThen(old(nb), old(log), [InterfaceStepOf(ids, vm, c, n)], nb1, log1, MacStepsOf(ids, c, n), nb, log);
      ghost var nb2, log2 := nb, log;
      applied := WriteIps(n, interface, before);
      DidThen(old(nb), old(log), [InterfaceStepOf(ids, vm, c, n)] + MacStepsOf(ids, c, n), nb2, log2,
              IpStepsOf(ids, interface, n.ips), nb, log);
    }

    /** One container: its NICs in order, then the primary address. */
    method WriteContext(ctx: ContainerContext)
      modifies this
      ensures Did(old(nb), old(log), ContextSteps(old(nb).vms, ids, ctx), nb, log)
      ensures nb.vms == old(nb).vms
    {
      hide Did, Record, NicStepsOf, PrimaryStepsOf;
      var applied: map<IpKey, nat> := map[];
      DidNothing(nb, log);
      for i := 0 to |ctx.nics|
        invariant applied == AppliedIps(ids, ctx.nics[..i])
        invariant Did(old(nb), old(log), NicsStepsOf(ids, ctx.vm, ctx.c, ctx.nics[..i]), nb, log)
      {
        ghost var nb1, log1 := nb, log;
        applied := WriteNic(ctx.vm, ctx.c, ctx.nics[i], applied);
        DidThen(old(nb), old(log), NicsStepsOf(ids, ctx.vm, ctx.c, ctx.nics[..i]), nb1, log1,
                NicStepsOf(ids, ctx.vm, ctx.c, ctx.nics[i]), nb, log);
        assert ctx.nics[..i + 1][..i] == ctx.nics[..i];
      }
      assert ctx.nics[..|ctx.nics|] == ctx.nics;
      DidKeepsVms(old(nb), old(log), NicsStepsOf(ids, ctx.vm, ctx.c, ctx.nics), nb, log);
      ghost var nb2, log2 := nb, log;
      WritePrimary(ctx, applied);
      DidKeepsVms(nb2, log2, PrimaryStepsOf(old(nb).vms, ids, ctx), nb, log);
      DidThen(old(nb), old(log), NicsStepsOf(ids, ctx.vm, ctx.c, ctx.nics), nb2, log2,
        PrimaryStepsOf(old(nb).vms, ids, ctx), nb, log);
    }

    /** `write_lxc_networks`. */
    method WriteNetworks(ctxs: seq<ContainerContext>)
      modifies this
      ensures Did(old(nb), old(log), AllSteps(old(nb).vms, ids, ctxs), nb, log)
    {
      hide Did, ContextSteps;
      DidNothing(nb, log);
      for i := 0 to |ctxs|
        invariant Did(old(nb), old(log), AllSteps(old(nb).vms, ids, ctxs[..i]), nb, log) && nb.vms == old(nb).vms
      {
        ghost var nb1, log1 := nb, log;
        WriteContext(ctxs[i]);
        DidThen(old(nb), old(log), AllSteps(old(nb).vms, ids, ctxs[..i]), nb1, log1,
          ContextSteps(old(nb).vms, ids, ctxs[i]), nb, log);
        assert ctxs[..i + 1][..i] == ctxs[..i];
      }
      assert ctxs[..|ctxs|] == ctxs;
    }

    /**
     Inventory, preflight and writes of one batch: a refused batch writes nothing, an accepted one
     performs exactly the specified steps.
     */
    method ApplyNetworks(l: Listing, cluster: nat, cs: seq<Container>) returns (ok: bool)
      requires Lists(nb, l)
      modifies this
      ensures ok <==> Passes(old(nb), cluster, cs)
      ensures !ok ==> nb == old(nb) && log == old(log)
      ensures ok ==> nb == Run(old(nb), Steps(old(nb), ids, cluster, cs))
      ensures ok ==> log == old(log) + Log(old(nb), Steps(old(nb), ids, cluster, cs))
    {
      hide Lists, Indexes, ContainerPasses, Describes, NoRepeats, Jobs, Discovered, DiscoveredIps, AllSteps, Steps;
      var inv := PrepareInventory(nb, l);
      var passed, ctxs := Prepare(nb, inv, cluster, cs);
      if passed {
        AllStepsAgree(nb, ids, cluster, cs, ctxs);
        WriteNetworks(ctxs);
      }
      ok := passed;
    }
  }

  lemma DidKeepsVms(nb: NetBox, log: seq<Write>, steps: seq<Step>, nb': NetBox, log': seq<Write>)
    requires Did(nb, log, steps, nb', log')
    ensures nb'.vms == nb.vms
  {
    RunKeepsVms(nb, steps);
  }
}
