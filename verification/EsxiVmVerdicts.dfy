/**
 What becomes of a machine's id, stated on the machines and the recorded keys instead of on counters and
 dictionaries.
 */
module EsxiVmVerdicts {
  import opened Wrappers
  import opened SourceIdentities
  import opened EsxiVmIdentity

  // ------------------------------------------------------------------ evidence

  predicate OtherHasInst(vms: seq<Vm>, i: nat)
    requires i < |vms|
  {
    exists j :: 0 <= j < |vms| && j != i && vms[j].inst == vms[i].inst
  }

  predicate OtherHasBios(vms: seq<Vm>, i: nat)
    requires i < |vms|
  {
    exists j :: 0 <= j < |vms| && j != i && vms[j].bios == vms[i].bios
  }

  predicate OtherHasProvider(vms: seq<Vm>, i: nat)
    requires i < |vms|
  {
    exists j :: 0 <= j < |vms| && j != i && vms[j].provider == vms[i].provider
  }

  /** Some record of the source carries the id. */
  predicate Taken(rs: seq<Record>, inst: string, id: Option<string>) {
    id.Some? && exists r :: r in rs && V2(SourceIdentity("esxi", inst, "vm", id.value)) in r.identities
  }

  /** Exactly one record id carries the key. */
  ghost predicate SoleOwner(rs: seq<Record>, inst: string, key: string) {
    (exists id: nat :: Recorded(rs, inst, id, key))
    && forall a: nat, b: nat :: Recorded(rs, inst, a, key) && Recorded(rs, inst, b, key) ==> a == b
  }

  /** A recorded key that was built for this BIOS UUID. */
  predicate KeyFor(rs: seq<Record>, inst: string, bios: Option<string>, key: string) {
    Taken(rs, inst, Some(key)) && ParseKey(key).Key? && bios == Some(ParseKey(key).bios)
  }

  ghost predicate HasKey(rs: seq<Record>, inst: string, bios: Option<string>) {
    exists key :: KeyFor(rs, inst, bios, key)
  }

  ghost predicate SoleKey(rs: seq<Record>, inst: string, bios: Option<string>, key: string) {
    KeyFor(rs, inst, bios, key) && forall k :: KeyFor(rs, inst, bios, k) ==> k == key
  }

  /** Some recorded key was built from this instance UUID. */
  ghost predicate Historic(rs: seq<Record>, inst: string, x: string) {
    exists key :: Taken(rs, inst, Some(key)) && ParseKey(key).Key? && ParseKey(key).inst == x
  }

  // ------------------------------------------------------------------- verdicts

  /** A machine with an instance UUID. */
  ghost predicate InstanceIs(vms: seq<Vm>, rs: seq<Record>, inst: string, i: nat, d: Verdict)
    requires i < |vms| && vms[i].inst.Some?
  {
    var v := vms[i];
    var own := Taken(rs, inst, v.inst);
    var keyed := HasKey(rs, inst, v.bios);
    if !OtherHasInst(vms, i) && !keyed then
      // alone and never keyed: its instance UUID stays, unless a record knows it under something else
      d == if || Historic(rs, inst, v.inst.value)
              || (v.bios != v.inst && Taken(rs, inst, v.bios) && !own)
              || (v.provider != v.inst && Taken(rs, inst, v.provider))
           then Blocked else Keep
    else if own || v.bios.None? || OtherHasBios(vms, i) || Taken(rs, inst, v.bios) || Taken(rs, inst, v.provider) then
      d == Blocked
    else if keyed then
      if exists key :: SoleKey(rs, inst, v.bios, key) && SoleOwner(rs, inst, key)
      then exists key :: SoleKey(rs, inst, v.bios, key) && SoleOwner(rs, inst, key) && d == Assign(key)
      else d == Blocked
    else d == Assign("esxi-bios-v1/" + v.inst.value + "/" + v.bios.value)
  }

  /** A machine that lost its instance UUID. */
  ghost predicate FallbackIs(vms: seq<Vm>, rs: seq<Record>, inst: string, i: nat, d: Verdict)
    requires i < |vms| && vms[i].inst.None?
  {
    var v := vms[i];
    var known := v.provider == Some(v.externalId) && !OtherHasProvider(vms, i) && SoleOwner(rs, inst, v.externalId);
    if v.bios.None? && (exists bios :: HasKey(rs, inst, bios)) && !known then d == Blocked
    else if v.provider != Some(v.externalId) && Taken(rs, inst, v.provider) then d == Blocked
    else if !HasKey(rs, inst, v.bios) then d == Keep
    else if OtherHasBios(vms, i) || Taken(rs, inst, v.bios) then d == Blocked
    else if exists key :: SoleKey(rs, inst, v.bios, key) && SoleOwner(rs, inst, key)
      then exists key :: SoleKey(rs, inst, v.bios, key) && SoleOwner(rs, inst, key) && d == Assign(key)
    else d == Blocked
  }

  // ------------------------------------------------- counters and dictionaries

  lemma {:induction false} CountInstIs(vms: seq<Vm>, x: string)
    ensures CountInst(vms, x) > 0 <==> exists i :: 0 <= i < |vms| && vms[i].inst == Some(x)
    ensures CountInst(vms, x) > 1 <==>
            exists i, j :: 0 <= i < j < |vms| && vms[i].inst == Some(x) && vms[j].inst == Some(x)
  {
    if vms != [] {
      var init := vms[..|vms| - 1];
      CountInstIs(init, x);
      assert forall i :: 0 <= i < |init| ==> init[i] == vms[i];
    }
  }

  lemma {:induction false} CountBiosIs(vms: seq<Vm>, x: string)
    ensures CountBios(vms, x) > 0 <==> exists i :: 0 <= i < |vms| && vms[i].bios == Some(x)
    ensures CountBios(vms, x) > 1 <==>
            exists i, j :: 0 <= i < j < |vms| && vms[i].bios == Some(x) && vms[j].bios == Some(x)
  {
    if vms != [] {
      var init := vms[..|vms| - 1];
      CountBiosIs(init, x);
      assert forall i :: 0 <= i < |init| ==> init[i] == vms[i];
    }
  }

  lemma {:induction false} CountProviderIs(vms: seq<Vm>, x: string)
    ensures CountProvider(vms, x) > 0 <==> exists i :: 0 <= i < |vms| && vms[i].provider == Some(x)
    ensures CountProvider(vms, x) > 1 <==>
            exists i, j :: 0 <= i < j < |vms| && vms[i].provider == Some(x) && vms[j].provider == Some(x)
  {
    if vms != [] {
      var init := vms[..|vms| - 1];
      CountProviderIs(init, x);
      assert forall i :: 0 <= i < |init| ==> init[i] == vms[i];
    }
  }

  lemma CountsAre(vms: seq<Vm>, i: nat)
    requires i < |vms|
    ensures vms[i].inst.Some? ==> (CountInst(vms, vms[i].inst.value) > 1 <==> OtherHasInst(vms, i))
    ensures vms[i].bios.Some? ==> (CountBios(vms, vms[i].bios.value) == 1 <==> !OtherHasBios(vms, i))
    ensures vms[i].provider.Some? ==> (CountProvider(vms, vms[i].provider.value) == 1 <==> !OtherHasProvider(vms, i))
  {
    var v := vms[i];
    if v.inst.Some? {
      CountInstIs(vms, v.inst.value);
    }
    if v.bios.Some? {
      CountBiosIs(vms, v.bios.value);
    }
    if v.provider.Some? {
      CountProviderIs(vms, v.provider.value);
    }
  }

  lemma OwnersAre(rs: seq<Record>, inst: string, o: Owned, key: string)
    requires Describes(rs, inst, o)
    ensures At(o.owners, key) != {} <==> Taken(rs, inst, Some(key))
    ensures |At(o.owners, key)| == 1 <==> SoleOwner(rs, inst, key)
  {
    hide ParseKey, At;
    var ids := At(o.owners, key);
    if r :| r in rs && V2(SourceIdentity("esxi", inst, "vm", key)) in r.identities {
      assert Recorded(rs, inst, r.id, key) && r.id in ids;
    }
    if ids != {} {
      var id :| id in ids;
      assert Recorded(rs, inst, id, key);
      if |ids| == 1 {
        Singleton(ids, id);
        forall x: nat | Recorded(rs, inst, x, key)
          ensures x == id
        {
          assert x in ids;
        }
      }
      if forall x :: x in ids ==> x == id {
        assert ids == {id};
      }
    }
  }

  lemma Singleton<T>(s: set<T>, x: T)
    requires x in s && |s| == 1
    ensures s == {x}
  {
    assert |s - {x}| == 0;
  }

  lemma KeysAre(rs: seq<Record>, inst: string, o: Owned, bios: Option<string>)
    requires Describes(rs, inst, o)
    ensures forall key :: key in AtOption(o.tagged, bios) <==> KeyFor(rs, inst, bios, key)
    ensures AtOption(o.tagged, bios) != {} <==> HasKey(rs, inst, bios)
    ensures |AtOption(o.tagged, bios)| == 1 <==> exists key :: SoleKey(rs, inst, bios, key)
    ensures forall key :: SoleKey(rs, inst, bios, key) ==> AtOption(o.tagged, bios) == {key}
  {
    hide ParseKey, At;
    var keys := AtOption(o.tagged, bios);
    forall key
      ensures key in keys <==> KeyFor(rs, inst, bios, key)
    {
      assert RecordedKey(rs, inst, key) <==> Taken(rs, inst, Some(key));
    }
    if keys != {} {
      var key :| key in keys;
      if |keys| == 1 {
        Singleton(keys, key);
        assert SoleKey(rs, inst, bios, key);
      }
    }
    forall key | SoleKey(rs, inst, bios, key)
      ensures keys == {key}
    {
      assert key in keys;
    }
  }

  lemma HistoricIs(rs: seq<Record>, inst: string, o: Owned, x: string)
    requires Describes(rs, inst, o)
    ensures At(o.historical, x) != {} <==> Historic(rs, inst, x)
  {
    hide ParseKey, At;
    assert forall key :: RecordedKey(rs, inst, key) <==> Taken(rs, inst, Some(key));
    if key :| Taken(rs, inst, Some(key)) && ParseKey(key).Key? && ParseKey(key).inst == x {
      assert key in At(o.historical, x);
    }
    if At(o.historical, x) != {} {
      var key :| key in At(o.historical, x);
      assert Taken(rs, inst, Some(key));
    }
  }

  lemma AnyKey(rs: seq<Record>, inst: string, o: Owned)
    requires Describes(rs, inst, o)
    ensures o.tagged != map[] <==> exists bios :: HasKey(rs, inst, bios)
  {
    hide ParseKey;
    if bios :| bios in o.tagged {
      KeysAre(rs, inst, o, Some(bios));
      assert HasKey(rs, inst, Some(bios));
    }
    if bios :| HasKey(rs, inst, bios) {
      KeysAre(rs, inst, o, bios);
      assert bios.value in o.tagged;
    }
    assert o.tagged != map[] <==> exists bios :: bios in o.tagged;
  }

  lemma TakenOption(rs: seq<Record>, inst: string, o: Owned, id: Option<string>)
    requires Describes(rs, inst, o)
    ensures AtOption(o.owners, id) != {} <==> Taken(rs, inst, id)
  {
    hide Describes;
    if id.Some? {
      OwnersAre(rs, inst, o, id.value);
    }
  }

  /** The key that the code picks from a set of one. */
  lemma PickedKey(rs: seq<Record>, inst: string, o: Owned, bios: Option<string>)
    requires Describes(rs, inst, o) && |AtOption(o.tagged, bios)| == 1
    ensures SoleKey(rs, inst, bios, TheKey(AtOption(o.tagged, bios)))
    ensures |At(o.owners, TheKey(AtOption(o.tagged, bios)))| == 1 <==>
            exists key :: SoleKey(rs, inst, bios, key) && SoleOwner(rs, inst, key)
  {
    hide Describes, SoleOwner, At;
    KeysAre(rs, inst, o, bios);
    var picked := TheKey(AtOption(o.tagged, bios));
    var key :| SoleKey(rs, inst, bios, key);
    assert AtOption(o.tagged, bios) == {key} && picked in {key};
    OwnersAre(rs, inst, o, picked);
  }

  /** The verdict on a machine with an instance UUID, over all machines and all records. */
  lemma InstanceVerdictIs(vms: seq<Vm>, rs: seq<Record>, inst: string, o: Owned, i: nat)
    requires Describes(rs, inst, o) && i < |vms| && vms[i].inst.Some?
    ensures InstanceIs(vms, rs, inst, i, VerdictOf(vms, o, vms[i]))
  {
    hide Describes, CountInst, CountBios, Taken, SoleOwner, SoleKey, HasKey, Historic, OtherHasInst, OtherHasBios, At,
         AtOption, TheKey, KeyFor;
    var v := vms[i];
    CountsAre(vms, i);
    OwnersAre(rs, inst, o, v.inst.value);
    TakenOption(rs, inst, o, v.bios);
    TakenOption(rs, inst, o, v.provider);
    KeysAre(rs, inst, o, v.bios);
    HistoricIs(rs, inst, o, v.inst.value);
    KeylessIs(rs, inst, v.bios);
    if |AtOption(o.tagged, v.bios)| == 1 {
      PickedKey(rs, inst, o, v.bios);
    }
    assert Some(v.inst.value) == v.inst;
  }

  lemma KeylessIs(rs: seq<Record>, inst: string, bios: Option<string>)
    ensures (exists key :: SoleKey(rs, inst, bios, key)) ==> HasKey(rs, inst, bios)
    ensures bios.None? ==> !HasKey(rs, inst, bios)
  {
  }

  /** The verdict on a machine that lost its instance UUID. */
  lemma FallbackVerdictIs(vms: seq<Vm>, rs: seq<Record>, inst: string, o: Owned, i: nat)
    requires Describes(rs, inst, o) && i < |vms| && vms[i].inst.None?
    ensures FallbackIs(vms, rs, inst, i, VerdictOf(vms, o, vms[i]))
  {
    hide Describes, CountProvider, CountBios, Taken, SoleOwner, SoleKey, HasKey, OtherHasProvider, OtherHasBios, At,
         AtOption, TheKey, KeyFor;
    var v := vms[i];
    CountsAre(vms, i);
    OwnersAre(rs, inst, o, v.externalId);
    TakenOption(rs, inst, o, v.bios);
    TakenOption(rs, inst, o, v.provider);
    KeysAre(rs, inst, o, v.bios);
    AnyKey(rs, inst, o);
    KeylessIs(rs, inst, v.bios);
    if v.bios.Some? {
      OwnersAre(rs, inst, o, v.bios.value);
      assert Some(v.bios.value) == v.bios;
    }
    if |AtOption(o.tagged, v.bios)| == 1 {
      PickedKey(rs, inst, o, v.bios);
    }
  }

  /** Machines that share an instance UUID must be told apart by their BIOS UUID. */
  lemma IndistinctIs(vms: seq<Vm>, i: nat)
    requires i < |vms|
    ensures Indistinct(vms, vms[i]) <==>
            vms[i].inst.Some? && OtherHasInst(vms, i) && (vms[i].bios.None? || OtherHasBios(vms, i))
  {
    hide CountInst, CountBios, OtherHasInst, OtherHasBios;
    CountsAre(vms, i);
  }
}
