/** Resolution of duplicate ESXi UUIDs without rewriting an ownership key that is already recorded. */
module EsxiVmIdentity {
  import opened Wrappers
  import opened SourceIdentities

  const PREFIX := "esxi-bios-v1/"

  predicate LowerHex(c: char) {
    '0' <= c <= '9' || 'a' <= c <= 'f'
  }

  predicate DashAt(i: nat) {
    i == 8 || i == 13 || i == 18 || i == 23
  }

  /** Canonical non-zero UUID text. */
  predicate IsUuid(s: string) {
    && |s| == 36
    && (forall i :: 0 <= i < 36 ==> if DashAt(i) then s[i] == '-' else LowerHex(s[i]))
    && exists i :: 0 <= i < 36 && !DashAt(i) && s[i] != '0'
  }

  function BiosKey(inst: string, bios: string): string {
    PREFIX + inst + "/" + bios
  }

  datatype Parsed = NotKey | BadKey | Key(inst: string, bios: string)

  /** `parse_key`; `BadKey` is its `ValueError`. Canonical parts contain no slash, so the split is at a fixed place. */
  function ParseKey(v: string): Parsed {
    if !(PREFIX <= v) then NotKey
    else
      var rest := v[|PREFIX|..];
      if |rest| == 73 && rest[36] == '/' && IsUuid(rest[..36]) && IsUuid(rest[37..]) then Key(rest[..36], rest[37..])
        else BadKey
  }

  /** Keys and their parts determine each other. */
  lemma KeyRoundTrip(v: string, inst: string, bios: string)
    requires IsUuid(inst) && IsUuid(bios)
    ensures ParseKey(v) == Key(inst, bios) <==> v == BiosKey(inst, bios)
  {
    hide IsUuid;
    assert |inst| == 36 && |bios| == 36 by { UuidLength(inst); UuidLength(bios); }
    if v == BiosKey(inst, bios) {
      assert v[|PREFIX|..] == inst + "/" + bios;
      assert (inst + "/" + bios)[..36] == inst && (inst + "/" + bios)[37..] == bios && (inst + "/" + bios)[36] == '/';
    }
    if ParseKey(v) == Key(inst, bios) {
      var rest := v[|PREFIX|..];
      assert v == PREFIX + rest && rest == rest[..36] + [rest[36]] + rest[37..];
    }
  }

  lemma LowerHexIs(c: char)
    ensures LowerHex(c) <==> c in "0123456789abcdef"
  {
  }

  predicate AllLowerHex(s: string) {
    forall i :: 0 <= i < |s| ==> LowerHex(s[i])
  }

  /** Where a digit stands in the text with dashes. */
  function Place(i: nat): nat {
    if i < 8 then i else if i < 12 then i + 1 else if i < 16 then i + 2 else if i < 20 then i + 3 else i + 4
  }

  /** `s` has the digits at their places, and dashes between. */
  predicate Placed(all: string, s: string) {
    && |all| == 32 && |s| == 36 && s[8] == '-' && s[13] == '-' && s[18] == '-' && s[23] == '-'
    && forall i :: 0 <= i < 32 ==> s[Place(i)] == all[i]
  }

  lemma PlaceOf(k: nat)
    requires k < 36 && !DashAt(k)
    ensures exists i :: 0 <= i < 32 && Place(i) == k
  {
    var i := if k < 8 then k else if k < 13 then k - 1 else if k < 18 then k - 2 else if k < 23 then k - 3 else k - 4;
    assert Place(i) == k;
  }

  lemma PlacedUuid(all: string, s: string)
    requires Placed(all, s)
    ensures IsUuid(s) <==> AllLowerHex(all) && exists i :: 0 <= i < 32 && all[i] != '0'
  {
    hide LowerHex, Place;
    forall k: nat | k < 36 && !DashAt(k)
      ensures exists i :: 0 <= i < 32 && Place(i) == k
    {
      PlaceOf(k);
    }
    forall i: nat | i < 32
      ensures Place(i) < 36 && !DashAt(Place(i))
    {
      PlaceIsDigit(i);
    }
    if i :| 0 <= i < 32 && all[i] != '0' {
      assert s[Place(i)] != '0';
    }
  }

  lemma PlaceIsDigit(i: nat)
    requires i < 32
    ensures Place(i) < 36 && !DashAt(Place(i))
  {
  }

  lemma Dashed(a: string, b: string, c: string, d: string, e: string)
    requires |a| == 8 && |b| == 4 && |c| == 4 && |d| == 4 && |e| == 12
    ensures Placed(a + b + c + d + e, a + "-" + b + "-" + c + "-" + d + "-" + e)
  {
    var s, all := a + "-" + b + "-" + c + "-" + d + "-" + e, a + b + c + d + e;
    assert forall i :: 0 <= i < 8 ==> all[i] == s[i];
    assert forall i :: 8 <= i < 12 ==> all[i] == s[i + 1];
    assert forall i :: 12 <= i < 16 ==> all[i] == s[i + 2];
    assert forall i :: 16 <= i < 20 ==> all[i] == s[i + 3];
    assert forall i :: 20 <= i < 32 ==> all[i] == s[i + 4];
  }

  /** A UUID is five groups of 8, 4, 4, 4 and 12 digits joined by dashes, not all of them zero. */
  lemma UuidIs(a: string, b: string, c: string, d: string, e: string)
    requires |a| == 8 && |b| == 4 && |c| == 4 && |d| == 4 && |e| == 12
    ensures IsUuid(a + "-" + b + "-" + c + "-" + d + "-" + e) <==>
            AllLowerHex(a + b + c + d + e) && exists i :: 0 <= i < 32 && (a + b + c + d + e)[i] != '0'
  {
    hide IsUuid, AllLowerHex, Placed;
    Dashed(a, b, c, d, e);
    PlacedUuid(a + b + c + d + e, a + "-" + b + "-" + c + "-" + d + "-" + e);
  }

  /** A key is the prefix and two UUIDs; other text with the prefix is malformed, and all other text is no key. */
  lemma ParseKeyIs(v: string)
    ensures ParseKey(v).Key? <==> exists inst, bios :: IsUuid(inst) && IsUuid(bios) && v == BiosKey(inst, bios)
    ensures ParseKey(v).Key? ==>
              IsUuid(ParseKey(v).inst) && IsUuid(ParseKey(v).bios) && v == BiosKey(ParseKey(v).inst, ParseKey(v).bios)
    ensures ParseKey(v).NotKey? <==> !(PREFIX <= v)
  {
    hide IsUuid;
    if inst, bios :| IsUuid(inst) && IsUuid(bios) && v == BiosKey(inst, bios) {
      KeyRoundTrip(v, inst, bios);
    }
    if ParseKey(v).Key? {
      KeyRoundTrip(v, ParseKey(v).inst, ParseKey(v).bios);
    }
  }

  lemma UuidLength(s: string)
    requires IsUuid(s)
    ensures |s| == 36
  {
  }

  /** A plain UUID is never a key. */
  lemma UuidIsNotKey(s: string)
    requires IsUuid(s)
    ensures !(PREFIX <= s)
  {
    assert PREFIX[1] == 's' && LowerHex(s[1]) && !LowerHex('s');
  }

  // ---------------------------------------------------------------- inventory

  datatype Vm = Vm(externalId: string, inst: Option<string>, bios: Option<string>, provider: Option<string>)

  datatype Record = Record(id: nat, identities: seq<Entry>)

  /** The keys recorded for this source: owners of each, and the keys naming a BIOS or an original instance. */
  datatype Owned = Owned(owners: map<string, set<nat>>, tagged: map<string, set<string>>,
      historical: map<string, set<string>>)

  function At<V>(m: map<string, set<V>>, k: string): set<V> {
    if k in m then m[k] else {}
  }

  function AtOption<V>(m: map<string, set<V>>, k: Option<string>): set<V> {
    if k.Some? then At(m, k.value) else {}
  }

  predicate Recorded(rs: seq<Record>, inst: string, id: nat, key: string) {
    exists r :: r in rs && r.id == id && V2(SourceIdentity("esxi", inst, "vm", key)) in r.identities
  }

  predicate RecordedKey(rs: seq<Record>, inst: string, key: string) {
    exists r :: r in rs && V2(SourceIdentity("esxi", inst, "vm", key)) in r.identities
  }

  /** The three dictionaries say exactly what the records say. */
  ghost predicate Describes(rs: seq<Record>, inst: string, o: Owned) {
    && (forall key, id: nat {:trigger id in At(o.owners, key)} :: id in At(o.owners, key) <==>
      Recorded(rs, inst, id, key))
    && (forall bios, key {:trigger key in At(o.tagged, bios)} :: key in At(o.tagged, bios) <==>
          RecordedKey(rs, inst, key) && ParseKey(key).Key? && ParseKey(key).bios == bios)
    && (forall orig, key {:trigger key in At(o.historical, orig)} :: key in At(o.historical, orig) <==>
          RecordedKey(rs, inst, key) && ParseKey(key).Key? && ParseKey(key).inst == orig)
    && (forall bios :: bios in o.tagged ==> o.tagged[bios] != {})
  }

  function CountInst(vms: seq<Vm>, x: string): nat {
    if vms == [] then 0 else CountInst(vms[..|vms| - 1], x) + (if vms[|vms| - 1].inst == Some(x) then 1 else 0)
  }

  function CountBios(vms: seq<Vm>, x: string): nat {
    if vms == [] then 0 else CountBios(vms[..|vms| - 1], x) + (if vms[|vms| - 1].bios == Some(x) then 1 else 0)
  }

  function CountProvider(vms: seq<Vm>, x: string): nat {
    if vms == [] then 0 else CountProvider(vms[..|vms| - 1], x) + (if vms[|vms| - 1].provider == Some(x) then 1 else 0)
  }

  // ----------------------------------------------------------------- verdicts

  datatype Verdict = Blocked | Keep | Assign(key: string)

  function TheKey(keys: set<string>): string
    requires |keys| == 1
  {
    OnlyOne(keys);
    var k :| k in keys; k
  }

  lemma OnlyOne(keys: set<string>)
    requires |keys| == 1
    ensures exists k :: keys == {k}
    ensures forall a, b :: a in keys && b in keys ==> a == b
  {
    var k :| k in keys;
    assert |keys - {k}| == 0;
    assert keys == {k};
  }

  /** A machine with an instance UUID. */
  function InstanceVerdict(vms: seq<Vm>, o: Owned, v: Vm): Verdict
    requires v.inst.Some?
  {
    var inst := v.inst.value;
    var shared := CountInst(vms, inst) > 1;
    var persisted := AtOption(o.tagged, v.bios);
    if shared && At(o.owners, inst) != {} then Blocked
    else if !shared && persisted == {} then
      if || At(o.historical, inst) != {}
         || (v.bios != v.inst && AtOption(o.owners, v.bios) != {} && At(o.owners, inst) == {})
         || (v.provider != v.inst && AtOption(o.owners, v.provider) != {})
      then Blocked else Keep
    else if v.bios.None? || CountBios(vms, v.bios.value) != 1 || |persisted| > 1 then Blocked
    else if persisted != {} && (|persisted| != 1 || |At(o.owners, TheKey(persisted))| != 1 || At(o.owners, inst) != {})
      then Blocked
    else if AtOption(o.owners, v.bios) != {} || AtOption(o.owners, v.provider) != {} then Blocked
    else Assign(if |persisted| == 1 then TheKey(persisted) else BiosKey(inst, v.bios.value))
  }

  predicate ExistingFallback(vms: seq<Vm>, o: Owned, v: Vm) {
    && v.provider == Some(v.externalId)
    && CountProvider(vms, v.externalId) == 1
    && |At(o.owners, v.externalId)| == 1
  }

  /** A machine that lost its instance UUID. */
  function FallbackVerdict(vms: seq<Vm>, o: Owned, v: Vm): Verdict
    requires v.inst.None?
  {
    var keys := AtOption(o.tagged, v.bios);
    if v.bios.None? && o.tagged != map[] && !ExistingFallback(vms, o, v) then Blocked
    else if v.provider != Some(v.externalId) && AtOption(o.owners, v.provider) != {} then Blocked
    else if v.bios.None? || keys == {} then Keep
    else if CountBios(vms, v.bios.value) != 1 || |keys| != 1 || |At(o.owners, TheKey(keys))| != 1
      || At(o.owners, v.bios.value) != {} then Blocked
    else Assign(TheKey(keys))
  }

  function VerdictOf(vms: seq<Vm>, o: Owned, v: Vm): Verdict {
    if v.inst.Some? then InstanceVerdict(vms, o, v) else FallbackVerdict(vms, o, v)
  }

  /** A shared instance UUID whose members cannot be told apart by BIOS. */
  predicate Indistinct(vms: seq<Vm>, v: Vm) {
    v.inst.Some? && CountInst(vms, v.inst.value) > 1 && (v.bios.None? || CountBios(vms, v.bios.value) != 1)
  }

  predicate NoConflict(vms: seq<Vm>, o: Owned) {
    forall v :: v in vms ==> !Indistinct(vms, v) && VerdictOf(vms, o, v) != Blocked
  }

  function NewId(vms: seq<Vm>, o: Owned, v: Vm): string {
    var d := VerdictOf(vms, o, v);
    if d.Assign? then d.key else v.externalId
  }

  /** Discovery uses the instance UUID as the id whenever there is one, and UUIDs are canonical. */
  predicate Discovered(v: Vm) {
    && (v.inst.Some? ==> v.externalId == v.inst.value && IsUuid(v.inst.value))
    && (v.bios.Some? ==> IsUuid(v.bios.value))
    && (v.provider.Some? ==> v.provider.value != "")
  }

  // ---------------------------------------------------------------- theorems

  lemma {:induction false} CountBiosOnce(vms: seq<Vm>, x: string, i: nat, j: nat)
    requires i < j < |vms| && vms[i].bios == Some(x) && vms[j].bios == Some(x)
    ensures CountBios(vms, x) > 1
  {
    if j == |vms| - 1 {
      CountBiosHas(vms[..j], x, i);
    } else {
      CountBiosOnce(vms[..|vms| - 1], x, i, j);
    }
  }

  lemma {:induction false} CountBiosHas(vms: seq<Vm>, x: string, i: nat)
    requires i < |vms| && vms[i].bios == Some(x)
    ensures CountBios(vms, x) > 0
  {
    if i < |vms| - 1 {
      CountBiosHas(vms[..|vms| - 1], x, i);
    }
  }

  lemma {:induction false} CountInstHas(vms: seq<Vm>, x: string, i: nat)
    requires i < |vms| && vms[i].inst == Some(x)
    ensures CountInst(vms, x) > 0
  {
    if i < |vms| - 1 {
      CountInstHas(vms[..|vms| - 1], x, i);
    }
  }

  lemma {:induction false} CountInstTwice(vms: seq<Vm>, x: string, i: nat, j: nat)
    requires i < j < |vms| && vms[i].inst == Some(x) && vms[j].inst == Some(x)
    ensures CountInst(vms, x) > 1
  {
    if j == |vms| - 1 {
      CountInstHas(vms[..j], x, i);
    } else {
      CountInstTwice(vms[..|vms| - 1], x, i, j);
    }
  }

  /** An assigned key names the machine's own BIOS, which no other machine has. */
  lemma AssignedNamesBios(vms: seq<Vm>, rs: seq<Record>, inst: string, o: Owned, v: Vm)
    requires Describes(rs, inst, o) && Discovered(v) && VerdictOf(vms, o, v).Assign?
    ensures v.bios.Some? && CountBios(vms, v.bios.value) == 1
    ensures var k := ParseKey(VerdictOf(vms, o, v).key); k.Key? && k.bios == v.bios.value
  {
    hide CountBios, CountInst, CountProvider, IsUuid, RecordedKey, Recorded, ParseKey, BiosKey;
    var keys := AtOption(o.tagged, v.bios);
    if |keys| == 1 {
      assert TheKey(keys) in keys;
    } else {
      assert v.inst.Some?;
      KeyRoundTrip(BiosKey(v.inst.value, v.bios.value), v.inst.value, v.bios.value);
    }
  }

  /**
   Key continuity: without a conflict, a machine whose BIOS UUID occurs in a recorded key receives
   exactly that key, the only one naming the BIOS, and exactly one record owns it.
   */
  lemma RecordedKeyIsKept(vms: seq<Vm>, rs: seq<Record>, inst: string, o: Owned, v: Vm, key: string)
    requires Describes(rs, inst, o) && NoConflict(vms, o) && v in vms && Discovered(v)
    requires RecordedKey(rs, inst, key) && ParseKey(key).Key? && v.bios == Some(ParseKey(key).bios)
    ensures NewId(vms, o, v) == key
    ensures At(o.tagged, v.bios.value) == {key}
    ensures |At(o.owners, key)| == 1
  {
    hide CountBios, CountInst, CountProvider, IsUuid, RecordedKey, Recorded, ParseKey;
    var persisted := At(o.tagged, v.bios.value);
    assert key in persisted;
    assert VerdictOf(vms, o, v) != Blocked;
    assert |persisted| == 1;
    OnlyOne(persisted);
    assert TheKey(persisted) in persisted;
  }

  /** Each assigned key goes to one machine. */
  lemma AssignedKeysAreDistinct(vms: seq<Vm>, rs: seq<Record>, inst: string, o: Owned, i: nat, j: nat)
    requires Describes(rs, inst, o) && i < j < |vms| && Discovered(vms[i]) && Discovered(vms[j])
    requires VerdictOf(vms, o, vms[i]).Assign? && VerdictOf(vms, o, vms[j]).Assign?
    ensures VerdictOf(vms, o, vms[i]).key != VerdictOf(vms, o, vms[j]).key
  {
    hide VerdictOf, ParseKey;
    AssignedNamesBios(vms, rs, inst, o, vms[i]);
    AssignedNamesBios(vms, rs, inst, o, vms[j]);
    if vms[i].bios == vms[j].bios {
      CountBiosOnce(vms, vms[i].bios.value, i, j);
    }
  }

  /** Without a conflict, machines that carry an instance UUID end with pairwise distinct ids. */
  lemma InstancesEndDistinct(vms: seq<Vm>, rs: seq<Record>, inst: string, o: Owned, i: nat, j: nat)
    requires Describes(rs, inst, o) && NoConflict(vms, o) && (forall v :: v in vms ==> Discovered(v))
    requires i < j < |vms| && vms[i].inst.Some? && vms[j].inst.Some?
    ensures NewId(vms, o, vms[i]) != NewId(vms, o, vms[j])
  {
    hide ParseKey, CountBios, CountProvider, CountInst, IsUuid, Describes;
    var a, b := VerdictOf(vms, o, vms[i]), VerdictOf(vms, o, vms[j]);
    assert vms[i] in vms && vms[j] in vms;
    assert vms[i].externalId == vms[i].inst.value && vms[j].externalId == vms[j].inst.value;
    UuidIsNotKey(vms[i].inst.value);
    UuidIsNotKey(vms[j].inst.value);
    if a.Assign? && b.Assign? {
      AssignedKeysAreDistinct(vms, rs, inst, o, i, j);
    } else if a.Assign? {
      AssignedNamesBios(vms, rs, inst, o, vms[i]);
      KeyHasPrefix(a.key);
    } else if b.Assign? {
      AssignedNamesBios(vms, rs, inst, o, vms[j]);
      KeyHasPrefix(b.key);
    } else if vms[i].inst == vms[j].inst {
      CountInstTwice(vms, vms[i].inst.value, i, j);
    }
  }

  lemma KeyHasPrefix(key: string)
    requires ParseKey(key).Key?
    ensures PREFIX <= key
  {
  }

  /** A key built for a newly shared instance UUID is owned by no record yet. */
  lemma NewKeyIsUnowned(vms: seq<Vm>, rs: seq<Record>, inst: string, o: Owned, v: Vm)
    requires Describes(rs, inst, o) && Discovered(v) && VerdictOf(vms, o, v).Assign? && AtOption(o.tagged, v.bios) == {}
    ensures At(o.owners, VerdictOf(vms, o, v).key) == {}
  {
    hide CountBios, CountInst, CountProvider, IsUuid, ParseKey;
    var key := VerdictOf(vms, o, v).key;
    AssignedNamesBios(vms, rs, inst, o, v);
    assert key !in At(o.tagged, v.bios.value);
    assert !RecordedKey(rs, inst, key);
    assert forall id: nat :: !Recorded(rs, inst, id, key);
  }

  // -------------------------------------------------------------- as it runs

  predicate Ours(e: Entry, inst: string) {
    e.V2? && e.id.source == "esxi" && e.id.inst == inst && e.id.kind == "vm"
  }

  /** Every identity parses: no broken record, no malformed key of this source. */
  predicate Readable(es: seq<Entry>, inst: string) {
    forall e :: e in es ==> e != BrokenV2 && (Ours(e, inst) ==> ParseKey(e.id.externalId) != BadKey)
  }

  predicate AllReadable(rs: seq<Record>, inst: string) {
    forall r :: r in rs ==> Readable(r.identities, inst)
  }

  function Grow<V>(m: map<string, set<V>>, k: string, v: V): map<string, set<V>> {
    m[k := At(m, k) + {v}]
  }

  lemma GrowAt<V>(m: map<string, set<V>>, k: string, v: V)
    ensures forall k2, v2 {:trigger v2 in At(Grow(m, k, v), k2)} :: v2 in At(Grow(m, k, v), k2) <==>
            v2 in At(m, k2) || (k2 == k && v2 == v)
  {
  }

  lemma GrowFull<V>(m: map<string, set<V>>, k: string, v: V)
    requires forall x :: x in m ==> m[x] != {}
    ensures forall x :: x in Grow(m, k, v) ==> Grow(m, k, v)[x] != {}
  {
    assert v in Grow(m, k, v)[k];
  }

  /** The three `defaultdict`s after one more identity of one record. */
  function Filed(o: Owned, id: nat, key: string): Owned {
    var p := ParseKey(key);
    Owned(Grow(o.owners, key, id),
          if p.Key? then Grow(o.tagged, p.bios, key) else o.tagged,
          if p.Key? then Grow(o.historical, p.inst, key) else o.historical)
  }

  predicate Names(e: Entry, inst: string, key: string) {
    e == V2(SourceIdentity("esxi", inst, "vm", key))
  }

  /** Filing one identity keeps the dictionaries in step with the records. */
  lemma FiledDescribes(before: seq<Record>, after: seq<Record>, inst: string, o: Owned, rid: nat, e: Entry)
    requires Describes(before, inst, o) && Ours(e, inst)
    requires forall key :: RecordedKey(after, inst, key) <==> RecordedKey(before, inst, key) || Names(e, inst, key)
    requires forall key, id: nat :: Recorded(after, inst, id, key) <==>
             Recorded(before, inst, id, key) || (id == rid && Names(e, inst, key))
    ensures Describes(after, inst, Filed(o, rid, e.id.externalId))
  {
    hide ParseKey, RecordedKey, Recorded, Grow, At;
    var key := e.id.externalId;
    assert forall k :: Names(e, inst, k) <==> k == key;
    GrowAt(o.owners, key, rid);
    var p := ParseKey(key);
    if p.Key? {
      GrowAt(o.tagged, p.bios, key);
      GrowFull(o.tagged, p.bios, key);
      GrowAt(o.historical, p.inst, key);
    }
  }

  lemma SkippedDescribes(before: seq<Record>, after: seq<Record>, inst: string, o: Owned, rid: nat, e: Entry)
    requires Describes(before, inst, o) && !Ours(e, inst)
    requires forall key :: RecordedKey(after, inst, key) <==> RecordedKey(before, inst, key) || Names(e, inst, key)
    requires forall key, id: nat :: Recorded(after, inst, id, key) <==>
             Recorded(before, inst, id, key) || (id == rid && Names(e, inst, key))
    ensures Describes(after, inst, o)
  {
  }

  /** What the first records and the first identities of the next record have filed. */
  lemma FiledNext(rs: seq<Record>, inst: string, o: Owned, r: Record, done: seq<Entry>, e: Entry)
    requires Describes(rs + [Record(r.id, done)], inst, o)
    ensures Ours(e, inst) ==> Describes(rs + [Record(r.id, done + [e])], inst, Filed(o, r.id, e.id.externalId))
    ensures !Ours(e, inst) ==> Describes(rs + [Record(r.id, done + [e])], inst, o)
  {
    hide Describes, Filed, Recorded, RecordedKey, Names;
    var before, after := rs + [Record(r.id, done)], rs + [Record(r.id, done + [e])];
    forall key
      ensures RecordedKey(after, inst, key) <==> RecordedKey(before, inst, key) || Names(e, inst, key)
    {
      MoreRecorded(rs, inst, r.id, done, e, key);
    }
    forall key, id: nat
      ensures Recorded(after, inst, id, key) <==> Recorded(before, inst, id, key) || (id == r.id && Names(e, inst, key))
    {
      MoreRecorded(rs, inst, r.id, done, e, key);
    }
    if Ours(e, inst) {
      FiledDescribes(before, after, inst, o, r.id, e);
    } else {
      SkippedDescribes(before, after, inst, o, r.id, e);
    }
  }

  lemma MoreRecorded(rs: seq<Record>, inst: string, rid: nat, done: seq<Entry>, e: Entry, key: string)
    ensures var before, after := rs + [Record(rid, done)], rs + [Record(rid, done + [e])];
      && (RecordedKey(after, inst, key) <==> RecordedKey(before, inst, key) || Names(e, inst, key))
      && (forall id: nat :: Recorded(after, inst, id, key) <==>
        Recorded(before, inst, id, key) || (id == rid && Names(e, inst, key)))
  {
  }

  lemma EmptyRecord(rs: seq<Record>, inst: string, o: Owned, id: nat)
    requires Describes(rs, inst, o)
    ensures Describes(rs + [Record(id, [])], inst, o)
  {
  }

  /** The record loop; it stops at the first identity it cannot parse. */
  method FileRecords(rs: seq<Record>, inst: string) returns (ok: bool, o: Owned)
    ensures ok <==> forall r, e :: r in rs && e in r.identities ==>
              && e != BrokenV2
              && (e.V2? && e.id.source == "esxi" && e.id.inst == inst && e.id.kind == "vm" ==>
                    ParseKey(e.id.externalId) != BadKey)
    ensures ok <==> AllReadable(rs, inst)
    ensures ok ==> Describes(rs, inst, o)
  {
    hide ParseKey, Describes;
    o := Owned(map[], map[], map[]);
    assert Describes([], inst, o) by { NothingFiled(inst); }
    for i := 0 to |rs|
      invariant AllReadable(rs[..i], inst) && Describes(rs[..i], inst, o)
    {
      var r := rs[i];
      assert rs[..i + 1] == rs[..i] + [r];
      EmptyRecord(rs[..i], inst, o, r.id);
      for j := 0 to |r.identities|
        invariant Readable(r.identities[..j], inst)
        invariant Describes(rs[..i] + [Record(r.id, r.identities[..j])], inst, o)
      {
        var e := r.identities[j];
        assert r.identities[..j + 1] == r.identities[..j] + [e];
        if e == BrokenV2 || (Ours(e, inst) && ParseKey(e.id.externalId) == BadKey) {
          assert r in rs && e in r.identities && !Readable(r.identities, inst);
          return false, o;
        }
        FiledNext(rs[..i], inst, o, r, r.identities[..j], e);
        if Ours(e, inst) {
          o := Filed(o, r.id, e.id.externalId);
        }
      }
      assert r.identities[..|r.identities|] == r.identities && Record(r.id, r.identities) == r;
      assert forall x :: x in rs[..i + 1] <==> x in rs[..i] || x == r;
    }
    assert rs[..|rs|] == rs;
    ok := true;
  }

  lemma NothingFiled(inst: string)
    ensures Describes([], inst, Owned(map[], map[], map[]))
  {
  }

  /** `resolve_vm_identities` on one source's machines: new ids, and the values of the blockers. */
  method Resolve(vms: seq<Vm>, rs: seq<Record>, inst: string)
    returns (ok: bool, ids: seq<string>, blocked: set<string>, ghost o: Owned)
    ensures !ok <==> (forall v :: v in vms ==> !Indistinct(vms, v)) && !AllReadable(rs, inst)
    ensures ok && (forall v :: v in vms ==> !Indistinct(vms, v)) ==> Describes(rs, inst, o)
    ensures ok ==> (blocked == {} <==> NoConflict(vms, o))
    ensures ok && blocked == {} ==> |ids| == |vms| && forall i :: 0 <= i < |vms| ==> ids[i] == NewId(vms, o, vms[i])
  {
    hide VerdictOf, Indistinct, AllReadable, Describes;
    ids, blocked := seq(|vms|, i requires 0 <= i < |vms| => vms[i].externalId), {};
    o := Owned(map[], map[], map[]);
    ok := true;
    for i := 0 to |vms|
      invariant blocked == {} ==> forall j :: 0 <= j < i ==> !Indistinct(vms, vms[j])
      invariant blocked != {} ==> exists j :: 0 <= j < |vms| && Indistinct(vms, vms[j])
    {
      if Indistinct(vms, vms[i]) {
        blocked := blocked + {vms[i].externalId};
      }
    }
    if blocked != {} {
      return;
    }
    var readable, filed := FileRecords(rs, inst);
    if !readable {
      return false, ids, {}, o;
    }
    o := filed;
    for i := 0 to |vms|
      invariant |ids| == |vms| && forall j :: 0 <= j < |vms| ==>
                ids[j] == if j < i then NewId(vms, o, vms[j]) else vms[j].externalId
      invariant blocked == {} ==> forall j :: 0 <= j < i ==> VerdictOf(vms, o, vms[j]) != Blocked
      invariant blocked != {} ==> exists j :: 0 <= j < |vms| && VerdictOf(vms, o, vms[j]) == Blocked
    {
      var verdict := VerdictOf(vms, filed, vms[i]);
      if verdict == Blocked {
        blocked := blocked + {vms[i].externalId};
      } else if verdict.Assign? {
        ids := ids[i := verdict.key];
      }
    }
  }
}
