/**
 The exact condition under which interface names stay unique through the write phase, for every accepted
 batch, also when jobs share records or containers share a VM.
 */
module LxcNames {
  import opened Wrappers
  import opened Texts
  import opened Guests
  import opened LxcNetworks
  import opened LxcConvergence
  import opened LxcOwnership

  /** The step gives the row a name. */
  predicate NamesRow(s: Step, r: nat) {
    s.EnsureInterface? && s.id == r && (s.create || s.changes.name.Some?)
  }

  /** Two steps give different rows of one VM the same name, ignoring case. */
  predicate Clash(a: Step, b: Step) {
    && a.EnsureInterface? && b.EnsureInterface? && NamesRow(a, a.id) && NamesRow(b, b.id)
    && a.id != b.id && a.vm == b.vm && Fold(a.name) == Fold(b.name)
  }

  /** A step between the two renames the row of the first. */
  predicate Vacated(steps: seq<Step>, i: nat, j: nat)
    requires i < j < |steps| && steps[i].EnsureInterface?
  {
    exists k :: i < k < j && NamesRow(steps[k], steps[i].id)
  }

  /** Whenever a name is given a second time, the row that had it was renamed before. */
  predicate NamesClear(steps: seq<Step>) {
    forall i, j :: 0 <= i < j < |steps| && Clash(steps[i], steps[j]) ==> Vacated(steps, i, j)
  }

  // ---------------------------------------------------------- where names come from

  /** What the preflight guarantees of interface steps. */
  predicate WellNamed(nb: NetBox, steps: seq<Step>) {
    forall s :: s in steps && s.EnsureInterface? ==>
      && (s.create <==> s.id !in nb.interfaces)
      && (!s.create ==> nb.interfaces[s.id].vm == Some(s.vm))
      && (s.changes.name.Some? ==> s.changes.name.value == s.name)
  }

  lemma StepsWellNamed(nb: NetBox, ids: Ids, cluster: nat, cs: seq<Container>)
    requires Batch(nb, ids, cluster, cs)
    ensures WellNamed(nb, Steps(nb, ids, cluster, cs))
  {
    hide Steps, Jobs, ContainerPasses, NicPasses, FindInterface, NoRepeats, OneSource, InjectiveIdentities;
    forall s | s in Steps(nb, ids, cluster, cs) && s.EnsureInterface?
      ensures s.create <==> s.id !in nb.interfaces
      ensures !s.create ==> nb.interfaces[s.id].vm == Some(s.vm)
      ensures s.changes.name.Some? ==> s.changes.name.value == s.name
    {
      InterfaceStepNames(nb, ids, cluster, cs, s);
      if s.create {
        CreatedIsNew(nb, ids, cluster, cs, s);
      }
    }
  }

  lemma CreatedIsNew(nb: NetBox, ids: Ids, cluster: nat, cs: seq<Container>, s: Step)
    requires Batch(nb, ids, cluster, cs) && s in Steps(nb, ids, cluster, cs) && s.EnsureInterface? && s.create
    ensures s.id !in nb.interfaces
  {
    hide Steps, NicSteps, Jobs, ContainerPasses, FindInterface, DesiredFields, MacPasses, IpsPass, Best, Display;
    StepOrigin(nb, ids, cluster, cs, s);
    var z :| FromJob(nb, ids, cluster, cs, s, z);
    JobStepKinds(nb, ids, VmFor(nb, cluster, z.c), z, s);
  }

  /** Only an interface step touches the rows, and only its own. */
  lemma StepRows(now: NetBox, s: Step)
    ensures !s.EnsureInterface? ==> After(now, s).interfaces == now.interfaces
    ensures forall r :: r in now.interfaces ==> r in After(now, s).interfaces
    ensures forall r :: r in After(now, s).interfaces && !NamesRow(s, r) ==>
              && r in now.interfaces
              && After(now, s).interfaces[r].vm == now.interfaces[r].vm
              && After(now, s).interfaces[r].name == now.interfaces[r].name
    ensures s.EnsureInterface? && s.create ==>
              s.id in After(now, s).interfaces && After(now, s).interfaces[s.id].vm == Some(s.vm)
              && After(now, s).interfaces[s.id].name == s.name
    ensures s.EnsureInterface? && !s.create && s.changes.name.Some? && s.id in now.interfaces ==>
              && After(now, s).interfaces[s.id].vm == now.interfaces[s.id].vm
              && After(now, s).interfaces[s.id].name == s.changes.name.value
  {
    hide Replay, Apply, Changed;
    var ws := Perform(now, s);
    if !s.EnsureInterface? {
      OtherWrites(now, ws);
    } else if ws == [] {
      ReplayNone(now);
    } else {
      assert ws == [ws[0]];
      ReplayOne(now, ws[0]);
      InterfaceWrite(now, ws[0]);
    }
  }

  /** What one interface write does to the rows. */
  lemma InterfaceWrite(now: NetBox, w: Write)
    requires w.CreateInterface? || w.UpdateInterface?
    ensures var rows := Apply(now, w).interfaces;
            && (forall r :: r in rows && r != w.id ==> r in now.interfaces && rows[r] == now.interfaces[r])
            && (forall r :: r in now.interfaces ==> r in rows)
            && (w.CreateInterface? ==> w.id in rows && rows[w.id].vm == Some(w.vm) && rows[w.id].name == w.name)
            && (w.UpdateInterface? && w.id in rows ==>
                  && w.id in now.interfaces && rows[w.id].vm == now.interfaces[w.id].vm
                  && rows[w.id].name == if w.changes.name.Some? then w.changes.name.value
                                        else now.interfaces[w.id].name)
  {
  }

  predicate SparesRows(w: Write) {
    !w.CreateInterface? && !w.UpdateInterface?
  }

  lemma {:induction false} OtherWrites(nb: NetBox, ws: seq<Write>)
    requires forall w :: w in ws ==> SparesRows(w)
    ensures Replay(nb, ws).interfaces == nb.interfaces
  {
    hide Apply, SparesRows;
    if ws != [] {
      OtherWrites(nb, ws[..|ws| - 1]);
      OtherWrite(Replay(nb, ws[..|ws| - 1]), ws[|ws| - 1]);
    }
  }

  lemma OtherWrite(nb: NetBox, w: Write)
    requires SparesRows(w)
    ensures Apply(nb, w).interfaces == nb.interfaces
  {
  }

  predicate FromOld(nb: NetBox, steps: seq<Step>, r: nat, row: Interface) {
    && r in nb.interfaces && row.vm == nb.interfaces[r].vm && row.name == nb.interfaces[r].name
    && forall k :: 0 <= k < |steps| ==> !NamesRow(steps[k], r)
  }

  predicate FromStep(steps: seq<Step>, r: nat, row: Interface, i: nat) {
    && i < |steps| && NamesRow(steps[i], r) && row.vm == Some(steps[i].vm) && row.name == steps[i].name
    && forall k :: i < k < |steps| ==> !NamesRow(steps[k], r)
  }

  ghost predicate HasOrigin(nb: NetBox, steps: seq<Step>, r: nat, row: Interface) {
    FromOld(nb, steps, r, row) || exists i :: FromStep(steps, r, row, i)
  }

  /** Every row has its old name, or the name of the last step that named it. */
  lemma {:induction false} NameOrigin(nb: NetBox, steps: seq<Step>, r: nat)
    requires WellNamed(nb, steps) && r in Run(nb, steps).interfaces
    ensures HasOrigin(nb, steps, r, Run(nb, steps).interfaces[r])
  {
    hide After, HasOrigin, NamesRow;
    if steps == [] {
      OldOrigin(nb, r);
    } else {
      var init, last := steps[..|steps| - 1], steps[|steps| - 1];
      assert WellNamed(nb, init) && last in steps && steps == init + [last];
      if NamesRow(last, r) {
        NamedOrigin(nb, init, last, r);
      } else {
        StepRows(Run(nb, init), last);
        NameOrigin(nb, init, r);
        CarriedOrigin(nb, init, last, r, Run(nb, init).interfaces[r], Run(nb, steps).interfaces[r]);
      }
    }
  }

  lemma OldOrigin(nb: NetBox, r: nat)
    requires r in nb.interfaces
    ensures HasOrigin(nb, [], r, nb.interfaces[r])
  {
  }

  lemma NamedOrigin(nb: NetBox, init: seq<Step>, last: Step, r: nat)
    requires WellNamed(nb, init + [last]) && NamesRow(last, r)
    ensures var now := After(Run(nb, init), last).interfaces;
            r in now && HasOrigin(nb, init + [last], r, now[r])
  {
    hide After, Run;
    assert last in init + [last];
    assert forall s :: s in init ==> s in init + [last];
    if !last.create {
      OldVmStays(nb, init, r);
    }
    StepRows(Run(nb, init), last);
    assert FromStep(init + [last], r, After(Run(nb, init), last).interfaces[r], |init|);
  }

  /** A step that does not name the row leaves its origin. */
  lemma CarriedOrigin(nb: NetBox, init: seq<Step>, last: Step, r: nat, was: Interface, row: Interface)
    requires HasOrigin(nb, init, r, was) && !NamesRow(last, r) && row.vm == was.vm && row.name == was.name
    ensures HasOrigin(nb, init + [last], r, row)
  {
    hide NamesRow;
    if !FromOld(nb, init, r, was) {
      var i :| FromStep(init, r, was, i);
      assert FromStep(init + [last], r, row, i);
    }
  }

  lemma {:induction false} RowsStay(nb: NetBox, steps: seq<Step>, r: nat)
    requires r in nb.interfaces || exists s :: s in steps && NamesRow(s, r) && s.create
    ensures r in Run(nb, steps).interfaces
  {
    hide After;
    if steps != [] {
      var init, last := steps[..|steps| - 1], steps[|steps| - 1];
      StepRows(Run(nb, init), last);
      if !(NamesRow(last, r) && last.create) {
        RowsStay(nb, init, r);
      }
    }
  }

  lemma {:induction false} OldVmStays(nb: NetBox, steps: seq<Step>, r: nat)
    requires WellNamed(nb, steps) && r in nb.interfaces
    ensures r in Run(nb, steps).interfaces && Run(nb, steps).interfaces[r].vm == nb.interfaces[r].vm
  {
    hide After;
    if steps != [] {
      var init, last := steps[..|steps| - 1], steps[|steps| - 1];
      assert WellNamed(nb, init) && last in steps;
      OldVmStays(nb, init, r);
      StepRows(Run(nb, init), last);
    }
  }

  /** A row keeps the name of the last step that named it. */
  lemma LastNameStays(nb: NetBox, steps: seq<Step>, i: nat)
    requires WellNamed(nb, steps) && i < |steps| && steps[i].EnsureInterface? && NamesRow(steps[i], steps[i].id)
    requires forall k :: i < k < |steps| ==> !NamesRow(steps[k], steps[i].id)
    ensures var r := steps[i].id;
            r in Run(nb, steps).interfaces && FromStep(steps, r, Run(nb, steps).interfaces[r], i)
  {
    hide Run;
    var r := steps[i].id;
    assert steps[i] in steps;
    RowsStay(nb, steps, r);
    NameOrigin(nb, steps, r);
    var j :| FromStep(steps, r, Run(nb, steps).interfaces[r], j);
    assert i == j;
  }

  // ------------------------------------------------------------ step by step

  /** The preflight refused a name that another row of the VM had. */
  lemma StepAgainstRow(nb: NetBox, ids: Ids, cluster: nat, cs: seq<Container>, s: Step, q: nat)
    requires Passes(nb, cluster, cs) && s in Steps(nb, ids, cluster, cs) && s.EnsureInterface?
    requires q != s.id && q in nb.interfaces && nb.interfaces[q].vm == Some(s.vm)
    ensures Fold(nb.interfaces[q].name) != Fold(s.name)
  {
    hide Steps, ContainerPasses, NoRepeats, NamedBy, Fold;
    InterfaceStepNames(nb, ids, cluster, cs, s);
    var z :| NamedBy(nb, ids, cluster, cs, s.id, Some(s.vm), s.name, z);
    JobAgainstRow(nb, ids, cluster, cs, s.id, q, Some(s.vm), s.name, z);
  }

  lemma ClearedPair(steps: seq<Step>, m: nat, i: nat, j: nat, r: nat, q: nat, a: Interface, b: Interface)
    requires NamesClear(steps) && m <= |steps| && r != q && a.vm == b.vm
    requires FromStep(steps[..m], r, a, i) && FromStep(steps[..m], q, b, j)
    ensures Fold(a.name) != Fold(b.name)
  {
    hide Fold;
    forall k | 0 <= k < m
      ensures i < k ==> !NamesRow(steps[k], r)
      ensures j < k ==> !NamesRow(steps[k], q)
    {
      assert steps[..m][k] == steps[k];
    }
    var first, second := if i < j then i else j, if i < j then j else i;
    assert !Vacated(steps, first, second);
    assert !Clash(steps[first], steps[second]);
  }

  lemma ClearKeepsUnique(nb: NetBox, ids: Ids, cluster: nat, cs: seq<Container>, m: nat)
    requires Batch(nb, ids, cluster, cs) && UniqueNames(nb) && m <= |Steps(nb, ids, cluster, cs)|
    requires NamesClear(Steps(nb, ids, cluster, cs))
    ensures UniqueNames(Run(nb, Steps(nb, ids, cluster, cs)[..m]))
  {
    hide ContainerPasses, NoRepeats, FreshIds, OneSource, InjectiveIdentities, Steps, Run, Fold, WellNamed, FromStep,
         NamesClear;
    var steps := Steps(nb, ids, cluster, cs);
    StepsWellNamed(nb, ids, cluster, cs);
    var some, now := steps[..m], Run(nb, steps[..m]);
    WellNamedPrefix(nb, steps, m);
    forall r, q | r in now.interfaces && q in now.interfaces && r != q
                  && now.interfaces[r].vm.Some? && now.interfaces[r].vm == now.interfaces[q].vm
      ensures Fold(now.interfaces[r].name) != Fold(now.interfaces[q].name)
    {
      var a, b := now.interfaces[r], now.interfaces[q];
      NameOrigin(nb, some, r);
      NameOrigin(nb, some, q);
      if i :| FromStep(some, r, a, i) {
        if j :| FromStep(some, q, b, j) {
          ClearedPair(steps, m, i, j, r, q, a, b);
        } else {
          StepAgainstOld(nb, ids, cluster, cs, m, i, r, q, a, b);
        }
      } else if j :| FromStep(some, q, b, j) {
        StepAgainstOld(nb, ids, cluster, cs, m, j, q, r, b, a);
      }
    }
  }

  lemma WellNamedPrefix(nb: NetBox, steps: seq<Step>, m: nat)
    requires WellNamed(nb, steps) && m <= |steps|
    ensures WellNamed(nb, steps[..m])
  {
  }

  lemma StepAgainstOld(nb: NetBox, ids: Ids, cluster: nat, cs: seq<Container>, m: nat, i: nat, r: nat, q: nat,
                       a: Interface, b: Interface)
    requires Batch(nb, ids, cluster, cs) && m <= |Steps(nb, ids, cluster, cs)| && r != q && a.vm == b.vm
    requires FromStep(Steps(nb, ids, cluster, cs)[..m], r, a, i) && FromOld(nb, Steps(nb, ids, cluster, cs)[..m], q, b)
    ensures Fold(a.name) != Fold(b.name)
  {
    hide Steps, Fold, ContainerPasses, NoRepeats, FreshIds, OneSource, InjectiveIdentities;
    var steps := Steps(nb, ids, cluster, cs);
    assert steps[..m][i] == steps[i] && steps[i] in steps;
    StepAgainstRow(nb, ids, cluster, cs, steps[i], q);
  }

  /** A name given twice without the first row renamed in between is a duplicate at that moment. */
  lemma UniqueIsClear(nb: NetBox, steps: seq<Step>)
    requires WellNamed(nb, steps) && forall m :: 0 <= m <= |steps| ==> UniqueNames(Run(nb, steps[..m]))
    ensures NamesClear(steps)
  {
    hide Run, Fold;
    forall i, j | 0 <= i < j < |steps| && Clash(steps[i], steps[j])
      ensures Vacated(steps, i, j)
    {
      if !Vacated(steps, i, j) {
        var some := steps[..j + 1];
        assert UniqueNames(Run(nb, some));
        LastNameStays(nb, some, i);
        LastNameStays(nb, some, j);
        assert false;
      }
    }
  }

  // ----------------------------------------------------------- write by write

  /** Every prefix of the log shows the rows as some prefix of the steps leaves them. */
  lemma {:induction false} PrefixRows(nb: NetBox, steps: seq<Step>, k: nat) returns (m: nat)
    requires k <= |Log(nb, steps)|
    ensures m <= |steps| && Replay(nb, Log(nb, steps)[..k]).interfaces == Run(nb, steps[..m]).interfaces
  {
    hide Perform, After;
    if steps == [] {
      return 0;
    }
    var init, last := steps[..|steps| - 1], steps[|steps| - 1];
    var done := Log(nb, init);
    var p := Perform(Run(nb, init), last);
    var log := Log(nb, steps);
    if k <= |done| {
      m := PrefixRows(nb, init, k);
      assert log[..k] == done[..k] && steps[..m] == init[..m];
    } else {
      var t := k - |done|;
      assert log[..k] == done + p[..t];
      ReplayConcat(nb, done, p[..t]);
      LogReplays(nb, init);
      m := PartOfStep(Run(nb, init), last, t);
      if m == 0 {
        m := |init|;
      } else {
        m := |steps|;
        assert steps[..m] == steps;
      }
    }
  }

  /** Part of a step shows the rows before it or after it. */
  lemma PartOfStep(now: NetBox, s: Step, t: nat) returns (m: nat)
    requires t <= |Perform(now, s)|
    ensures m == 0 ==> Replay(now, Perform(now, s)[..t]).interfaces == now.interfaces
    ensures m != 0 ==> Replay(now, Perform(now, s)[..t]).interfaces == After(now, s).interfaces
  {
    if s.EnsureInterface? {
      m := if t == |Perform(now, s)| then 1 else 0;
      assert t == |Perform(now, s)| ==> Perform(now, s)[..t] == Perform(now, s);
    } else {
      m := 0;
      OtherWrites(now, Perform(now, s)[..t]);
    }
  }

  lemma AlwaysUniqueByStep(nb: NetBox, steps: seq<Step>)
    ensures AlwaysUnique(nb, Log(nb, steps)) <==> forall m :: 0 <= m <= |steps| ==> UniqueNames(Run(nb, steps[..m]))
  {
    hide Log, Run, Replay, Fold;
    var log := Log(nb, steps);
    if AlwaysUnique(nb, log) {
      forall m | 0 <= m <= |steps|
        ensures UniqueNames(Run(nb, steps[..m]))
      {
        assert steps[..m] + steps[m..] == steps;
        LogConcat(nb, steps[..m], steps[m..]);
        LogReplays(nb, steps[..m]);
        assert log[..|Log(nb, steps[..m])|] == Log(nb, steps[..m]);
      }
    }
    if forall m :: 0 <= m <= |steps| ==> UniqueNames(Run(nb, steps[..m])) {
      forall k | 0 <= k <= |log|
        ensures UniqueNames(Replay(nb, log[..k]))
      {
        var m := PrefixRows(nb, steps, k);
        assert UniqueNames(Run(nb, steps[..m]));
      }
    }
  }

  /**
   The exact condition, for every accepted batch: names that were unique stay unique after every single
   write if and only if no step gives a name away again before the row that had it was renamed.
   */
  lemma NamesStayUniqueIffClear(nb: NetBox, ids: Ids, cluster: nat, cs: seq<Container>)
    requires Batch(nb, ids, cluster, cs) && UniqueNames(nb)
    ensures AlwaysUnique(nb, Log(nb, Steps(nb, ids, cluster, cs))) <==> NamesClear(Steps(nb, ids, cluster, cs))
  {
    hide ContainerPasses, NoRepeats, FreshIds, OneSource, InjectiveIdentities, Steps, Run, Log, UniqueNames,
         AlwaysUnique, NamesClear, WellNamed;
    var steps := Steps(nb, ids, cluster, cs);
    StepsWellNamed(nb, ids, cluster, cs);
    AlwaysUniqueByStep(nb, steps);
    if NamesClear(steps) {
      forall m | 0 <= m <= |steps|
        ensures UniqueNames(Run(nb, steps[..m]))
      {
        ClearKeepsUnique(nb, ids, cluster, cs, m);
      }
    }
    if AlwaysUnique(nb, Log(nb, steps)) {
      UniqueIsClear(nb, steps);
    }
  }
}
