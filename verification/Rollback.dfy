/** Deployment activation and restored-state publication: a failed step leaves everything as it was. */
module Rollback {
  import opened Wrappers

  type Name = string

  predicate Distinct(names: seq<Name>) {
    forall i, j :: 0 <= i < j < |names| ==> names[i] != names[j]
  }

  // ------------------------------------------------------- state publication

  /** A state directory in place, set aside in the rollback directory, or staged for restore. */
  datatype Place = Current(name: Name) | Aside(name: Name) | Staged(name: Name)

  type Tree = map<Place, string>

  predicate Exchangeable(t: Tree, x: Name) {
    Current(x) in t && Staged(x) in t && Aside(x) !in t
  }

  /** The current directory set aside and the staged one in its place. */
  function Exchanged(t: Tree, x: Name): Tree {
    if !Exchangeable(t, x) then t
    else (t - {Staged(x)})[Aside(x) := t[Current(x)]][Current(x) := t[Staged(x)]]
  }

  function ExchangedAll(t: Tree, names: seq<Name>): Tree {
    if names == [] then t else Exchanged(ExchangedAll(t, names[..|names| - 1]), names[|names| - 1])
  }

  function Moved(t: Tree, from: Place, to: Place): Tree
    requires from in t
  {
    (t - {from})[to := t[from]]
  }

  /** The two undo moves take an exchange back exactly. */
  lemma UndoExchange(t: Tree, x: Name)
    requires Exchangeable(t, x)
    ensures var e := Exchanged(t, x);
      && Current(x) in e && Staged(x) !in e && Aside(x) in e
      && Moved(Moved(e, Current(x), Staged(x)), Aside(x), Current(x)) == t
  {
  }

  /** Exchanging some directories leaves every place of the others alone. */
  lemma {:induction false} OthersStay(t: Tree, names: seq<Name>, p: Place)
    requires p.name !in names
    ensures p in ExchangedAll(t, names) <==> p in t
    ensures p in t ==> ExchangedAll(t, names)[p] == t[p]
  {
    if names != [] {
      OthersStay(t, names[..|names| - 1], p);
    }
  }

  /** Each directory of the list ends up exchanged. */
  lemma {:induction false} ExchangedAt(t: Tree, names: seq<Name>, x: Name)
    requires Distinct(names) && x in names && forall y :: y in names ==> Exchangeable(t, y)
    ensures var e := ExchangedAll(t, names);
      && Exchangeable(t, x)
      && Current(x) in e && e[Current(x)] == t[Staged(x)]
      && Aside(x) in e && e[Aside(x)] == t[Current(x)]
      && Staged(x) !in e
  {
    var init, last := names[..|names| - 1], names[|names| - 1];
    if x == last {
      forall p: Place | p.name == x
        ensures (p in ExchangedAll(t, init) <==> p in t) && (p in t ==> ExchangedAll(t, init)[p] == t[p])
      {
        OthersStay(t, init, p);
      }
    } else {
      ExchangedAt(t, init, x);
    }
  }

  datatype Outcome = Published | CleanupFailed | RolledBack

  /**
   The filesystem; `faults` decides every forward move and the final cleanup, undo moves succeed. `leftover`
   is what a failing cleanup leaves of a set-aside directory, if anything.
   */
  class RestoreTree {
    var tree: Tree
    var clock: nat
    const faults: nat -> bool
    const leftover: Name -> Option<string>

    constructor (tree: Tree, faults: nat -> bool, leftover: Name -> Option<string>)
      ensures this.tree == tree && this.faults == faults && this.leftover == leftover
    {
      this.tree := tree;
      this.faults := faults;
      this.leftover := leftover;
      clock := 0;
    }

    /** `os.replace` of a directory: it fails, or moves it onto a free place. */
    method Move(from: Place, to: Place) returns (ok: bool)
      modifies this
      ensures ok <==> from in old(tree) && to !in old(tree) && !faults(old(clock) + 1)
      ensures ok ==> tree == Moved(old(tree), from, to)
      ensures !ok ==> tree == old(tree)
    {
      clock := clock + 1;
      ok := from in tree && to !in tree && !faults(clock);
      if ok {
        tree := Moved(tree, from, to);
      }
    }

    method Undo(from: Place, to: Place)
      requires from in tree && to !in tree
      modifies this`tree
      ensures tree == Moved(old(tree), from, to)
    {
      tree := Moved(tree, from, to);
    }

    /** One directory: set the current one aside, put the staged one in place, or put the old one back. */
    method Exchange(x: Name) returns (ok: bool)
      requires Aside(x) !in tree
      modifies this
      ensures ok ==> Exchangeable(old(tree), x) && tree == Exchanged(old(tree), x)
      ensures !ok ==> tree == old(tree) && !(Exchangeable(old(tree), x) && forall n :: !faults(n))
    {
      ok := Move(Current(x), Aside(x));
      if !ok {
        return;
      }
      ok := Move(Staged(x), Current(x));
      if !ok {
        Undo(Aside(x), Current(x));
        assert tree == old(tree);
      } else {
        assert tree == Exchanged(old(tree), x);
      }
    }

    /** The undo loop over the published directories, last first. */
    method UndoAll(ghost before: Tree, names: seq<Name>)
      requires Distinct(names) && tree == ExchangedAll(before, names) && forall x :: x in names ==>
               Exchangeable(before, x)
      modifies this`tree
      ensures tree == before
    {
      var n := |names|;
      assert names[..n] == names;
      while n > 0
        invariant 0 <= n <= |names| && tree == ExchangedAll(before, names[..n])
      {
        n := n - 1;
        var x := names[n];
        ghost var t := ExchangedAll(before, names[..n]);
        assert names[..n + 1][..n] == names[..n] && names[..n + 1][n] == x;
        assert Exchangeable(t, x) by { StillExchangeable(before, names, n); }
        UndoExchange(t, x);
        Undo(Current(x), Staged(x));
        Undo(Aside(x), Current(x));
      }
    }

    /**
     `_publish_restored_state`. Any failed move leaves every directory and the staged tree exactly as they
     were; otherwise all directories are replaced, also when the final cleanup fails after deleting any part
     of what was set aside.
     */
    method Publish(names: seq<Name>) returns (outcome: Outcome)
      requires Distinct(names) && forall x :: Aside(x) !in tree
      modifies this
      ensures outcome == RolledBack ==> tree == old(tree)
      ensures outcome != RolledBack ==> forall x :: x in names ==>
                && Staged(x) in old(tree) && Staged(x) !in tree
                && Current(x) in tree && tree[Current(x)] == old(tree)[Staged(x)]
      ensures outcome != RolledBack ==> forall p: Place :: p.name !in names ==>
                (p in tree <==> p in old(tree)) && (p in tree ==> tree[p] == old(tree)[p])
      ensures outcome == Published ==> forall x :: Aside(x) !in tree
      ensures outcome == CleanupFailed ==> forall x :: Aside(x) in tree ==> x in names
      ensures (forall n :: !faults(n)) && (forall x :: x in names ==> Exchangeable(old(tree), x)) ==>
              outcome == Published
    {
      var n := 0;
      while n < |names|
        invariant n <= |names| && tree == ExchangedAll(old(tree), names[..n])
        invariant forall x :: x in names[..n] ==> Exchangeable(old(tree), x)
      {
        StillExchangeable(old(tree), names, n);
        OthersStay(old(tree), names[..n], Aside(names[n]));
        var done := Exchange(names[n]);
        if !done {
          UndoAll(old(tree), names[..n]);
          return RolledBack;
        }
        assert names[..n + 1][..n] == names[..n];
        assert forall x :: x in names[..n + 1] <==> x in names[..n] || x == names[n];
        n := n + 1;
      }
      assert names[..|names|] == names;
      forall x | x in names
        ensures Current(x) in tree && tree[Current(x)] == old(tree)[Staged(x)] && Staged(x) !in tree
      {
        ExchangedAt(old(tree), names, x);
      }
      forall p: Place | p.name !in names
        ensures (p in tree <==> p in old(tree)) && (p in tree ==> tree[p] == old(tree)[p])
      {
        OthersStay(old(tree), names, p);
      }
      clock := clock + 1;
      if faults(clock) {
        tree := map p | p in tree && (p.Aside? ==> leftover(p.name).Some?) ::
          if p.Aside? then leftover(p.name).value else tree[p];
        return CleanupFailed;
      }
      tree := map p | p in tree && !p.Aside? :: tree[p];
      outcome := Published;
    }
  }

  lemma StillExchangeable(t: Tree, names: seq<Name>, n: nat)
    requires Distinct(names) && n < |names|
    ensures Exchangeable(ExchangedAll(t, names[..n]), names[n]) <==> Exchangeable(t, names[n])
  {
    OthersStay(t, names[..n], Aside(names[n]));
    OthersStay(t, names[..n], Current(names[n]));
    OthersStay(t, names[..n], Staged(names[n]));
  }

  // ---------------------------------------------------------------- activation

  function Written(config: map<Name, string>, staged: map<Name, string>, names: seq<Name>): map<Name, string> {
    if names == [] then config
    else
      var init, last := names[..|names| - 1], names[|names| - 1];
      if last in staged then Written(config, staged, init)[last := staged[last]] else Written(config, staged, init)
  }

  /** Putting back every listed file: its old contents, or nothing. */
  function PutBack(config: map<Name, string>, snapshot: map<Name, Option<string>>, names: seq<Name>)
    : map<Name, string>
  {
    if names == [] then config
    else
      var init, last := names[..|names| - 1], names[|names| - 1];
      var rest := PutBack(config, snapshot, init);
      if last !in snapshot then rest
      else if snapshot[last].Some? then rest[last := snapshot[last].value]
      else rest - {last}
  }

  function SnapshotOf(config: map<Name, string>, names: seq<Name>): map<Name, Option<string>> {
    map x | x in names :: if x in config then Some(config[x]) else None
  }

  lemma {:induction false} WrittenElsewhere(config: map<Name, string>, staged: map<Name, string>, names: seq<Name>,
                                            x: Name)
    ensures x !in names ==> (x in Written(config, staged, names) <==> x in config)
    ensures x !in names && x in config ==> Written(config, staged, names)[x] == config[x]
    ensures x in names && x in staged ==>
            x in Written(config, staged, names) && Written(config, staged, names)[x] == staged[x]
  {
    if names != [] {
      WrittenElsewhere(config, staged, names[..|names| - 1], x);
    }
  }

  lemma {:induction false} PutBackAt(config: map<Name, string>, snapshot: map<Name, Option<string>>, names: seq<Name>,
                                     x: Name)
    requires forall y :: y in names ==> y in snapshot
    ensures x in names ==> (x in PutBack(config, snapshot, names) <==> snapshot[x].Some?)
    ensures x in names && snapshot[x].Some? ==> PutBack(config, snapshot, names)[x] == snapshot[x].value
    ensures x !in names ==> (x in PutBack(config, snapshot, names) <==> x in config)
    ensures x !in names && x in config ==> PutBack(config, snapshot, names)[x] == config[x]
  {
    if names != [] {
      PutBackAt(config, snapshot, names[..|names| - 1], x);
    }
  }

  /** However many files were published, putting the snapshot back restores every one. */
  lemma PutBackRestores(config: map<Name, string>, staged: map<Name, string>, names: seq<Name>, n: nat)
    requires n <= |names|
    ensures PutBack(Written(config, staged, names[..n]), SnapshotOf(config, names), names) == config
  {
    var published := Written(config, staged, names[..n]);
    var restored := PutBack(published, SnapshotOf(config, names), names);
    forall x
      ensures (x in restored <==> x in config) && (x in config ==> restored[x] == config[x])
    {
      PutBackAt(published, SnapshotOf(config, names), names, x);
      WrittenElsewhere(config, staged, names[..n], x);
      assert x !in names ==> x !in names[..n];
    }
  }

  /** The installation root: canonical config files and the `current` link. */
  class Deployment {
    var config: map<Name, string>
    var current: Option<string>
    var stopped: bool
    var clock: nat
    const faults: nat -> bool

    constructor (config: map<Name, string>, current: Option<string>, faults: nat -> bool)
      ensures this.config == config && this.current == current && this.faults == faults && !stopped
    {
      this.config, this.current, stopped, clock := config, current, false, 0;
      this.faults := faults;
    }

    method Step() returns (ok: bool)
      modifies this`clock
      ensures clock == old(clock) + 1 && ok == !faults(clock)
    {
      clock := clock + 1;
      ok := !faults(clock);
    }

    /** `publish_configuration`: file by file; a failing write may have replaced its file already. */
    method PublishConfiguration(staged: map<Name, string>, names: seq<Name>) returns (ok: bool, ghost n: nat)
      modifies this`config, this`clock
      ensures n <= |names| && config == Written(old(config), staged, names[..n])
      ensures ok ==> n == |names| && forall x :: x in names ==> x in staged
      ensures !ok ==> !((forall k :: !faults(k)) && forall x :: x in names ==> x in staged)
    {
      n := 0;
      for i := 0 to |names|
        invariant n == i && config == Written(old(config), staged, names[..i])
        invariant forall x :: x in names[..i] ==> x in staged
      {
        assert names[..i + 1][..i] == names[..i];
        assert forall x :: x in names[..i + 1] <==> x in names[..i] || x == names[i];
        var read := Step();
        if names[i] !in staged || !read {
          return false, n;
        }
        config := config[names[i] := staged[names[i]]];
        n := i + 1;
        var durable := Step();
        if !durable {
          return false, n;
        }
      }
      assert names[..|names|] == names;
      ok := true;
    }

    /** `restore_configuration`. */
    method RestoreConfiguration(snapshot: map<Name, Option<string>>, names: seq<Name>)
      requires forall x :: x in names ==> x in snapshot
      modifies this`config
      ensures config == PutBack(old(config), snapshot, names)
    {
      for i := 0 to |names|
        invariant config == PutBack(old(config), snapshot, names[..i])
      {
        assert names[..i + 1][..i] == names[..i];
        if snapshot[names[i]].None? {
          config := config - {names[i]};
        } else {
          config := config[names[i] := snapshot[names[i]].value];
        }
      }
      assert names[..|names|] == names;
    }

    /**
     `activate_prepared`: whichever step fails, config contents and the current link are as before;
     otherwise both are replaced.
     */
    method Activate(staged: map<Name, string>, names: seq<Name>, release: string, installUnits: bool,
                    startServices: bool) returns (ok: bool)
      modifies this
      ensures !ok ==> config == old(config) && current == old(current)
      ensures ok ==>
                && current == Some(release)
                && (forall x :: x in names ==> x in staged && x in config && config[x] == staged[x])
      ensures ok ==> forall x :: x !in names ==>
              (x in config <==> x in old(config)) && (x in config ==> config[x] == old(config)[x])
      ensures (forall k :: !faults(k)) && (forall x :: x in names ==> x in staged) ==> ok
    {
      var previous := current;
      var snapshot := SnapshotOf(config, names);
      var switched, runtimeAttempted := false, false;
      ghost var n;
      ok, n := PublishConfiguration(staged, names);
      if ok {
        ok := Step();
        if ok {
          current := Some(release);
          switched := true;
          if installUnits {
            ok := Step();
          }
          if ok && startServices {
            runtimeAttempted := true;
            ok := Step();
          }
        }
      }
      if !ok {
        if runtimeAttempted {
          stopped := true;
        }
        if switched {
          current := previous;
        }
        PutBackRestores(old(config), staged, names, n);
        RestoreConfiguration(snapshot, names);
      } else {
        assert names[..|names|] == names;
        forall x
          ensures x in names ==> x in config && config[x] == staged[x]
          ensures x !in names ==> (x in config <==> x in old(config)) && (x in config ==> config[x] == old(config)[x])
        {
          WrittenElsewhere(old(config), staged, names, x);
        }
      }
    }
  }
}
