/** Schema migrations (migrate in internal/store/store.go): one replica alone, and any number of
    replicas racing, failing and crashing at any statement.

    Each migration runs in a transaction that also inserts its name into schema_migrations, whose
    primary key is the name: the commit of a name that is already there fails as a whole. */
module Migrations {
  import opened Common

  /** Names committed so far, in commit order; the schema changes are committed with them. */
  class Db {
    var versions: seq<string>

    constructor ()
      ensures versions == []
    {
      versions := [];
    }

    /** The existence check; `None` on an error. */
    method Exists(name: string, healthy: bool) returns (there: Option<bool>)
      ensures there == if healthy then Some(name in versions) else None
    {
      there := if healthy then Some(name in versions) else None;
    }

    /** Begin, apply, record, commit. `healthy` is false when any of the statements fails. */
    method Apply(name: string, healthy: bool) returns (ok: bool)
      modifies this
      ensures ok <==> healthy && name !in old(versions)
      ensures versions == if ok then old(versions) + [name] else old(versions)
    {
      ok := healthy && name !in versions;
      if ok {
        versions := versions + [name];
      }
    }
  }

  /** The names missing from `done`, in order. */
  function Pending(names: seq<string>, done: seq<string>): seq<string> {
    if names == [] then []
    else (if names[0] in done then [] else [names[0]]) + Pending(names[1..], done)
  }

  lemma {:induction false} PendingSnoc(names: seq<string>, i: nat, done: seq<string>)
    requires i < |names|
    ensures Pending(names[..i + 1], done) == Pending(names[..i], done) + (if names[i] in done then [] else [names[i]])
    ensures forall n :: n in Pending(names[..i], done) ==> n in names[..i]
    decreases |names|
  {
    var front, more := names[..i], names[..i + 1];
    if i == 0 {
      assert more == [names[0]] && more[1..] == [];
    } else {
      assert front[1..] == names[1..][..i - 1] && more[1..] == names[1..][..i];
      PendingSnoc(names[1..], i - 1, done);
    }
  }

  /** Exactly the missing names; and what completes an initial segment of the files to all of them. */
  lemma {:induction false} PendingIsMissing(names: seq<string>, done: seq<string>, name: string)
    ensures name in Pending(names, done) <==> name in names && name !in done
  {
    if names != [] {
      PendingIsMissing(names[1..], done, name);
      assert names == [names[0]] + names[1..];
    }
  }

  lemma {:induction false} PendingCompletes(names: seq<string>, k: nat)
    requires Distinct(names) && k <= |names|
    ensures names[..k] + Pending(names, names[..k]) == names
  {
    PendingOfDone(names, k, |names|);
    assert names[..|names|] == names;
  }

  lemma {:induction false} PendingOfDone(names: seq<string>, k: nat, n: nat)
    requires Distinct(names) && k <= |names| && n <= |names|
    ensures Pending(names[..n], names[..k]) == if n <= k then [] else names[k..n]
    decreases n
  {
    if n > 0 {
      PendingOfDone(names, k, n - 1);
      PendingSnoc(names, n - 1, names[..k]);
      if n <= k {
        assert names[..k][n - 1] == names[n - 1];
      } else {
        assert names[n - 1] !in names[..k];
        assert names[k..n] == names[k..n - 1] + [names[n - 1]];
      }
    }
  }

  /** The statements of one migration: a check, and a transaction unless it was there before. */
  datatype Health = Health(check: bool, apply: bool)

  predicate Passes(name: string, done: seq<string>, health: string -> Health) {
    health(name).check && (name in done || health(name).apply)
  }

  /** The body of the loop. */
  method MigrateOne(db: Db, name: string, health: string -> Health) returns (ok: bool)
    modifies db
    ensures ok <==> Passes(name, old(db.versions), health)
    ensures db.versions == old(db.versions) + (if ok && name !in old(db.versions) then [name] else [])
  {
    var there := db.Exists(name, health(name).check);
    if there.None? {
      return false;
    }
    if there.value {
      return true;
    }
    ok := db.Apply(name, health(name).apply);
  }

  /** A file is there when its turn comes exactly if it was there before. */
  lemma TurnOf(names: seq<string>, i: nat, done: seq<string>)
    requires Distinct(names) && i < |names|
    ensures names[i] in done + Pending(names[..i], done) <==> names[i] in done
  {
    PendingSnoc(names, i, done);
  }

  /** One replica, undisturbed. `names` are the embedded files, sorted; `prepared` is false when
      they cannot be listed or the bookkeeping table cannot be created. It goes through the files
      up to the first that fails, `stop`, and has applied exactly the missing ones before it, in
      order and once each. */
  method Migrate(db: Db, names: seq<string>, prepared: bool, health: string -> Health) returns (ok: bool, ghost stop: nat)
    requires Distinct(names)
    modifies db
    ensures stop <= |names| && forall i :: 0 <= i < stop ==> Passes(names[i], old(db.versions), health)
    ensures db.versions == old(db.versions) + Pending(names[..stop], old(db.versions))
    ensures ok <==> prepared && stop == |names|
    ensures !ok ==> (!prepared && stop == 0) || (stop < |names| && !Passes(names[stop], old(db.versions), health))
  {
    ghost var before := db.versions;
    if !prepared {
      return false, 0;
    }
    for i := 0 to |names|
      invariant db.versions == before + Pending(names[..i], before)
      invariant forall j :: 0 <= j < i ==> Passes(names[j], before, health)
    {
      PendingSnoc(names, i, before);
      TurnOf(names, i, before);
      var passed := MigrateOne(db, names[i], health);
      if !passed {
        return false, i;
      }
    }
    ok, stop := true, |names|;
  }

  // --------------------------------------------------------------- replicas
  //
  // `all` is the newest sorted list of file names. A replica of an older release embeds the first
  // `size` of them, so a rolling deployment is covered too.

  datatype Phase = Checking(i: nat) | Applying(i: nat) | Returned(ok: bool)

  datatype Replica = Replica(size: nat, phase: Phase)

  datatype World = World(versions: seq<string>, replicas: seq<Replica>)

  /** A crash is a replica that is not scheduled any more. */
  datatype Action = Boot(size: nat) | Check(r: nat, ok: bool) | Commit(r: nat, outcome: Outcome)

  function SetPhase(w: World, r: nat, phase: Phase): World
    requires r < |w.replicas|
  {
    w.(replicas := w.replicas[r := w.replicas[r].(phase := phase)])
  }

  function Perform(all: seq<string>, w: World, a: Action): World {
    match a
    case Boot(size) => if size <= |all| then w.(replicas := w.replicas + [Replica(size, Checking(0))]) else w
    case Check(r, ok) =>
      if r < |w.replicas| && w.replicas[r].phase.Checking? then
        var i := w.replicas[r].phase.i;
        if i >= w.replicas[r].size || i >= |all| then SetPhase(w, r, Returned(true))
        else if !ok then SetPhase(w, r, Returned(false))
        else if all[i] in w.versions then SetPhase(w, r, Checking(i + 1))
        else SetPhase(w, r, Applying(i))
      else w
    case Commit(r, outcome) =>
      if r < |w.replicas| && w.replicas[r].phase.Applying? && w.replicas[r].phase.i < |all| then
        var i := w.replicas[r].phase.i;
        var commits := outcome.Commits() && all[i] !in w.versions;
        var next := if commits then w.(versions := w.versions + [all[i]]) else w;
        SetPhase(next, r, if commits && outcome.Fine? then Checking(i + 1) else Returned(false))
      else w
  }

  function Run(all: seq<string>, actions: seq<Action>): World
    decreases |actions|
  {
    if actions == [] then World([], [])
    else Perform(all, Run(all, actions[..|actions| - 1]), actions[|actions| - 1])
  }

  ghost predicate ReplicaOk(all: seq<string>, w: World, q: Replica) {
    && q.size <= |all|
    && match q.phase
       case Checking(i) => i <= q.size && i <= |w.versions|
       case Applying(i) => i < q.size && i <= |w.versions|
       case Returned(ok) => ok ==> q.size <= |w.versions|
  }

  ghost predicate Inv(all: seq<string>, w: World) {
    w.versions <= all && forall r :: 0 <= r < |w.replicas| ==> ReplicaOk(all, w, w.replicas[r])
  }

  lemma AppliedMeansBefore(all: seq<string>, versions: seq<string>, i: nat)
    requires Distinct(all) && versions <= all && i < |all|
    ensures all[i] in versions <==> i < |versions|
  {
  }

  lemma PerformKeeps(all: seq<string>, w: World, a: Action)
    requires Distinct(all) && Inv(all, w)
    ensures Inv(all, Perform(all, w, a)) && w.versions <= Perform(all, w, a).versions
  {
    var next := Perform(all, w, a);
    if a.Check? && a.r < |w.replicas| && w.replicas[a.r].phase.Checking? && w.replicas[a.r].phase.i < w.replicas[a.r].size {
      assert ReplicaOk(all, w, w.replicas[a.r]);
      AppliedMeansBefore(all, w.versions, w.replicas[a.r].phase.i);
    }
    if a.Commit? && a.r < |w.replicas| && w.replicas[a.r].phase.Applying? {
      assert ReplicaOk(all, w, w.replicas[a.r]);
      AppliedMeansBefore(all, w.versions, w.replicas[a.r].phase.i);
    }
    forall r | 0 <= r < |next.replicas| ensures ReplicaOk(all, next, next.replicas[r]) {
      if r < |w.replicas| {
        assert ReplicaOk(all, w, w.replicas[r]);
      }
    }
  }

  /** Whatever the races, errors and crashes: the committed migrations are an initial segment of
      the sorted list, so none is applied twice or out of order; and a replica whose migrate has
      returned without error has every one of its own migrations applied. */
  lemma {:induction false} MigrationsInOrder(all: seq<string>, actions: seq<Action>)
    requires Distinct(all)
    ensures var w := Run(all, actions);
            && w.versions <= all && Inv(all, w)
            && (forall r :: 0 <= r < |w.replicas| && w.replicas[r].phase == Returned(true) ==>
                  w.replicas[r].size <= |all| && all[..w.replicas[r].size] <= w.versions)
    decreases |actions|
  {
    if actions != [] {
      MigrationsInOrder(all, actions[..|actions| - 1]);
      PerformKeeps(all, Run(all, actions[..|actions| - 1]), actions[|actions| - 1]);
      var w := Run(all, actions);
      forall r | 0 <= r < |w.replicas| && w.replicas[r].phase == Returned(true)
        ensures w.replicas[r].size <= |all| && all[..w.replicas[r].size] <= w.versions
      {
        assert ReplicaOk(all, w, w.replicas[r]);
      }
    }
  }

  // ---------------------------------------------------------------- progress

  function PerformAll(all: seq<string>, w: World, actions: seq<Action>): World
    decreases |actions|
  {
    if actions == [] then w else PerformAll(all, Perform(all, w, actions[0]), actions[1..])
  }

  /** The statements a replica has left from file `i` on when nothing fails. */
  function Remaining(all: seq<string>, versions: seq<string>, r: nat, i: nat, size: nat): seq<Action>
    requires i <= size <= |all|
    decreases size - i
  {
    if i == size then [Check(r, true)]
    else if all[i] in versions then [Check(r, true)] + Remaining(all, versions, r, i + 1, size)
    else [Check(r, true), Commit(r, Fine)] + Remaining(all, versions + [all[i]], r, i + 1, size)
  }

  lemma OneStep(all: seq<string>, w: World, a: Action, rest: seq<Action>)
    ensures PerformAll(all, w, [a] + rest) == PerformAll(all, Perform(all, w, a), rest)
  {
    assert ([a] + rest)[1..] == rest;
  }

  lemma TwoSteps(all: seq<string>, w: World, a: Action, b: Action, rest: seq<Action>)
    ensures PerformAll(all, w, [a, b] + rest) == PerformAll(all, Perform(all, Perform(all, w, a), b), rest)
  {
    assert [a, b] + rest == [a] + ([b] + rest);
    OneStep(all, w, a, [b] + rest);
    OneStep(all, Perform(all, w, a), b, rest);
  }

  /** The check of a file that is there moves on; of one that is not, a transaction follows. */
  lemma CheckIs(all: seq<string>, w: World, r: nat, i: nat)
    requires r < |w.replicas| && w.replicas[r].phase == Checking(i) && i < w.replicas[r].size <= |all|
    ensures var size, next := w.replicas[r].size, Perform(all, w, Check(r, true));
            && |next.replicas| == |w.replicas| && next.versions == w.versions
            && next.replicas[r] == Replica(size, if all[i] in w.versions then Checking(i + 1) else Applying(i))
    ensures var size, next := w.replicas[r].size, Perform(all, Perform(all, w, Check(r, true)), Commit(r, Fine));
            all[i] !in w.versions ==>
              && |next.replicas| == |w.replicas| && next.versions == w.versions + [all[i]]
              && next.replicas[r] == Replica(size, Checking(i + 1))
  {
  }

  /** From any reachable world a replica that is left alone, with no statement failing, gets through
      all its files and returns without error. */
  lemma {:induction false} AloneItFinishes(all: seq<string>, w: World, r: nat, i: nat)
    requires Distinct(all) && Inv(all, w) && r < |w.replicas| && w.replicas[r].phase == Checking(i)
    ensures i <= w.replicas[r].size <= |all|
    ensures var size := w.replicas[r].size;
            var next := PerformAll(all, w, Remaining(all, w.versions, r, i, size));
            && r < |next.replicas| && next.replicas[r] == Replica(size, Returned(true))
            && next.versions == if size <= |w.versions| then w.versions else all[..size]
    decreases w.replicas[r].size - i
  {
    var size := w.replicas[r].size;
    assert ReplicaOk(all, w, w.replicas[r]);
    var checked := Perform(all, w, Check(r, true));
    PerformKeeps(all, w, Check(r, true));
    if i == size {
      OneStep(all, w, Check(r, true), []);
      assert [Check(r, true)] + [] == [Check(r, true)];
    } else {
      CheckIs(all, w, r, i);
      AppliedMeansBefore(all, w.versions, i);
      if all[i] in w.versions {
        OneStep(all, w, Check(r, true), Remaining(all, w.versions, r, i + 1, size));
        AloneItFinishes(all, checked, r, i + 1);
      } else {
        PerformKeeps(all, checked, Commit(r, Fine));
        TwoSteps(all, w, Check(r, true), Commit(r, Fine), Remaining(all, w.versions + [all[i]], r, i + 1, size));
        AloneItFinishes(all, Perform(all, checked, Commit(r, Fine)), r, i + 1);
      }
    }
  }
}
