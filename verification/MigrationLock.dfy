/** Processes that migrate one database at the same time, kept apart by the existence of a lock table. */
module MigrationLock {

  type Migration = nat

  /** Where a process is in `migrate_db`. From `Reading` to `Dropping` it believes that it holds the lock. */
  datatype Pc =
    | Checking
    | Acquiring
    | Reading
    | Applying(todo: seq<Migration>)
    | Dropping(ok: bool)
    | Done(ok: bool)
  {
    predicate Inside() { Reading? || Applying? || Dropping? }
  }

  datatype Db = Db(pcs: seq<Pc>, locked: bool, applied: seq<Migration>)

  function Pending(all: seq<Migration>, applied: seq<Migration>): seq<Migration> {
    if all == [] then []
    else (if all[0] in applied then [] else [all[0]]) + Pending(all[1..], applied)
  }

  /** One step of process `i`; `fails` makes a migration fail, `overrides` is its override_existing_lock flag. */
  function Step(all: seq<Migration>, db: Db, i: nat, fails: bool, overrides: bool): Db
    requires i < |db.pcs|
  {
    match db.pcs[i]
    case Checking => db.(pcs := db.pcs[i := if Pending(all, db.applied) == [] then Done(true) else Acquiring])
    case Acquiring =>
      if !db.locked then db.(pcs := db.pcs[i := Reading], locked := true)
      else db.(pcs := db.pcs[i := if overrides then Reading else Checking])
    case Reading => db.(pcs := db.pcs[i := Applying(Pending(all, db.applied))])
    case Applying(todo) =>
      if todo == [] then db.(pcs := db.pcs[i := Dropping(true)])
      else if fails then db.(pcs := db.pcs[i := Dropping(false)])
      else db.(pcs := db.pcs[i := Applying(todo[1..])], applied := db.applied + [todo[0]])
    case Dropping(ok) => db.(pcs := db.pcs[i := Done(ok && db.locked)], locked := false)
    case Done(_) => db
  }

  function Start(n: nat): Db { Db(seq(n, i => Checking), false, []) }

  datatype Move = Move(process: nat, fails: bool)

  /** `overriders` are the processes called with override_existing_lock. */
  function Apply(all: seq<Migration>, overriders: set<nat>, db: Db, move: Move): Db {
    if move.process < |db.pcs| then Step(all, db, move.process, move.fails, move.process in overriders) else db
  }

  function Run(all: seq<Migration>, overriders: set<nat>, db: Db, moves: seq<Move>): Db
    decreases |moves|
  {
    if moves == [] then db else Run(all, overriders, Apply(all, overriders, db, moves[0]), moves[1..])
  }

  ghost predicate NoRepeats(s: seq<Migration>) { forall i, j | 0 <= i < j < |s| :: s[i] != s[j] }

  ghost predicate Disjoint(a: seq<Migration>, b: seq<Migration>) { forall m | m in a :: m !in b }

  ghost predicate Covered(all: seq<Migration>, applied: seq<Migration>, todo: seq<Migration>) {
    forall m | m in all :: m in applied || m in todo
  }

  /** What a process inside knows about the database. */
  ghost predicate Knows(all: seq<Migration>, applied: seq<Migration>, pc: Pc) {
    match pc
    case Applying(todo) => NoRepeats(todo) && Disjoint(todo, applied) && Covered(all, applied, todo)
                           && forall m | m in todo :: m in all
    case Dropping(true) => Covered(all, applied, [])
    case Done(true) => Covered(all, applied, [])
    case _ => true
  }

  /** At most one process is inside, the table exists exactly while one is, no migration is applied twice, and whoever
      returned successfully left nothing pending. */
  ghost predicate Safe(all: seq<Migration>, db: Db) {
    && (forall i, j | 0 <= i < j < |db.pcs| :: !(db.pcs[i].Inside() && db.pcs[j].Inside()))
    && (db.locked <==> exists i :: 0 <= i < |db.pcs| && db.pcs[i].Inside())
    && NoRepeats(db.applied) && (forall m | m in db.applied :: m in all)
    && (forall i | 0 <= i < |db.pcs| :: Knows(all, db.applied, db.pcs[i]))
  }

  lemma {:induction false} PendingIsRest(all: seq<Migration>, applied: seq<Migration>)
    requires NoRepeats(all)
    ensures NoRepeats(Pending(all, applied))
    ensures forall m :: m in Pending(all, applied) <==> m in all && m !in applied
  {
    if all != [] {
      PendingIsRest(all[1..], applied);
      assert all == [all[0]] + all[1..];
      assert forall m | m in Pending(all[1..], applied) :: m in all[1..];
    }
  }

  lemma {:induction false} ApplyingSafe(all: seq<Migration>, db: Db, i: nat, overrides: bool)
    requires NoRepeats(all) && Safe(all, db) && i < |db.pcs| && db.pcs[i].Applying? && db.pcs[i].todo != []
    ensures Safe(all, Step(all, db, i, false, overrides))
  {
    var todo := db.pcs[i].todo;
    var db' := Step(all, db, i, false, overrides);
    assert Knows(all, db.applied, db.pcs[i]);
    assert todo == [todo[0]] + todo[1..] && todo[0] in todo && todo[0] !in db.applied;
    assert db'.pcs[i].Inside();
    forall j | 0 <= j < |db.pcs| ensures Knows(all, db'.applied, db'.pcs[j]) {
      assert Knows(all, db.applied, db.pcs[j]);
    }
    forall a, b | 0 <= a < b < |db'.pcs| ensures !(db'.pcs[a].Inside() && db'.pcs[b].Inside()) {
      assert !(db.pcs[a].Inside() && db.pcs[b].Inside());
    }
  }

  /** Every step keeps all that, except overriding a lock that is held. */
  lemma {:induction false} StepSafe(all: seq<Migration>, db: Db, i: nat, fails: bool, overrides: bool)
    requires NoRepeats(all) && Safe(all, db) && i < |db.pcs|
    requires overrides && db.pcs[i].Acquiring? ==> !db.locked
    ensures Safe(all, Step(all, db, i, fails, overrides))
  {
    PendingIsRest(all, db.applied);
    var pc, db' := db.pcs[i], Step(all, db, i, fails, overrides);
    if pc.Applying? && pc.todo != [] && !fails {
      ApplyingSafe(all, db, i, overrides);
    } else {
      forall a, b | 0 <= a < b < |db'.pcs| ensures !(db'.pcs[a].Inside() && db'.pcs[b].Inside()) {
        assert !(db.pcs[a].Inside() && db.pcs[b].Inside());
      }
      assert pc.Inside() ==> forall j | 0 <= j < |db.pcs| && j != i :: !db.pcs[j].Inside();
      assert db'.pcs[i].Inside() ==> db'.locked;
      assert forall j | 0 <= j < |db.pcs| && j != i :: db'.pcs[j] == db.pcs[j];
      forall j | 0 <= j < |db.pcs| ensures Knows(all, db'.applied, db'.pcs[j]) {
        assert Knows(all, db.applied, db.pcs[j]);
      }
    }
  }

  /** Nobody who might override can meet a lock held by another process. */
  ghost predicate Harmless(all: seq<Migration>, n: nat, overriders: set<nat>) {
    all == [] || n < 2 || forall i | i in overriders :: i >= n
  }

  /** Without migrations nobody even tries to take the lock. */
  ghost predicate NobodyAcquires(db: Db) { forall i | 0 <= i < |db.pcs| :: !db.pcs[i].Acquiring? }

  lemma {:induction false} RunSafe(all: seq<Migration>, overriders: set<nat>, db: Db, moves: seq<Move>)
    requires NoRepeats(all) && Safe(all, db) && Harmless(all, |db.pcs|, overriders)
    requires all == [] ==> NobodyAcquires(db)
    ensures Safe(all, Run(all, overriders, db, moves))
    decreases |moves|
  {
    if moves != [] {
      var db' := Apply(all, overriders, db, moves[0]);
      if moves[0].process < |db.pcs| {
        StepSafe(all, db, moves[0].process, moves[0].fails, moves[0].process in overriders);
      }
      RunSafe(all, overriders, db', moves[1..]);
    }
  }

  /** However any number of processes interleave, without overrides the lock does its job. */
  lemma {:induction false} MigrationsAreSafe(all: seq<Migration>, n: nat, overriders: set<nat>, moves: seq<Move>)
    requires NoRepeats(all) && Harmless(all, n, overriders)
    ensures Safe(all, Run(all, overriders, Start(n), moves))
  {
    RunSafe(all, overriders, Start(n), moves);
  }

  lemma {:induction false} RunAppend(all: seq<Migration>, overriders: set<nat>, db: Db, a: seq<Move>, b: seq<Move>)
    ensures Run(all, overriders, db, a + b) == Run(all, overriders, Run(all, overriders, db, a), b)
    decreases |a|
  {
    if a == [] {
      assert a + b == b;
    } else {
      assert (a + b)[1..] == a[1..] + b;
      RunAppend(all, overriders, Apply(all, overriders, db, a[0]), a[1..], b);
    }
  }

  lemma {:induction false} NothingAppliedYet(all: seq<Migration>)
    ensures Pending(all, []) == all
  {
    if all != [] {
      NothingAppliedYet(all[1..]);
    }
  }

  /** Three moves bring a process that is not kept out from the start to applying all migrations. */
  lemma {:induction false} Enters(all: seq<Migration>, overriders: set<nat>, db: Db, i: nat)
    requires all != [] && i < |db.pcs| && db.pcs[i] == Checking && db.applied == []
    requires db.locked ==> i in overriders
    ensures Run(all, overriders, db, [Move(i, false), Move(i, false), Move(i, false)])
            == Db(db.pcs[i := Applying(all)], true, [])
  {
    NothingAppliedYet(all);
    var m := Move(i, false);
    var db1 := Apply(all, overriders, db, m);
    var db2 := Apply(all, overriders, db1, m);
    var db3 := Apply(all, overriders, db2, m);
    assert [m, m, m][1..] == [m, m] && [m, m][1..] == [m] && [m][1..] == [];
    assert Run(all, overriders, db2, [m]) == Run(all, overriders, db3, []) == db3;
    assert Run(all, overriders, db1, [m, m]) == db3;
  }

  /** One process that overrides is enough: with any other process it can apply the same migration twice. */
  lemma {:induction false} OverrideAppliesTwice(all: seq<Migration>, n: nat, overriders: set<nat>, o: nat, p: nat)
    returns (moves: seq<Move>)
    requires all != [] && o < n && p < n && o != p && o in overriders
    ensures Run(all, overriders, Start(n), moves).applied == [all[0], all[0]]
  {
    var a, b := Move(p, false), Move(o, false);
    var start := Start(n);
    Enters(all, overriders, start, p);
    var one := Run(all, overriders, start, [a, a, a]);
    Enters(all, overriders, one, o);
    var two := Run(all, overriders, one, [b, b, b]);
    var three := Apply(all, overriders, two, a);
    var four := Apply(all, overriders, three, b);
    assert three.applied == [all[0]] && four.applied == [all[0], all[0]];
    assert [a, b][1..] == [b] && [b][1..] == [];
    assert Run(all, overriders, three, [b]) == Run(all, overriders, four, []);
    assert Run(all, overriders, two, [a, b]) == four;
    RunAppend(all, overriders, start, [a, a, a], [b, b, b] + [a, b]);
    RunAppend(all, overriders, one, [b, b, b], [a, b]);
    moves := [a, a, a] + ([b, b, b] + [a, b]);
  }

  /** The lock does its job in all runs exactly when no override can meet a held lock. */
  lemma {:induction false} SafeIffHarmless(all: seq<Migration>, n: nat, overriders: set<nat>)
    requires NoRepeats(all)
    ensures (forall moves :: Safe(all, Run(all, overriders, Start(n), moves))) <==> Harmless(all, n, overriders)
  {
    if Harmless(all, n, overriders) {
      forall moves ensures Safe(all, Run(all, overriders, Start(n), moves)) {
        MigrationsAreSafe(all, n, overriders, moves);
      }
    } else {
      var o :| o in overriders && o < n;
      var moves := OverrideAppliesTwice(all, n, overriders, o, if o == 0 then 1 else 0);
      var applied := Run(all, overriders, Start(n), moves).applied;
      assert applied[0] == applied[1];
    }
  }

  // ----- returning -----

  /** The process has not failed. */
  predicate Unfailed(pc: Pc) { pc != Dropping(false) && pc != Done(false) }

  lemma {:induction false} StepUnfailed(all: seq<Migration>, db: Db, i: nat, fails: bool, overrides: bool, j: nat)
    requires Safe(all, db) && i < |db.pcs| && j < |db.pcs| && (i == j ==> !fails) && Unfailed(db.pcs[j])
    ensures Unfailed(Step(all, db, i, fails, overrides).pcs[j])
  {
    assert db.pcs[i].Inside() ==> db.locked;
  }

  lemma {:induction false} MoveUnfailed(all: seq<Migration>, overriders: set<nat>, db: Db, move: Move, j: nat, db': Db)
    requires NoRepeats(all) && Safe(all, db) && Harmless(all, |db.pcs|, overriders)
    requires all == [] ==> NobodyAcquires(db)
    requires j < |db.pcs| && Unfailed(db.pcs[j]) && (move.process == j ==> !move.fails)
    requires db' == Apply(all, overriders, db, move)
    ensures |db'.pcs| == |db.pcs| && Safe(all, db') && Unfailed(db'.pcs[j])
    ensures all == [] ==> NobodyAcquires(db')
  {
    var i := move.process;
    if i < |db.pcs| {
      StepUnfailed(all, db, i, move.fails, i in overriders, j);
      StepSafe(all, db, i, move.fails, i in overriders);
    }
  }

  lemma {:induction false} RunUnfailed(all: seq<Migration>, overriders: set<nat>, db: Db, moves: seq<Move>, j: nat)
    requires NoRepeats(all) && Safe(all, db) && Harmless(all, |db.pcs|, overriders)
    requires all == [] ==> NobodyAcquires(db)
    requires j < |db.pcs| && Unfailed(db.pcs[j])
    requires forall k | 0 <= k < |moves| :: moves[k].process == j ==> !moves[k].fails
    ensures |Run(all, overriders, db, moves).pcs| == |db.pcs|
    ensures Unfailed(Run(all, overriders, db, moves).pcs[j])
    decreases |moves|
  {
    if moves != [] {
      var db' := Apply(all, overriders, db, moves[0]);
      MoveUnfailed(all, overriders, db, moves[0], j, db');
      RunUnfailed(all, overriders, db', moves[1..], j);
    }
  }

  /** Where no override can meet a held lock, a process returns an error only if one of its own migrations failed. */
  lemma {:induction false} ErrorsAreOwn(all: seq<Migration>, n: nat, overriders: set<nat>, moves: seq<Move>, j: nat)
    requires NoRepeats(all) && Harmless(all, n, overriders) && j < n
    requires forall k | 0 <= k < |moves| :: moves[k].process == j ==> !moves[k].fails
    ensures var db := Run(all, overriders, Start(n), moves); j < |db.pcs| && db.pcs[j] != Done(false)
  {
    RunUnfailed(all, overriders, Start(n), moves, j);
  }

  predicate NoneFails(moves: seq<Move>) { forall k | 0 <= k < |moves| :: !moves[k].fails }

  ghost predicate NobodyInside(db: Db) { forall j | 0 <= j < |db.pcs| :: !db.pcs[j].Inside() }

  /** How many steps a process that is not kept out still needs at most. */
  function Ahead(all: seq<Migration>, pc: Pc): nat {
    match pc
    case Done(_) => 0
    case Dropping(_) => 1
    case Applying(todo) => 2 + |todo|
    case Reading => 3 + |all|
    case Acquiring => 4 + |all|
    case Checking => 5 + |all|
  }

  lemma {:induction false} PendingIsShort(all: seq<Migration>, applied: seq<Migration>)
    ensures |Pending(all, applied)| <= |all|
  {
    if all != [] {
      PendingIsShort(all[1..], applied);
    }
  }

  /** One step of a process that is inside, or that finds nobody inside. */
  lemma {:induction false} StepAhead(all: seq<Migration>, db: Db, i: nat, overrides: bool, db': Db)
    requires NoRepeats(all) && Safe(all, db) && i < |db.pcs| && !db.pcs[i].Done?
    requires db.pcs[i].Inside() || NobodyInside(db)
    requires db' == Step(all, db, i, false, overrides)
    ensures Safe(all, db') && |db'.pcs| == |db.pcs| && Ahead(all, db'.pcs[i]) < Ahead(all, db.pcs[i])
    ensures forall j | 0 <= j < |db.pcs| && j != i :: db'.pcs[j] == db.pcs[j]
    ensures db'.pcs[i].Inside() || NobodyInside(db')
    ensures Unfailed(db'.pcs[i]) <==> Unfailed(db.pcs[i])
  {
    PendingIsShort(all, db.applied);
    assert db.pcs[i].Inside() ==> db.locked && forall j | 0 <= j < |db.pcs| && j != i :: !db.pcs[j].Inside();
    StepSafe(all, db, i, false, overrides);
  }

  /** Left alone, such a process returns, with success unless it has failed before. */
  lemma {:induction false} Finish(all: seq<Migration>, overriders: set<nat>, db: Db, i: nat)
    returns (moves: seq<Move>, db': Db)
    requires NoRepeats(all) && Safe(all, db) && i < |db.pcs| && (db.pcs[i].Inside() || NobodyInside(db))
    ensures Run(all, overriders, db, moves) == db' && |db'.pcs| == |db.pcs| && Safe(all, db') && NobodyInside(db')
    ensures db'.pcs[i] == Done(Unfailed(db.pcs[i]))
    ensures forall j | 0 <= j < |db.pcs| && j != i :: db'.pcs[j] == db.pcs[j]
    ensures NoneFails(moves)
    decreases Ahead(all, db.pcs[i])
  {
    if db.pcs[i].Done? {
      moves, db' := [], db;
    } else {
      var next := Step(all, db, i, false, i in overriders);
      StepAhead(all, db, i, i in overriders, next);
      var rest;
      rest, db' := Finish(all, overriders, next, i);
      moves := [Move(i, false)] + rest;
      assert moves[1..] == rest;
    }
  }

  /** Nobody inside: the processes from `i` on can all return, one after the other. */
  lemma {:induction false} FinishFrom(all: seq<Migration>, overriders: set<nat>, db: Db, i: nat)
    returns (moves: seq<Move>, db': Db)
    requires NoRepeats(all) && Safe(all, db) && i <= |db.pcs| && NobodyInside(db)
    ensures Run(all, overriders, db, moves) == db' && |db'.pcs| == |db.pcs|
    ensures forall j | 0 <= j < |db.pcs| :: db'.pcs[j] == if j < i then db.pcs[j] else Done(Unfailed(db.pcs[j]))
    ensures NoneFails(moves)
    decreases |db.pcs| - i
  {
    if i == |db.pcs| {
      moves, db' := [], db;
    } else {
      var first, mid := Finish(all, overriders, db, i);
      var rest;
      rest, db' := FinishFrom(all, overriders, mid, i + 1);
      moves := first + rest;
      RunAppend(all, overriders, db, first, rest);
    }
  }

  /** Whatever happened before, where no override can meet a held lock all processes can still return, exactly those
      with an error that had failed: no process is kept out for ever. */
  lemma {:induction false} AllCanReturn(all: seq<Migration>, n: nat, overriders: set<nat>, before: seq<Move>)
    returns (moves: seq<Move>)
    requires NoRepeats(all) && Harmless(all, n, overriders)
    ensures var db, end := Run(all, overriders, Start(n), before), Run(all, overriders, Start(n), before + moves);
      && |db.pcs| == |end.pcs|
      && forall j | 0 <= j < |db.pcs| :: end.pcs[j] == Done(Unfailed(db.pcs[j]))
  {
    var db := Run(all, overriders, Start(n), before);
    MigrationsAreSafe(all, n, overriders, before);
    var first, mid := [], db;
    if i :| 0 <= i < |db.pcs| && db.pcs[i].Inside() {
      first, mid := Finish(all, overriders, db, i);
    }
    var rest, end := FinishFrom(all, overriders, mid, 0);
    moves := first + rest;
    RunAppend(all, overriders, db, first, rest);
    RunAppend(all, overriders, Start(n), before, moves);
  }

  // ----- returning with overrides -----

  /** A process that applies `todo` does so and drops the lock, which fails if somebody else has dropped it before. */
  lemma {:induction false} ApplyRest(all: seq<Migration>, overriders: set<nat>, db: Db, i: nat)
    returns (moves: seq<Move>)
    requires i < |db.pcs| && db.pcs[i].Applying?
    ensures Run(all, overriders, db, moves)
            == Db(db.pcs[i := Done(db.locked)], false, db.applied + db.pcs[i].todo)
    ensures NoneFails(moves)
    decreases |db.pcs[i].todo|
  {
    var move, todo := Move(i, false), db.pcs[i].todo;
    if todo == [] {
      moves := [move, move];
      var next := Apply(all, overriders, db, move);
      assert next == Db(db.pcs[i := Dropping(true)], db.locked, db.applied);
      var end := Apply(all, overriders, next, move);
      assert end.pcs == db.pcs[i := Done(db.locked)];
      assert moves[1..] == [move] && [move][1..] == [];
      assert Run(all, overriders, next, [move]) == Run(all, overriders, end, []) == end;
      assert db.applied + todo == db.applied;
    } else {
      var next := Apply(all, overriders, db, move);
      var rest := ApplyRest(all, overriders, next, i);
      moves := [move] + rest;
      assert moves[1..] == rest;
      assert next.pcs[i := Done(db.locked)] == db.pcs[i := Done(db.locked)];
      assert db.applied + [todo[0]] + todo[1..] == db.applied + todo;
    }
  }

  /** With an override and any other process, some run without a failing migration applies all migrations twice and ends
      in an error, because the second drop finds no lock. */
  lemma {:induction false} OverrideEndsInError(all: seq<Migration>, n: nat, overriders: set<nat>, o: nat, p: nat)
    returns (moves: seq<Move>)
    requires all != [] && o < n && p < n && o != p && o in overriders
    ensures var db := Run(all, overriders, Start(n), moves);
      |db.pcs| == n && db.pcs[p] == Done(true) && db.pcs[o] == Done(false) && db.applied == all + all
    ensures NoneFails(moves)
  {
    var a, b := Move(p, false), Move(o, false);
    var start := Start(n);
    Enters(all, overriders, start, p);
    var one := Run(all, overriders, start, [a, a, a]);
    Enters(all, overriders, one, o);
    var two := Run(all, overriders, one, [b, b, b]);
    var first := ApplyRest(all, overriders, two, p);
    var three := Run(all, overriders, two, first);
    var second := ApplyRest(all, overriders, three, o);
    RunAppend(all, overriders, two, first, second);
    RunAppend(all, overriders, one, [b, b, b], first + second);
    RunAppend(all, overriders, start, [a, a, a], [b, b, b] + (first + second));
    moves := [a, a, a] + ([b, b, b] + (first + second));
    assert [] + all + all == all + all;
  }

  /** Without failing migrations no process ever returns an error exactly when no override can meet a held lock. */
  lemma {:induction false} NoErrorsIffHarmless(all: seq<Migration>, n: nat, overriders: set<nat>)
    requires NoRepeats(all)
    ensures (forall moves: seq<Move>, j | 0 <= j < n && NoneFails(moves) ::
               Outcome(all, n, overriders, moves, j) != Done(false))
            <==> Harmless(all, n, overriders)
  {
    if Harmless(all, n, overriders) {
      forall moves: seq<Move>, j | 0 <= j < n && NoneFails(moves)
        ensures Outcome(all, n, overriders, moves, j) != Done(false)
      {
        ErrorsAreOwn(all, n, overriders, moves, j);
      }
    } else {
      var o :| o in overriders && o < n;
      var moves := OverrideEndsInError(all, n, overriders, o, if o == 0 then 1 else 0);
      assert Outcome(all, n, overriders, moves, o) == Done(false);
    }
  }

  /** Where process `j` ends up. */
  ghost function Outcome(all: seq<Migration>, n: nat, overriders: set<nat>, moves: seq<Move>, j: nat): Pc {
    var pcs := Run(all, overriders, Start(n), moves).pcs;
    if j < |pcs| then pcs[j] else Checking
  }
}
