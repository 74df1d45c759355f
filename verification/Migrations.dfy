/**
 * The schema version table and the two migrators that share it. A run may die between any two statements,
 * so a run carries a budget: the number of its statements that take effect. The Python migrator inserts each
 * version it reaches; the Rust one sets every row to it, which the primary key refuses when there are two
 * rows or more.
 */
module Migrations {
  import opened Prelude

  datatype Language = Python | Rust

  /** Rows of lapinq_schema_version (none, too, while the table is missing), and the migrations executed so far. */
  datatype Schema = Schema(versions: set<nat>, log: seq<nat>)

  predicate IsMax(versions: set<nat>, m: nat) {
    m in versions && forall v :: v in versions ==> v <= m
  }

  lemma {:induction false} MaxExists(versions: set<nat>)
    requires versions != {}
    ensures exists m :: IsMax(versions, m)
  {
    var v :| v in versions;
    var rest := versions - {v};
    if rest == {} {
      assert versions == {v};
      assert IsMax(versions, v);
    } else {
      MaxExists(rest);
      var m :| IsMax(rest, m);
      assert versions == rest + {v};
      assert IsMax(versions, if v > m then v else m);
    }
  }

  /** COALESCE(MAX(version), 0). */
  function Current(versions: set<nat>): (m: nat)
    ensures if versions == {} then m == 0 else IsMax(versions, m)
  {
    if versions == {} then 0
    else
      MaxExists(versions);
      var m :| m in versions && IsMax(versions, m);
      m
  }

  /** UPDATE ... SET version = v, or None when the primary key refuses it. */
  function SetAll(versions: set<nat>, v: nat): Option<set<nat>> {
    if |versions| >= 2 then None else Some(set x | x in versions :: v)
  }

  function Recorded(lang: Language, versions: set<nat>, v: nat): Option<set<nat>> {
    if lang == Python then Some(versions + {v}) else SetAll(versions, v)
  }

  /** How a run ends: at its last statement, or short of it. */
  datatype Ending = Ending(schema: Schema, finished: bool)

  /** Migration v executed, and then recorded. */
  function Step(lang: Language, s: Schema, v: nat, budget: nat): (e: Ending)
    ensures e.finished ==> budget >= 2
  {
    if budget == 0 then Ending(s, false)
    else
      var executed := s.(log := s.log + [v]);
      var recorded := Recorded(lang, s.versions, v);
      if budget == 1 || recorded.None? then Ending(executed, false)
      else Ending(executed.(versions := recorded.value), true)
  }

  /** The run from migration v on, of n. */
  function From(lang: Language, s: Schema, v: nat, n: nat, budget: nat): Ending
    decreases n + 1 - v
  {
    if v > n then Ending(s, true)
    else
      var step := Step(lang, s, v, budget);
      if step.finished then From(lang, step.schema, v + 1, n, budget - 2) else step
  }

  /** A whole run of a migrator that knows n migrations. */
  function Migrated(lang: Language, s: Schema, n: nat, budget: nat): Ending {
    var current := Current(s.versions);
    if current == 0 && budget == 0 then Ending(s, false)
    else if current == 0 then From(lang, s.(versions := s.versions + {0}), 1, n, budget - 1)
    else From(lang, s, if current < n then current + 1 else n + 1, n, budget)
  }

  class Database {
    var schema: Schema

    constructor ()
      ensures schema == Schema({}, [])
    {
      schema := Schema({}, []);
    }

    /** One turn of the loop; false when the run dies, or is refused, before the version is recorded. */
    method Apply(lang: Language, version: nat, left: nat) returns (done: bool)
      modifies this
      ensures Ending(schema, done) == Step(lang, old(schema), version, left)
    {
      if left == 0 { return false; }
      schema := schema.(log := schema.log + [version]);
      var recorded := Recorded(lang, schema.versions, version);
      if left == 1 || recorded.None? { return false; }
      schema := schema.(versions := recorded.value);
      done := true;
    }

    method Migrate(lang: Language, n: nat, budget: nat) returns (finished: bool)
      modifies this
      ensures Ending(schema, finished) == Migrated(lang, old(schema), n, budget)
    {
      var left := budget;
      var current := Current(schema.versions);
      if current == 0 {
        if left == 0 { return false; }
        schema := schema.(versions := schema.versions + {0});
        left := left - 1;
      }
      ghost var start := if current < n then current + 1 else n + 1;
      for i := 0 to n
        invariant Migrated(lang, old(schema), n, budget)
               == From(lang, schema, if i + 1 < start then start else i + 1, n, left)
      {
        var version := i + 1;
        if version > current {
          var done := Apply(lang, version, left);
          if !done { return false; }
          left := left - 2;
        }
      }
      finished := true;
    }
  }

  // ---- The version table ---------------------------------------------------------------------

  lemma RecordedIs(lang: Language, versions: set<nat>, v: nat)
    requires versions != {} && Current(versions) <= v
    ensures Recorded(lang, versions, v).None? <==> lang == Rust && |versions| >= 2
    ensures Recorded(lang, versions, v).Some? ==>
              var after := Recorded(lang, versions, v).value;
              IsMax(after, v) && Current(after) == v && (lang == Rust ==> after == {v})
  {
  }

  // ---- What the log promises -----------------------------------------------------------------

  function Last(log: seq<nat>): nat {
    if log == [] then 0 else log[|log| - 1]
  }

  /** Each migration executed is the one executed before it, tried again, or the next. */
  predicate InOrder(log: seq<nat>) {
    forall i :: 0 <= i < |log| ==> FollowsAt(log, i)
  }

  predicate FollowsAt(log: seq<nat>, i: nat)
    requires i < |log|
  {
    if i == 0 then log[0] == 1 else log[i - 1] <= log[i] <= log[i - 1] + 1
  }

  /** The table names an executed prefix: all that ran, or all but the last. */
  predicate Faithful(s: Schema) {
    && InOrder(s.log)
    && Current(s.versions) <= Last(s.log) <= Current(s.versions) + 1
    && (s.log != [] ==> s.versions != {})
  }

  lemma InOrderNext(log: seq<nat>, v: nat)
    requires InOrder(log) && v >= 1 && Last(log) <= v <= Last(log) + 1
    ensures InOrder(log + [v]) && Last(log + [v]) == v
  {
    var more := log + [v];
    forall i | 0 <= i < |more| ensures FollowsAt(more, i) {
      if i < |log| {
        assert FollowsAt(log, i);
      }
    }
  }

  /** An ordered log has executed every migration up to its last, and none beyond. */
  lemma {:induction false} ExecutedAll(log: seq<nat>, v: nat)
    requires InOrder(log)
    ensures 1 <= v <= Last(log) <==> v in log
  {
    if log != [] {
      var rest := log[..|log| - 1];
      assert log == rest + [log[|log| - 1]];
      forall i | 0 <= i < |rest| ensures FollowsAt(rest, i) {
        assert FollowsAt(log, i);
      }
      ExecutedAll(rest, v);
      assert FollowsAt(log, |log| - 1);
    }
  }

  /** Migrations executed beyond those recorded: repeats after crashes, and one perhaps not yet recorded. */
  function Surplus(s: Schema): int {
    |s.log| - Current(s.versions)
  }

  /** What a run does to a schema; a run that finishes adds no surplus. */
  predicate Extends(a: Schema, e: Ending) {
    && Faithful(e.schema) && a.log <= e.schema.log
    && Current(a.versions) <= Current(e.schema.versions)
    && Surplus(a) <= Surplus(e.schema) <= Surplus(a) + (if e.finished then 0 else 1)
  }

  /** Migration v is the next. */
  predicate Ready(versions: set<nat>, v: nat) {
    versions != {} && v == Current(versions) + 1
  }

  lemma StepExtends(lang: Language, s: Schema, v: nat, budget: nat)
    requires Faithful(s) && Ready(s.versions, v)
    ensures var e := Step(lang, s, v, budget);
            Extends(s, e) && (e.finished ==> Ready(e.schema.versions, v + 1))
  {
    InOrderNext(s.log, v);
    RecordedIs(lang, s.versions, v);
  }

  lemma ExtendsSelf(s: Schema)
    requires Faithful(s)
    ensures Extends(s, Ending(s, true))
  {
  }

  lemma ExtendsOn(a: Schema, b: Schema, e: Ending)
    requires Extends(a, Ending(b, true)) && Extends(b, e)
    ensures Extends(a, e)
  {
  }

  lemma {:induction false} FromExtends(lang: Language, s: Schema, v: nat, n: nat, budget: nat)
    requires Faithful(s) && (v <= n ==> Ready(s.versions, v))
    ensures Extends(s, From(lang, s, v, n, budget))
    decreases n + 1 - v
  {
    if v <= n {
      StepExtends(lang, s, v, budget);
      var step := Step(lang, s, v, budget);
      if step.finished {
        FromExtends(lang, step.schema, v + 1, n, budget - 2);
        ExtendsOn(s, step.schema, From(lang, step.schema, v + 1, n, budget - 2));
      }
    } else {
      ExtendsSelf(s);
    }
  }

  lemma StartKeeps(s: Schema)
    requires Faithful(s) && Current(s.versions) == 0
    ensures Faithful(s.(versions := s.versions + {0})) && Current(s.versions + {0}) == 0
  {
  }

  /** Every run of either migrator, wherever it dies, keeps the table faithful to what has been executed. */
  lemma MigratedExtends(lang: Language, s: Schema, n: nat, budget: nat)
    requires Faithful(s)
    ensures Extends(s, Migrated(lang, s, n, budget))
  {
    if Current(s.versions) == 0 && budget > 0 {
      StartKeeps(s);
      FromExtends(lang, s.(versions := s.versions + {0}), 1, n, budget - 1);
    } else if Current(s.versions) > 0 {
      var current := Current(s.versions);
      FromExtends(lang, s, if current < n then current + 1 else n + 1, n, budget);
    }
  }

  // ---- Serial runs ---------------------------------------------------------------------------

  datatype Run = Run(lang: Language, n: nat, budget: nat)

  /** The schema after a series of runs, from an empty database. */
  function After(rs: seq<Run>): Schema {
    if rs == [] then Schema({}, [])
    else
      var r := rs[|rs| - 1];
      Migrated(r.lang, After(rs[..|rs| - 1]), r.n, r.budget).schema
  }

  /** How many of the runs stopped short. */
  function Interrupted(rs: seq<Run>): nat {
    if rs == [] then 0
    else
      var r, before := rs[|rs| - 1], rs[..|rs| - 1];
      Interrupted(before) + (if Migrated(r.lang, After(before), r.n, r.budget).finished then 0 else 1)
  }

  lemma {:induction false} AlwaysFaithful(rs: seq<Run>)
    ensures Faithful(After(rs)) && 0 <= Surplus(After(rs)) <= Interrupted(rs)
  {
    if rs != [] {
      var r, before := rs[|rs| - 1], rs[..|rs| - 1];
      AlwaysFaithful(before);
      MigratedExtends(r.lang, After(before), r.n, r.budget);
    }
  }

  lemma {:induction false} RunsOnlyAdd(rs: seq<Run>, k: nat)
    requires k <= |rs|
    ensures Current(After(rs[..k]).versions) <= Current(After(rs).versions)
    ensures After(rs[..k]).log <= After(rs).log
    decreases |rs| - k
  {
    if k == |rs| {
      assert rs[..k] == rs;
    } else {
      var r := rs[k];
      RunsOnlyAdd(rs, k + 1);
      assert rs[..k + 1][..k] == rs[..k];
      AlwaysFaithful(rs[..k]);
      MigratedExtends(r.lang, After(rs[..k]), r.n, r.budget);
    }
  }

  /**
   * After any series of runs the recorded version names a prefix of the migrations that were executed in
   * order; at most one more has run; and the repeats are no more than the runs that stopped short.
   */
  lemma {:induction false} VersionNamesAPrefix(rs: seq<Run>, v: nat)
    ensures InOrder(After(rs).log)
    ensures 1 <= v <= Current(After(rs).versions) ==> v in After(rs).log
    ensures v in After(rs).log ==> 1 <= v <= Current(After(rs).versions) + 1
    ensures |After(rs).log| <= Current(After(rs).versions) + Interrupted(rs)
  {
    AlwaysFaithful(rs);
    ExecutedAll(After(rs).log, v);
  }

  // ---- When a run finishes -------------------------------------------------------------------

  /** Statements a run has to make, at most. */
  function Statements(current: nat, n: nat): nat {
    (if current == 0 then 1 else 0) + (if current < n then 2 * (n - current) else 0)
  }

  /** The Rust migrator's UPDATE has two rows or more to set to one version. */
  predicate Refused(lang: Language, s: Schema, n: nat) {
    lang == Rust && |s.versions| >= 2 && Current(s.versions) < n
  }

  lemma StepFinishes(lang: Language, s: Schema, v: nat, budget: nat)
    requires Ready(s.versions, v)
    ensures var e := Step(lang, s, v, budget);
            && (e.finished <==> budget >= 2 && !(lang == Rust && |s.versions| >= 2))
            && (e.finished ==> Ready(e.schema.versions, v + 1))
            && (e.finished && lang == Rust ==> e.schema.versions == {v})
  {
    RecordedIs(lang, s.versions, v);
  }

  lemma {:induction false} FromFinishes(lang: Language, s: Schema, v: nat, n: nat, budget: nat)
    requires Ready(s.versions, v) && v <= n + 1
    ensures var e := From(lang, s, v, n, budget);
            && (e.finished <==> v > n || (budget >= 2 * (n + 1 - v) && !(lang == Rust && |s.versions| >= 2)))
            && (e.finished ==> Ready(e.schema.versions, n + 1))
    decreases n + 1 - v
  {
    if v <= n {
      StepFinishes(lang, s, v, budget);
      var step := Step(lang, s, v, budget);
      if step.finished {
        FromFinishes(lang, step.schema, v + 1, n, budget - 2);
      }
    }
  }

  lemma OnlyZero(versions: set<nat>)
    requires Current(versions) == 0
    ensures |versions| <= 1 && versions + {0} == {0}
  {
    SubsetSize(versions, {0});
  }

  lemma FreshFinishes(lang: Language, s: Schema, n: nat, budget: nat)
    requires Current(s.versions) == 0
    ensures var e := Migrated(lang, s, n, budget);
            && (e.finished <==> budget >= Statements(0, n))
            && (e.finished ==> Current(e.schema.versions) == n)
  {
    OnlyZero(s.versions);
    if budget > 0 {
      FromFinishes(lang, s.(versions := {0}), 1, n, budget - 1);
    }
  }

  /** A run finishes exactly when it is given its statements and the primary key does not refuse them. */
  lemma FinishesExactlyWhen(lang: Language, s: Schema, n: nat, budget: nat)
    ensures Migrated(lang, s, n, budget).finished
            <==> budget >= Statements(Current(s.versions), n) && !Refused(lang, s, n)
  {
    var current := Current(s.versions);
    if current == 0 {
      OnlyZero(s.versions);
      FreshFinishes(lang, s, n, budget);
    } else if current < n {
      FromFinishes(lang, s, current + 1, n, budget);
    }
  }

  /** A run that finishes leaves the larger of the version it found and its own. */
  lemma FinishedRunReaches(lang: Language, s: Schema, n: nat, budget: nat)
    requires Migrated(lang, s, n, budget).finished
    ensures Current(Migrated(lang, s, n, budget).schema.versions)
         == if Current(s.versions) < n then n else Current(s.versions)
  {
    var current := Current(s.versions);
    if current == 0 {
      FreshFinishes(lang, s, n, budget);
    } else if current < n {
      FromFinishes(lang, s, current + 1, n, budget);
    }
  }

  /** A later run that knows no more migrations executes none, changes nothing and finishes. */
  lemma RerunIsIdle(first: Language, second: Language, s: Schema, n: nat, m: nat, budget: nat, again: nat)
    requires Migrated(first, s, n, budget).finished && 1 <= n && m <= n
    ensures var e := Migrated(first, s, n, budget); Migrated(second, e.schema, m, again) == e
  {
    FinishedRunReaches(first, s, n, budget);
  }

  /** A run that knows no more migrations than a database has recorded does nothing at all. */
  lemma KnownRunIsIdle(lang: Language, s: Schema, n: nat, budget: nat)
    requires n <= Current(s.versions) && Current(s.versions) > 0
    ensures Migrated(lang, s, n, budget) == Ending(s, true)
  {
  }

  // ---- The Rust migrator's primary key -------------------------------------------------------

  /** The Rust migrator, which knows one migration, is never refused. */
  lemma RustIsNotRefusedYet(s: Schema, budget: nat)
    requires budget >= 3
    ensures Migrated(Rust, s, 1, budget).finished
  {
    FinishesExactlyWhen(Rust, s, 1, budget);
    if Current(s.versions) == 0 {
      OnlyZero(s.versions);
    }
  }

  lemma {:induction false} FromKeepsRows(lang: Language, s: Schema, v: nat, n: nat, budget: nat, row: nat)
    requires row in s.versions && (lang == Python || |s.versions| >= 2)
    ensures row in From(lang, s, v, n, budget).schema.versions
    decreases n + 1 - v
  {
    if v <= n {
      var step := Step(lang, s, v, budget);
      if step.finished {
        FromKeepsRows(lang, step.schema, v + 1, n, budget - 2, row);
      }
    }
  }

  /** A run that finishes and had something to do leaves two rows or more, if it is a Python run. */
  lemma PythonLeavesManyRows(s: Schema, n: nat, budget: nat)
    requires Current(s.versions) < n && Migrated(Python, s, n, budget).finished
    ensures |Migrated(Python, s, n, budget).schema.versions| >= 2
  {
    var current, after := Current(s.versions), Migrated(Python, s, n, budget).schema.versions;
    FinishedRunReaches(Python, s, n, budget);
    if current == 0 {
      FromKeepsRows(Python, s.(versions := s.versions + {0}), 1, n, budget - 1, 0);
    } else {
      FromKeepsRows(Python, s, current + 1, n, budget, current);
    }
    SubsetSize({current, n}, after);
  }

  lemma ManyRowsStay(lang: Language, s: Schema, n: nat, budget: nat)
    requires |s.versions| >= 2
    ensures s.versions <= Migrated(lang, s, n, budget).schema.versions
  {
    var current := Current(s.versions);
    if current == 0 {
      OnlyZero(s.versions);
    } else {
      forall row | row in s.versions ensures row in Migrated(lang, s, n, budget).schema.versions {
        FromKeepsRows(lang, s, if current < n then current + 1 else n + 1, n, budget, row);
      }
    }
  }

  /** From then on, over any serial runs of either migrator, no row goes away. */
  lemma {:induction false} RowsOnlyGrow(rs: seq<Run>, k: nat)
    requires k <= |rs| && |After(rs[..k]).versions| >= 2
    ensures After(rs[..k]).versions <= After(rs).versions
    decreases |rs| - k
  {
    if k == |rs| {
      assert rs[..k] == rs;
    } else {
      var before, r := After(rs[..k]), rs[k];
      assert rs[..k + 1][..k] == rs[..k];
      ManyRowsStay(r.lang, before, r.n, r.budget);
      SubsetSize(before.versions, After(rs[..k + 1]).versions);
      RowsOnlyGrow(rs, k + 1);
    }
  }

  predicate ShutOut(s: Schema, n: nat, budget: nat) {
    var current, e := Current(s.versions), Migrated(Rust, s, n, budget);
    && e.schema.versions == s.versions
    && (e.finished <==> n <= current)
    && e.schema.log == (if n > current && budget > 0 then s.log + [current + 1] else s.log)
  }

  lemma ManyRowsShutOut(s: Schema, n: nat, budget: nat)
    requires |s.versions| >= 2
    ensures ShutOut(s, n, budget)
  {
    var current := Current(s.versions);
    if current == 0 {
      OnlyZero(s.versions);
    } else if n > current {
      assert Migrated(Rust, s, n, budget) == From(Rust, s, current + 1, n, budget);
      assert !Step(Rust, s, current + 1, budget).finished;
    }
  }

  /**
   * So once a database has two rows, it is closed to the Rust migrator for good: after any further runs, one
   * that knows more migrations than the database has recorded executes the next of them, is refused its
   * UPDATE and leaves the rows as they were, however often it is tried; one that does not is idle.
   */
  lemma {:induction false} RustIsShutOut(rs: seq<Run>, k: nat, n: nat, budget: nat)
    requires k <= |rs| && |After(rs[..k]).versions| >= 2
    ensures ShutOut(After(rs), n, budget)
  {
    RowsOnlyGrow(rs, k);
    SubsetSize(After(rs[..k]).versions, After(rs).versions);
    ManyRowsShutOut(After(rs), n, budget);
  }
}
