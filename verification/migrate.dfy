/** The migration planner of src/migrate.rs: construction checks, ledger validation, legacy
    adoption and the choice of pending scripts, as functions of what the runner reads. */
module Migrations {
  import opened Common

  /** Texts are byte strings. The checksum is kept as an opaque text. */
  datatype Migration = Migration(
    version: int,
    description: string,
    sqlite: string,
    postgres: string,
    checksum: string)

  datatype LedgerRow = LedgerRow(version: int, description: string, checksum: string, appliedAt: string)

  datatype Migrator = Migrator(
    namespace: string,
    migrations: seq<Migration>,
    target: int,
    minimum: int,
    legacy: bool)

  datatype Error =
    | Configuration(reason: string)
    | Unordered
    | Newer(version: int, target: int)
    | TooOld(version: int, minimum: int)
    | UnknownVersion(version: int)
    | LedgerVersionMismatch(expected: int, found: int)
    | ChecksumMismatch(version: int)
    | DescriptionMismatch(version: int)
    | LegacyConflict(version: int)

  // ---------------------------------------------------------------- construction

  predicate Ordered(migrations: seq<Migration>) {
    && (migrations != [] ==> migrations[0].version > 0)
    && forall i :: 0 <= i < |migrations| - 1 ==> migrations[i].version < migrations[i + 1].version
  }

  predicate HasNul(text: string) {
    '\0' in text
  }

  function TryNew(namespace: string, migrations: seq<Migration>): Result<Migrator, Error> {
    if namespace == "" || |namespace| > 255 || HasNul(namespace) then
      Failure(Configuration("namespace must contain 1 to 255 bytes without NUL"))
    else if !Ordered(migrations) then Failure(Unordered)
    else if exists i :: 0 <= i < |migrations| && HasNul(migrations[i].description) then
      Failure(Configuration("migration descriptions must not contain NUL"))
    else
      Success(Migrator(namespace, migrations,
                       if migrations == [] then 0 else migrations[|migrations| - 1].version, 0, false))
  }

  predicate Supplies(migrations: seq<Migration>, version: int) {
    exists i :: 0 <= i < |migrations| && migrations[i].version == version
  }

  function WithCompatibility(m: Migrator, target: int, minimum: int): Result<Migrator, Error> {
    if target < 0 || minimum < 0 || minimum > target || (target != 0 && !Supplies(m.migrations, target)) then
      Failure(Configuration("invalid target or minimum upgradeable version"))
    else
      Success(m.(target := target, minimum := minimum))
  }

  /** What every constructed migrator satisfies. */
  predicate Valid(m: Migrator) {
    && Ordered(m.migrations)
    && 0 <= m.minimum <= m.target
    && (m.target == 0 || Supplies(m.migrations, m.target))
  }

  lemma ConstructionIsValid(namespace: string, migrations: seq<Migration>, target: int, minimum: int)
    ensures TryNew(namespace, migrations).Success? ==>
      var m := TryNew(namespace, migrations).value;
      && Valid(m)
      && (WithCompatibility(m, target, minimum).Success? ==> Valid(WithCompatibility(m, target, minimum).value))
  {
    if TryNew(namespace, migrations).Success? && migrations != [] {
      VersionsIncrease(migrations, 0, |migrations| - 1);
      assert migrations[|migrations| - 1].version == migrations[|migrations| - 1].version;
    }
  }

  lemma {:induction false} VersionsIncrease(migrations: seq<Migration>, i: nat, j: nat)
    requires Ordered(migrations) && i <= j < |migrations|
    ensures 0 < migrations[i].version
    ensures if i == j then migrations[i].version == migrations[j].version
            else migrations[i].version < migrations[j].version
    decreases j
  {
    if i < j {
      VersionsIncrease(migrations, i, j - 1);
    } else if i > 0 {
      VersionsIncrease(migrations, i - 1, i - 1);
    }
  }

  /** What `try_new` accepts, and what it makes of it: the namespace and list as given, no
      minimum, and the last supplied version as the target, zero if there is none. */
  lemma TryNewMeaning(namespace: string, migrations: seq<Migration>)
    ensures var r := TryNew(namespace, migrations);
      && (r.Success? <==>
            && 1 <= |namespace| <= 255 && '\0' !in namespace
            && (forall i :: 0 <= i < |migrations| ==> migrations[i].version > 0 && '\0' !in migrations[i].description)
            && (forall i, j :: 0 <= i < j < |migrations| ==> migrations[i].version < migrations[j].version))
      && (r.Success? ==>
            && r.value.namespace == namespace && r.value.migrations == migrations
            && r.value.minimum == 0 && !r.value.legacy
            && (forall i :: 0 <= i < |migrations| ==> migrations[i].version <= r.value.target)
            && (if migrations == [] then r.value.target == 0 else Supplies(migrations, r.value.target)))
      && (r == Failure(Unordered) <==>
            1 <= |namespace| <= 255 && '\0' !in namespace && !Ordered(migrations))
  {
    if Ordered(migrations) {
      forall i, j | 0 <= i <= j < |migrations|
        ensures 0 < migrations[i].version <= migrations[j].version
        ensures i < j ==> migrations[i].version < migrations[j].version
      {
        VersionsIncrease(migrations, i, j);
      }
      assert migrations != [] ==> Supplies(migrations, migrations[|migrations| - 1].version);
    }
  }

  /** The compatibility window: accepted exactly when minimum and target make sense, and then
      carried as given. */
  lemma CompatibilityMeaning(m: Migrator, target: int, minimum: int)
    ensures var r := WithCompatibility(m, target, minimum);
      && (r.Success? <==> 0 <= minimum <= target && (target == 0 || Supplies(m.migrations, target)))
      && (r.Success? ==>
            && r.value.target == target && r.value.minimum == minimum
            && r.value.namespace == m.namespace && r.value.migrations == m.migrations && r.value.legacy == m.legacy)
  {
  }

  // ---------------------------------------------------------------- validation

  predicate Matches(row: LedgerRow, migration: Migration) {
    && row.version == migration.version
    && row.description == migration.description
    && row.checksum == migration.checksum
    && row.appliedAt != ""
  }

  function Applied(rows: seq<LedgerRow>): int {
    if rows == [] then 0 else rows[|rows| - 1].version
  }

  /** The fault of one row, in the order the runner looks for it. */
  function RowFault(m: Migrator, rows: seq<LedgerRow>, i: nat): Option<Error>
    requires i < |rows|
  {
    var row := rows[i];
    if i >= |m.migrations| then Some(UnknownVersion(row.version))
    else
      var migration := m.migrations[i];
      if row.version != migration.version then Some(LedgerVersionMismatch(migration.version, row.version))
      else if row.description != migration.description then Some(DescriptionMismatch(row.version))
      else if row.checksum != migration.checksum then Some(ChecksumMismatch(row.version))
      else if row.appliedAt == "" then Some(Configuration("ledger applied_at must not be empty"))
      else None
  }

  function FirstFault(m: Migrator, rows: seq<LedgerRow>, i: nat): Option<Error>
    requires i <= |rows|
    decreases |rows| - i
  {
    if i == |rows| then None
    else if RowFault(m, rows, i).Some? then RowFault(m, rows, i)
    else FirstFault(m, rows, i + 1)
  }

  function Validate(m: Migrator, rows: seq<LedgerRow>): Option<Error> {
    if Applied(rows) > m.target then Some(Newer(Applied(rows), m.target))
    else FirstFault(m, rows, 0)
  }

  /** The rows are a complete history: a prefix of the supplied migrations, field for field. */
  predicate Prefix(migrations: seq<Migration>, rows: seq<LedgerRow>) {
    |rows| <= |migrations| && forall i :: 0 <= i < |rows| ==> Matches(rows[i], migrations[i])
  }

  lemma {:induction false} FirstFaultMeaning(m: Migrator, rows: seq<LedgerRow>, i: nat)
    requires i <= |rows|
    ensures FirstFault(m, rows, i).None? <==>
      && (i == |rows| || |rows| <= |m.migrations|)
      && (forall j :: i <= j < |rows| && j < |m.migrations| ==> Matches(rows[j], m.migrations[j]))
    decreases |rows| - i
  {
    if i < |rows| {
      FirstFaultMeaning(m, rows, i + 1);
      if RowFault(m, rows, i).Some? {
        assert i < |m.migrations| ==> !Matches(rows[i], m.migrations[i]);
      } else {
        assert Matches(rows[i], m.migrations[i]);
      }
    }
  }

  /** Validation accepts exactly the prefixes of the migration list that do not reach past the
      target. */
  lemma ValidateMeaning(m: Migrator, rows: seq<LedgerRow>)
    ensures Validate(m, rows).None? <==> Prefix(m.migrations, rows) && Applied(rows) <= m.target
  {
    FirstFaultMeaning(m, rows, 0);
  }

  /** The error names what is wrong with the row. */
  predicate Blames(m: Migrator, row: LedgerRow, i: nat, error: Error) {
    match error
    case UnknownVersion(version) => i >= |m.migrations| && version == row.version
    case LedgerVersionMismatch(expected, found) =>
      i < |m.migrations| && expected == m.migrations[i].version && found == row.version && expected != found
    case DescriptionMismatch(version) =>
      && i < |m.migrations| && version == row.version == m.migrations[i].version
      && row.description != m.migrations[i].description
    case ChecksumMismatch(version) =>
      && i < |m.migrations| && version == row.version == m.migrations[i].version
      && row.description == m.migrations[i].description && row.checksum != m.migrations[i].checksum
    case Configuration(_) => i < |m.migrations| && Matches(row.(appliedAt := "any"), m.migrations[i]) && row.appliedAt == ""
    case _ => false
  }

  /** The first row that does not continue the history. */
  predicate BreaksAt(m: Migrator, rows: seq<LedgerRow>, i: nat) {
    && i < |rows| && i <= |m.migrations|
    && (forall j :: 0 <= j < i ==> Matches(rows[j], m.migrations[j]))
    && (i == |m.migrations| || !Matches(rows[i], m.migrations[i]))
  }

  lemma {:induction false} FirstFaultBlames(m: Migrator, rows: seq<LedgerRow>, i: nat)
    requires i <= |rows| && i <= |m.migrations| && FirstFault(m, rows, i).Some?
    requires forall j :: 0 <= j < i ==> Matches(rows[j], m.migrations[j])
    ensures exists k: nat :: BreaksAt(m, rows, k) && Blames(m, rows[k], k, FirstFault(m, rows, i).value)
    decreases |rows| - i
  {
    if RowFault(m, rows, i).Some? {
      assert BreaksAt(m, rows, i);
      assert Blames(m, rows[i], i, RowFault(m, rows, i).value);
    } else {
      assert Matches(rows[i], m.migrations[i]);
      FirstFaultBlames(m, rows, i + 1);
    }
  }

  /** What a refused ledger is refused for: reaching past the target, or else the first row that
      does not continue the history, named with its versions and with what is wrong with it. */
  lemma RefusalMeaning(m: Migrator, rows: seq<LedgerRow>)
    requires Validate(m, rows).Some?
    ensures var error := Validate(m, rows).value;
      if Applied(rows) > m.target then error == Newer(Applied(rows), m.target)
      else exists i: nat :: BreaksAt(m, rows, i) && Blames(m, rows[i], i, error)
  {
    if Applied(rows) <= m.target { FirstFaultBlames(m, rows, 0); }
  }

  /** The loop of `validate`. */
  method ValidateRows(m: Migrator, rows: seq<LedgerRow>) returns (fault: Option<Error>)
    ensures fault == Validate(m, rows)
  {
    var applied := if rows == [] then 0 else rows[|rows| - 1].version;
    if applied > m.target {
      return Some(Newer(applied, m.target));
    }
    for index := 0 to |rows|
      invariant FirstFault(m, rows, 0) == FirstFault(m, rows, index)
    {
      var row := rows[index];
      if index >= |m.migrations| {
        return Some(UnknownVersion(row.version));
      }
      var migration := m.migrations[index];
      if row.version != migration.version {
        return Some(LedgerVersionMismatch(migration.version, row.version));
      }
      if row.description != migration.description {
        return Some(DescriptionMismatch(row.version));
      }
      if row.checksum != migration.checksum {
        return Some(ChecksumMismatch(row.version));
      }
      if row.appliedAt == "" {
        return Some(Configuration("ledger applied_at must not be empty"));
      }
    }
    return None;
  }

  // ---------------------------------------------------------------- adoption and plan

  /** Walk the legacy rows: compare where the canonical ledger has a row, copy where it ends. */
  function AdoptFrom(rows: seq<LedgerRow>, source: seq<LedgerRow>, i: nat): Result<seq<LedgerRow>, Error>
    requires i <= |source|
    decreases |source| - i
  {
    if i == |source| then Success(rows)
    else if i < |rows| then
      if source[i] != rows[i] then Failure(LegacyConflict(source[i].version))
      else AdoptFrom(rows, source, i + 1)
    else AdoptFrom(rows + [source[i]], source, i + 1)
  }

  function Adopt(rows: seq<LedgerRow>, source: seq<LedgerRow>): Result<seq<LedgerRow>, Error> {
    AdoptFrom(rows, source, 0)
  }

  function Longer(a: seq<LedgerRow>, b: seq<LedgerRow>): seq<LedgerRow> {
    if |b| > |a| then b else a
  }

  lemma {:induction false} AdoptFromMerges(rows: seq<LedgerRow>, source: seq<LedgerRow>, i: nat)
    requires i <= |source| && i <= |rows| && source[..i] == rows[..i]
    ensures AdoptFrom(rows, source, i).Success? <==> rows <= source || source <= rows
    ensures AdoptFrom(rows, source, i).Success? ==> AdoptFrom(rows, source, i).value == Longer(rows, source)
    decreases |source| - i
  {
    if i == |source| {
    } else if i < |rows| {
      if source[i] == rows[i] {
        assert source[..i + 1] == source[..i] + [source[i]] == rows[..i + 1];
        AdoptFromMerges(rows, source, i + 1);
      }
    } else {
      assert rows == source[..i];
      assert rows + [source[i]] == source[..i + 1] == (rows + [source[i]])[..i + 1];
      AdoptFromMerges(rows + [source[i]], source, i + 1);
    }
  }

  /** Adoption is a prefix merge: it succeeds exactly when one history extends the other, field
      for field, and yields the longer one. */
  lemma AdoptMerges(rows: seq<LedgerRow>, source: seq<LedgerRow>)
    ensures Adopt(rows, source).Success? <==> rows <= source || source <= rows
    ensures Adopt(rows, source).Success? ==> Adopt(rows, source).value == Longer(rows, source)
  {
    AdoptFromMerges(rows, source, 0);
  }

  /** `skip(k).take_while(version <= target)`. */
  function Pending(m: Migrator, k: nat): seq<Migration>
    decreases |m.migrations| - k
  {
    if k >= |m.migrations| || m.migrations[k].version > m.target then []
    else [m.migrations[k]] + Pending(m, k + 1)
  }

  predicate MinimumPermits(m: Migrator, rows: seq<LedgerRow>) {
    !(0 < Applied(rows) < m.minimum)
  }

  /** The ledger after adoption, before any script runs. */
  function Merge(m: Migrator, rows: seq<LedgerRow>, legacy: Option<seq<LedgerRow>>): Result<seq<LedgerRow>, Error> {
    if Validate(m, rows).Some? then Failure(Validate(m, rows).value)
    else if !m.legacy || legacy.None? then Success(rows)
    else if Validate(m, legacy.value).Some? then Failure(Validate(m, legacy.value).value)
    else Adopt(rows, legacy.value)
  }

  datatype Plan = Plan(merged: seq<LedgerRow>, scripts: seq<Migration>)

  function MakePlan(m: Migrator, rows: seq<LedgerRow>, legacy: Option<seq<LedgerRow>>): Result<Plan, Error> {
    var merged := Merge(m, rows, legacy);
    if merged.Failure? then Failure(merged.error)
    else if !MinimumPermits(m, merged.value) then Failure(TooOld(Applied(merged.value), m.minimum))
    else Success(Plan(merged.value, Pending(m, |merged.value|)))
  }

  /** Row written after running a script; the database stamps it. */
  function NewRow(migration: Migration, stamp: string): LedgerRow {
    LedgerRow(migration.version, migration.description, migration.checksum, stamp)
  }

  type Clock = int -> string

  predicate Ticks(clock: Clock, migrations: seq<Migration>) {
    forall i :: 0 <= i < |migrations| ==> clock(migrations[i].version) != ""
  }

  function NewRows(scripts: seq<Migration>, clock: Clock): seq<LedgerRow> {
    seq(|scripts|, i requires 0 <= i < |scripts| => NewRow(scripts[i], clock(scripts[i].version)))
  }

  /** The namespace ledger a successful run leaves. */
  function Final(p: Plan, clock: Clock): seq<LedgerRow> {
    p.merged + NewRows(p.scripts, clock)
  }

  // ---------------------------------------------------------------- what a plan does

  lemma {:induction false} PendingMeaning(m: Migrator, k: nat)
    requires Ordered(m.migrations) && k <= |m.migrations|
    ensures var n := |Pending(m, k)|;
      && k + n <= |m.migrations|
      && Pending(m, k) == m.migrations[k..k + n]
      && (k + n < |m.migrations| ==> m.migrations[k + n].version > m.target)
      && (forall i :: k <= i < k + n ==> m.migrations[i].version <= m.target)
    decreases |m.migrations| - k
  {
    if k < |m.migrations| && m.migrations[k].version <= m.target {
      PendingMeaning(m, k + 1);
      var n := |Pending(m, k + 1)|;
      assert m.migrations[k..k + 1 + n] == [m.migrations[k]] + m.migrations[k + 1..k + 1 + n];
    }
  }

  lemma MergeIsHistory(m: Migrator, rows: seq<LedgerRow>, legacy: Option<seq<LedgerRow>>)
    requires Merge(m, rows, legacy).Success?
    ensures var merged := Merge(m, rows, legacy).value;
      && Prefix(m.migrations, merged) && Applied(merged) <= m.target
      && rows <= merged
      && (m.legacy && legacy.Some? ==>
            && merged == Longer(rows, legacy.value)
            && (rows <= legacy.value || legacy.value <= rows))
      && (!m.legacy || legacy.None? ==> merged == rows)
  {
    ValidateMeaning(m, rows);
    if m.legacy && legacy.Some? {
      ValidateMeaning(m, legacy.value);
      AdoptMerges(rows, legacy.value);
    }
  }

  predicate FirstConflict(rows: seq<LedgerRow>, source: seq<LedgerRow>, i: nat) {
    i < |rows| && i < |source| && rows[..i] == source[..i] && rows[i] != source[i]
  }

  lemma {:induction false} AdoptFromConflicts(rows: seq<LedgerRow>, source: seq<LedgerRow>, i: nat)
    requires i <= |source| && i <= |rows| && source[..i] == rows[..i] && AdoptFrom(rows, source, i).Failure?
    ensures exists k: nat :: FirstConflict(rows, source, k) && AdoptFrom(rows, source, i) == Failure(LegacyConflict(source[k].version))
    decreases |source| - i
  {
    AdoptFromMerges(rows, source, i);
    assert i < |source| && i < |rows|;
    if source[i] == rows[i] {
      assert source[..i + 1] == source[..i] + [source[i]] == rows[..i + 1];
      AdoptFromConflicts(rows, source, i + 1);
    } else {
      assert FirstConflict(rows, source, i);
    }
  }

  /** When there is a plan, and otherwise why not, in the order the runner looks: the ledger, the
      legacy ledger, their first difference, the minimum. */
  lemma PlanMeaning(m: Migrator, rows: seq<LedgerRow>, legacy: Option<seq<LedgerRow>>)
    ensures var plan := MakePlan(m, rows, legacy);
      var adopts := m.legacy && legacy.Some?;
      if Validate(m, rows).Some? then plan == Failure(Validate(m, rows).value)
      else if adopts && Validate(m, legacy.value).Some? then plan == Failure(Validate(m, legacy.value).value)
      else if adopts && !(rows <= legacy.value) && !(legacy.value <= rows) then
        exists i: nat :: FirstConflict(rows, legacy.value, i) && plan == Failure(LegacyConflict(legacy.value[i].version))
      else
        var merged := if adopts then Longer(rows, legacy.value) else rows;
        if 0 < Applied(merged) < m.minimum then plan == Failure(TooOld(Applied(merged), m.minimum))
        else plan.Success? && plan.value.merged == merged
  {
    hide Validate, Pending;
    if m.legacy && legacy.Some? {
      AdoptMerges(rows, legacy.value);
      if Adopt(rows, legacy.value).Failure? { AdoptFromConflicts(rows, legacy.value, 0); }
    }
  }

  predicate UpTo(migrations: seq<Migration>, k: nat, target: int) {
    && k <= |migrations|
    && (forall i :: 0 <= i < k ==> migrations[i].version <= target)
    && (forall i :: k <= i < |migrations| ==> migrations[i].version > target)
  }

  /** Convergence: a successful run leaves rows matching exactly the supplied migrations with
      version at most the target, in order. */
  lemma Convergence(m: Migrator, rows: seq<LedgerRow>, legacy: Option<seq<LedgerRow>>, clock: Clock)
    requires Valid(m) && Ticks(clock, m.migrations) && MakePlan(m, rows, legacy).Success?
    ensures var final := Final(MakePlan(m, rows, legacy).value, clock);
      Prefix(m.migrations, final) && UpTo(m.migrations, |final|, m.target)
  {
    hide Merge, Pending, Final;
    var p := MakePlan(m, rows, legacy).value;
    MergeIsHistory(m, rows, legacy);
    PendingMeaning(m, |p.merged|);
    StopsAtTarget(m, p.merged, |p.merged| + |p.scripts|);
    FinalMatches(m.migrations, p, clock);
  }

  lemma StopsAtTarget(m: Migrator, merged: seq<LedgerRow>, n: nat)
    requires Valid(m) && Prefix(m.migrations, merged) && Applied(merged) <= m.target
    requires |merged| <= n <= |m.migrations|
    requires forall i :: |merged| <= i < n ==> m.migrations[i].version <= m.target
    requires n < |m.migrations| ==> m.migrations[n].version > m.target
    ensures UpTo(m.migrations, n, m.target)
  {
    var k := |merged|;
    forall i | 0 <= i < |m.migrations|
      ensures i < n ==> m.migrations[i].version <= m.target
      ensures i >= n ==> m.migrations[i].version > m.target
    {
      if i < k {
        assert Matches(merged[k - 1], m.migrations[k - 1]);
        VersionsIncrease(m.migrations, i, k - 1);
      } else if i >= n {
        VersionsIncrease(m.migrations, n, i);
      }
    }
  }

  lemma FinalMatches(migrations: seq<Migration>, p: Plan, clock: Clock)
    requires Prefix(migrations, p.merged) && Ticks(clock, migrations)
    requires |p.merged| + |p.scripts| <= |migrations|
    requires p.scripts == migrations[|p.merged|..|p.merged| + |p.scripts|]
    ensures |Final(p, clock)| == |p.merged| + |p.scripts| && Prefix(migrations, Final(p, clock))
  {
    var final, k := Final(p, clock), |p.merged|;
    forall i | 0 <= i < |final| ensures Matches(final[i], migrations[i]) {
      if i < k { assert final[i] == p.merged[i]; }
      else { assert p.scripts[i - k] == migrations[i]; }
    }
  }

  /** A migrator fresh from `try_new` runs everything: a successful run leaves one matching row
      for every supplied migration. */
  lemma FreshMigratorRunsAll(namespace: string, migrations: seq<Migration>, rows: seq<LedgerRow>,
                             legacy: Option<seq<LedgerRow>>, clock: Clock)
    requires TryNew(namespace, migrations).Success? && Ticks(clock, migrations)
    requires MakePlan(TryNew(namespace, migrations).value, rows, legacy).Success?
    ensures var final := Final(MakePlan(TryNew(namespace, migrations).value, rows, legacy).value, clock);
      |final| == |migrations| && Prefix(migrations, final)
  {
    hide MakePlan, Final, TryNew;
    var m := TryNew(namespace, migrations).value;
    TryNewMeaning(namespace, migrations);
    ConstructionIsValid(namespace, migrations, 0, 0);
    Convergence(m, rows, legacy, clock);
    if migrations != [] {
      assert migrations[|migrations| - 1].version <= m.target;
    }
  }

  /** The last row of a converged ledger is the target, which the minimum never exceeds. */
  lemma ConvergedPermits(m: Migrator, final: seq<LedgerRow>)
    requires Valid(m) && Prefix(m.migrations, final) && UpTo(m.migrations, |final|, m.target)
    ensures MinimumPermits(m, final) && Applied(final) <= m.target && Pending(m, |final|) == []
  {
    if final != [] { assert Matches(final[|final| - 1], m.migrations[|final| - 1]); }
    if m.target > 0 {
      var t :| 0 <= t < |m.migrations| && m.migrations[t].version == m.target;
      VersionsIncrease(m.migrations, t, |final| - 1);
    }
  }

  /** The merged ledger is what a second merge finds: nothing more is adopted. */
  lemma MergeIsStable(m1: Migrator, m2: Migrator, rows: seq<LedgerRow>, legacy: Option<seq<LedgerRow>>,
                      later: seq<LedgerRow>)
    requires m1.migrations == m2.migrations && m1.legacy == m2.legacy && m1.target <= m2.target
    requires Merge(m1, rows, legacy).Success?
    requires Merge(m1, rows, legacy).value <= later
    requires Prefix(m1.migrations, later) && Applied(later) <= m2.target
    ensures Merge(m2, rows, legacy) == Merge(m1, rows, legacy)
    ensures Merge(m2, later, legacy) == Success(later)
  {
    ValidateMeaning(m1, rows);
    ValidateMeaning(m2, rows);
    ValidateMeaning(m2, later);
    if m1.legacy && legacy.Some? {
      ValidateMeaning(m1, legacy.value);
      ValidateMeaning(m2, legacy.value);
      AdoptMerges(rows, legacy.value);
      AdoptMerges(later, legacy.value);
    }
  }

  /** Running again at the same target neither adopts nor runs anything. */
  lemma RepeatDoesNothing(m: Migrator, rows: seq<LedgerRow>, legacy: Option<seq<LedgerRow>>, clock: Clock)
    requires Valid(m) && Ticks(clock, m.migrations) && MakePlan(m, rows, legacy).Success?
    ensures var final := Final(MakePlan(m, rows, legacy).value, clock);
      MakePlan(m, final, legacy) == Success(Plan(final, []))
  {
    var final := Final(MakePlan(m, rows, legacy).value, clock);
    Convergence(m, rows, legacy, clock);
    ConvergedPermits(m, final);
    MergeIsStable(m, m, rows, legacy, final);
  }

  /** Equal rows up to `k`; after that equal except for the time of application. */
  predicate SameButStamps(a: seq<LedgerRow>, b: seq<LedgerRow>, k: nat) {
    && |a| == |b| && k <= |a| && a[..k] == b[..k]
    && forall i :: k <= i < |a| ==> a[i].(appliedAt := "") == b[i].(appliedAt := "")
  }

  /** Upgrade path independence. After a run to the first target, a run to a later target is
      refused exactly when its minimum forbids the ledger it finds, and so is the direct run;
      when neither is refused, both paths run the same scripts in the same order and leave the
      same ledger, up to the stamps of new rows. */
  lemma PathIndependence(m1: Migrator, m2: Migrator, rows: seq<LedgerRow>, legacy: Option<seq<LedgerRow>>,
                         c1: Clock, c2: Clock, c: Clock)
    requires Valid(m1) && Valid(m2) && m1.migrations == m2.migrations && m1.legacy == m2.legacy
    requires m1.target <= m2.target
    requires Ticks(c1, m1.migrations) && Ticks(c2, m1.migrations) && Ticks(c, m1.migrations)
    requires MakePlan(m1, rows, legacy).Success?
    ensures var p1 := MakePlan(m1, rows, legacy).value;
      var mid := Final(p1, c1);
      var second, direct := MakePlan(m2, mid, legacy), MakePlan(m2, rows, legacy);
      && (second.Success? <==> MinimumPermits(m2, mid))
      && (direct.Success? <==> MinimumPermits(m2, p1.merged))
      && (second.Success? ==> second.value.merged == mid)
      && (second.Success? && direct.Success? ==>
            && direct.value.scripts == p1.scripts + second.value.scripts
            && SameButStamps(Final(second.value, c2), Final(direct.value, c), |p1.merged|))
  {
    hide SameButStamps, Merge, Pending;
    var p1 := MakePlan(m1, rows, legacy).value;
    var mid := Final(p1, c1);
    Convergence(m1, rows, legacy, c1);
    ConvergedPermits(m1, mid);
    MergeIsStable(m1, m2, rows, legacy, mid);
    MergeIsHistory(m1, rows, legacy);
    if MinimumPermits(m2, mid) && MinimumPermits(m2, p1.merged) {
      PendingSplits(m1, m2, |p1.merged|);
      StampsApart(p1, Pending(m2, |mid|), c1, c2, c);
    }
  }

  /** Two batches of new rows and one combined batch differ only in their stamps. */
  lemma StampsApart(p1: Plan, rest: seq<Migration>, c1: Clock, c2: Clock, c: Clock)
    ensures SameButStamps(Final(Plan(Final(p1, c1), rest), c2), Final(Plan(p1.merged, p1.scripts + rest), c), |p1.merged|)
  {
    var a, b := Final(Plan(Final(p1, c1), rest), c2), Final(Plan(p1.merged, p1.scripts + rest), c);
    assert a[..|p1.merged|] == p1.merged == b[..|p1.merged|];
    forall i | |p1.merged| <= i < |a| ensures a[i].(appliedAt := "") == b[i].(appliedAt := "") {
      var j := i - |p1.merged|;
      assert b[i] == NewRow((p1.scripts + rest)[j], c((p1.scripts + rest)[j].version));
      if j < |p1.scripts| {
        assert a[i] == NewRow(p1.scripts[j], c1(p1.scripts[j].version));
      } else {
        assert a[i] == NewRow(rest[j - |p1.scripts|], c2(rest[j - |p1.scripts|].version));
      }
    }
  }

  lemma {:induction false} PendingSplits(m1: Migrator, m2: Migrator, k: nat)
    requires Ordered(m1.migrations) && m1.migrations == m2.migrations && m1.target <= m2.target
    requires k <= |m1.migrations|
    ensures Pending(m2, k) == Pending(m1, k) + Pending(m2, k + |Pending(m1, k)|)
    decreases |m1.migrations| - k
  {
    if k < |m1.migrations| && m1.migrations[k].version <= m1.target {
      PendingSplits(m1, m2, k + 1);
    }
  }
}
