/**
 * DBUpgrade: bringing the database of a module to the version of a slice of upgrade
 * scripts. Statements take effect one by one; one that fails throws and ends the call. Only
 * a failure of the query for the version is swallowed; the version then counts as 0.
 */
module DBUpgrade {
  import opened Common

  /** A statement sent to the database. */
  datatype Op =
    | MakeTable
    | Script(moduleName: string, text: string)
    | SetVersion(moduleName: string, version: int)

  /** The module_version table and the scripts that have been executed, in order. */
  datatype Db = Db(hasTable: bool, versions: map<string, int>, log: seq<Op>)

  /** The arguments of one call. */
  datatype Call = Call(moduleName: string, scripts: seq<string>, startVersion: int, create: Option<string>)

  const EMPTY: Db := Db(false, map[], [])

  function Execute(db: Db, op: Op): Db {
    match op
    case MakeTable => db.(hasTable := true, versions := map[])
    case Script(_, _) => db.(log := db.log + [op])
    case SetVersion(m, v) => db.(versions := db.versions[m := v])
  }

  function ExecuteAll(db: Db, ops: seq<Op>): Db
    decreases |ops|
  {
    if ops == [] then db else ExecuteAll(Execute(db, ops[0]), ops[1..])
  }

  function VersionOf(db: Db, m: string): int {
    if db.hasTable && m in db.versions then db.versions[m] else 0
  }

  function ScriptOps(m: string, scripts: seq<string>): (ops: seq<Op>)
    ensures |ops| == |scripts|
  {
    if scripts == [] then [] else [Script(m, scripts[0])] + ScriptOps(m, scripts[1..])
  }

  /** The statements for a module at a known positive version. */
  function UpgradeOps(c: Call, version: int): seq<Op> {
    var to := c.startVersion + |c.scripts| - 1;
    if version < c.startVersion - 1 || c.scripts == [] || version >= to then []
    else
      var first := if version < c.startVersion then 0 else version - c.startVersion + 1;
      ScriptOps(c.moduleName, c.scripts[first..]) + [SetVersion(c.moduleName, to)]
  }

  /** The statements once the version table exists, for the version that the query gives. */
  function SeeingOps(c: Call, version: int): seq<Op> {
    if version != 0 then UpgradeOps(c, version)
    else if c.create.None? then []
    else [Script(c.moduleName, c.create.value), SetVersion(c.moduleName, 1)] + UpgradeOps(c, 1)
  }

  function TableOps(db: Db, c: Call): seq<Op> {
    SeeingOps(c, VersionOf(db, c.moduleName))
  }

  /** All statements of a call, in order. */
  function Ops(db: Db, c: Call): seq<Op> {
    if db.hasTable then TableOps(db, c) else [MakeTable] + TableOps(Execute(db, MakeTable), c)
  }

  /** All statements of a call whose query for the version fails. */
  function BlindOps(db: Db, c: Call): seq<Op> {
    (if db.hasTable then [] else [MakeTable]) + SeeingOps(c, 0)
  }

  /** A call in which every statement succeeds. */
  function Upgraded(db: Db, c: Call): Db {
    ExecuteAll(db, Ops(db, c))
  }

  /** How a series of statements ends when the first room of them succeed. */
  datatype Attempt = Attempt(db: Db, room: nat, ok: bool)

  function Try(db: Db, room: nat, ops: seq<Op>): Attempt
    decreases |ops|
  {
    if ops == [] then Attempt(db, room, true)
    else if room == 0 then Attempt(db, 0, false)
    else Try(Execute(db, ops[0]), room - 1, ops[1..])
  }

  lemma {:induction false} TryRunsPrefix(db: Db, room: nat, ops: seq<Op>)
    ensures var r := Try(db, room, ops);
            && (r.ok <==> |ops| <= room)
            && r.db == ExecuteAll(db, if r.ok then ops else ops[..room])
    decreases |ops|
  {
    if ops != [] && room > 0 {
      TryRunsPrefix(Execute(db, ops[0]), room - 1, ops[1..]);
      if room < |ops| {
        assert ops[..room][0] == ops[0] && ops[..room][1..] == ops[1..][..room - 1];
      }
    }
  }

  // ----- The procedure -----

  class Connection {
    var db: Db
    var room: nat  // how many more statements succeed

    constructor (db: Db, room: nat)
      ensures this.db == db && this.room == room
    {
      this.db, this.room := db, room;
    }

    method Exec(op: Op) returns (ok: bool)
      modifies this
      ensures Attempt(db, room, ok) == Try(old(db), old(room), [op])
    {
      ok := room > 0;
      if ok {
        db := Execute(db, op);
        room := room - 1;
      }
    }

    /** DBUpgrade; readable tells whether the version query succeeds, ok whether the call returns rather than throws. */
    method UpgradeModule(c: Call, readable: bool) returns (ok: bool)
      modifies this
      ensures Attempt(db, room, ok)
           == Try(old(db), old(room), if readable then Ops(old(db), c) else BlindOps(old(db), c))
    {
      ghost var ops := if readable then Ops(db, c) else BlindOps(db, c);
      if !db.hasTable {
        TryHead(db, room, ops);
        ok := Exec(MakeTable);
        if !ok {
          return;
        }
        assert ops[1..] == SeeingOps(c, if readable then VersionOf(db, c.moduleName) else 0);
      } else {
        assert ops == SeeingOps(c, if readable then VersionOf(db, c.moduleName) else 0);
      }
      if c.scripts == [] && c.create.None? {
        return true;
      }
      ok := CreateAndRun(c, readable);
    }

    method CreateAndRun(c: Call, readable: bool) returns (ok: bool)
      modifies this
      ensures Attempt(db, room, ok)
           == Try(old(db), old(room), SeeingOps(c, if readable then VersionOf(old(db), c.moduleName) else 0))
    {
      var version := 0;
      if readable {
        version := VersionOf(db, c.moduleName);
      }
      if version == 0 {
        if c.create.None? {
          return true;
        }
        ghost var ops := SeeingOps(c, 0);
        TryHead(db, room, ops);
        ok := Exec(Script(c.moduleName, c.create.value));
        if !ok {
          return;
        }
        TryHead(db, room, ops[1..]);
        ok := Exec(SetVersion(c.moduleName, 1));
        if !ok {
          return;
        }
        assert ops[1..][1..] == UpgradeOps(c, 1);
        version := 1;
      }
      ok := RunScripts(c, version);
    }

    method RunScripts(c: Call, version: int) returns (ok: bool)
      modifies this
      ensures Attempt(db, room, ok) == Try(old(db), old(room), UpgradeOps(c, version))
    {
      if version < c.startVersion - 1 {
        return true;
      }
      var count := |c.scripts|;
      if count == 0 {
        return true;
      }
      var to := c.startVersion + count - 1;
      if version >= to {
        return true;
      }
      var first := if version < c.startVersion then 0 else version - c.startVersion + 1;
      var i := first;
      while i < count
        invariant first <= i <= count
        invariant Try(old(db), old(room), UpgradeOps(c, version))
                  == Try(db, room, ScriptOps(c.moduleName, c.scripts[i..]) + [SetVersion(c.moduleName, to)])
      {
        ghost var rest := ScriptOps(c.moduleName, c.scripts[i..]) + [SetVersion(c.moduleName, to)];
        TryHead(db, room, rest);
        assert c.scripts[i..][1..] == c.scripts[i + 1..];
        assert rest[1..] == ScriptOps(c.moduleName, c.scripts[i + 1..]) + [SetVersion(c.moduleName, to)];
        ok := Exec(Script(c.moduleName, c.scripts[i]));
        if !ok {
          return;
        }
        i := i + 1;
      }
      assert ScriptOps(c.moduleName, c.scripts[i..]) + [SetVersion(c.moduleName, to)] == [SetVersion(c.moduleName, to)];
      ok := Exec(SetVersion(c.moduleName, to));
    }
  }

  /** The first statement of a series, and then the rest. */
  lemma TryHead(db: Db, room: nat, ops: seq<Op>)
    requires ops != []
    ensures var head := Try(db, room, [ops[0]]);
            Try(db, room, ops) == if head.ok then Try(head.db, head.room, ops[1..]) else head
  {
    if room > 0 {
      assert [ops[0]][1..] == [];
    }
  }

  // ----- Path independence -----

  /** The scripts of one module in the log. */
  function LogOf(log: seq<Op>, m: string): seq<string> {
    if log == [] then []
    else
      var last := log[|log| - 1];
      LogOf(log[..|log| - 1], m) + if last.Script? && last.moduleName == m then [last.text] else []
  }

  /**
   * The full script lists: entry v - 1 belongs to version v, entry 0 being the creation.
   * A call is proper when it carries a slice of its module's list under the matching number.
   */
  ghost predicate Proper(lists: map<string, seq<string>>, c: Call) {
    && c.moduleName in lists && |lists[c.moduleName]| >= 1
    && c.startVersion >= 2
    && c.startVersion - 1 + |c.scripts| <= |lists[c.moduleName]|
    && c.scripts == lists[c.moduleName][c.startVersion - 1..c.startVersion - 1 + |c.scripts|]
    && (c.create.Some? ==> c.create.value == lists[c.moduleName][0])
  }

  /** Each module has executed exactly its scripts up to its version, once each and in order. */
  ghost predicate Consistent(lists: map<string, seq<string>>, db: Db) {
    && (forall m :: m in db.versions ==> db.hasTable && m in lists && 1 <= db.versions[m])
    && (forall m :: m in lists ==> ModuleConsistent(lists[m], db, m))
  }

  ghost predicate ModuleConsistent(list: seq<string>, db: Db, m: string) {
    0 <= VersionOf(db, m) <= |list| && LogOf(db.log, m) == list[..VersionOf(db, m)]
  }

  lemma {:induction false} ScriptsRun(db: Db, m: string, scripts: seq<string>, v: int, other: string)
    ensures var after := ExecuteAll(db, ScriptOps(m, scripts) + [SetVersion(m, v)]);
            && after.hasTable == db.hasTable
            && after.versions == db.versions[m := v]
            && LogOf(after.log, other) == LogOf(db.log, other) + if other == m then scripts else []
    decreases |scripts|
  {
    var ops := ScriptOps(m, scripts) + [SetVersion(m, v)];
    if scripts == [] {
      assert ops[1..] == [];
    } else {
      var next := Execute(db, Script(m, scripts[0]));
      assert ops[0] == Script(m, scripts[0]) && ops[1..] == ScriptOps(m, scripts[1..]) + [SetVersion(m, v)];
      ScriptsRun(next, m, scripts[1..], v, other);
      assert next.log[..|next.log| - 1] == db.log;
      assert [scripts[0]] + scripts[1..] == scripts;
    }
  }

  /** Running the scripts between two versions and recording the later one. */
  lemma SliceKeepsConsistent(lists: map<string, seq<string>>, db: Db, m: string, version: int, to: int)
    requires Consistent(lists, db) && m in lists && version == VersionOf(db, m) && 1 <= version < to <= |lists[m]|
    ensures Consistent(lists, ExecuteAll(db, ScriptOps(m, lists[m][version..to]) + [SetVersion(m, to)]))
    ensures VersionOf(ExecuteAll(db, ScriptOps(m, lists[m][version..to]) + [SetVersion(m, to)]), m) == to
  {
    var slice := lists[m][version..to];
    var after := ExecuteAll(db, ScriptOps(m, slice) + [SetVersion(m, to)]);
    ScriptsRun(db, m, slice, to, m);
    assert lists[m][..version] + slice == lists[m][..to];
    forall other | other in lists
      ensures ModuleConsistent(lists[other], after, other)
    {
      assert ModuleConsistent(lists[other], db, other);
      ScriptsRun(db, m, slice, to, other);
    }
  }

  /** What a call runs on a created module: nothing, or the scripts from its version to the slice's end. */
  lemma UpgradeOpsOfProper(lists: map<string, seq<string>>, c: Call, version: int)
    requires Proper(lists, c) && 1 <= version
    ensures var to := c.startVersion + |c.scripts| - 1;
            UpgradeOps(c, version) ==
            if c.startVersion - 1 <= version < to && c.scripts != []
            then ScriptOps(c.moduleName, lists[c.moduleName][version..to]) + [SetVersion(c.moduleName, to)]
            else []
  {
    var list, to := lists[c.moduleName], c.startVersion + |c.scripts| - 1;
    if c.startVersion - 1 <= version < to && c.scripts != [] {
      var first := if version < c.startVersion then 0 else version - c.startVersion + 1;
      assert c.scripts[first..] == list[version..to];
    }
  }

  lemma UpgradeKeepsConsistent(lists: map<string, seq<string>>, db: Db, c: Call, version: int)
    requires Consistent(lists, db) && Proper(lists, c) && version == VersionOf(db, c.moduleName) >= 1
    ensures Consistent(lists, ExecuteAll(db, UpgradeOps(c, version)))
    ensures VersionOf(ExecuteAll(db, UpgradeOps(c, version)), c.moduleName) >= version
  {
    UpgradeOpsOfProper(lists, c, version);
    var to := c.startVersion + |c.scripts| - 1;
    if UpgradeOps(c, version) == [] {
      assert ExecuteAll(db, []) == db;
    } else {
      SliceKeepsConsistent(lists, db, c.moduleName, version, to);
    }
  }

  lemma CreateKeepsConsistent(lists: map<string, seq<string>>, db: Db, c: Call)
    requires Consistent(lists, db) && Proper(lists, c) && db.hasTable
    requires VersionOf(db, c.moduleName) == 0 && c.create.Some?
    ensures Consistent(lists, Created(db, c)) && VersionOf(Created(db, c), c.moduleName) == 1
  {
    var step := Execute(db, Script(c.moduleName, c.create.value));
    var created := Execute(step, SetVersion(c.moduleName, 1));
    assert step.log[..|step.log| - 1] == db.log;
    forall other | other in lists
      ensures ModuleConsistent(lists[other], created, other)
    {
      assert ModuleConsistent(lists[other], db, other);
    }
  }

  lemma MakeTableKeepsConsistent(lists: map<string, seq<string>>, db: Db)
    requires Consistent(lists, db) && !db.hasTable
    ensures Consistent(lists, Execute(db, MakeTable))
  {
    forall other | other in lists
      ensures ModuleConsistent(lists[other], Execute(db, MakeTable), other)
    {
      assert ModuleConsistent(lists[other], db, other);
    }
  }

  lemma TableOpsKeepConsistent(lists: map<string, seq<string>>, db: Db, c: Call)
    requires Consistent(lists, db) && Proper(lists, c) && db.hasTable
    ensures Consistent(lists, ExecuteAll(db, TableOps(db, c)))
    ensures VersionOf(ExecuteAll(db, TableOps(db, c)), c.moduleName) >= VersionOf(db, c.moduleName)
  {
    var m, version := c.moduleName, VersionOf(db, c.moduleName);
    assert ModuleConsistent(lists[m], db, m);
    if version != 0 {
      UpgradeKeepsConsistent(lists, db, c, version);
    } else if c.create.Some? {
      CreateKeepsConsistent(lists, db, c);
      var ops := TableOps(db, c);
      var step := Execute(db, ops[0]);
      assert ops[1..][0] == SetVersion(m, 1) && ops[1..][1..] == UpgradeOps(c, 1);
      UpgradeKeepsConsistent(lists, Execute(step, ops[1]), c, 1);
    }
  }

  lemma CallKeepsConsistent(lists: map<string, seq<string>>, db: Db, c: Call)
    requires Consistent(lists, db) && Proper(lists, c)
    ensures Consistent(lists, Upgraded(db, c))
    ensures VersionOf(Upgraded(db, c), c.moduleName) >= VersionOf(db, c.moduleName)
  {
    if db.hasTable {
      TableOpsKeepConsistent(lists, db, c);
    } else {
      MakeTableKeepsConsistent(lists, db);
      TableOpsKeepConsistent(lists, Execute(db, MakeTable), c);
      assert Ops(db, c)[1..] == TableOps(Execute(db, MakeTable), c);
    }
  }

  /**
   * Where a proper call takes its module: a new one to version 1, if the call brings the
   * creation, and then any created one on to the end of the slice, if the slice starts no
   * later than right behind its version and goes beyond it.
   */
  lemma CallReaches(lists: map<string, seq<string>>, db: Db, c: Call)
    requires Consistent(lists, db) && Proper(lists, c)
    ensures var version, end := VersionOf(db, c.moduleName), c.startVersion - 1 + |c.scripts|;
            var from := if version == 0 && c.create.Some? then 1 else version;
            VersionOf(Upgraded(db, c), c.moduleName)
            == if from >= 1 && c.startVersion <= from + 1 <= end && c.scripts != [] then end else from
  {
    if db.hasTable {
      TableOpsReach(lists, db, c);
    } else {
      MakeTableKeepsConsistent(lists, db);
      TableOpsReach(lists, Execute(db, MakeTable), c);
      assert Ops(db, c)[1..] == TableOps(Execute(db, MakeTable), c);
    }
  }

  lemma UpgradeReaches(lists: map<string, seq<string>>, db: Db, c: Call, version: int)
    requires Consistent(lists, db) && Proper(lists, c) && version == VersionOf(db, c.moduleName) >= 1
    ensures var end := c.startVersion - 1 + |c.scripts|;
            VersionOf(ExecuteAll(db, UpgradeOps(c, version)), c.moduleName)
            == if c.startVersion <= version + 1 <= end && c.scripts != [] then end else version
  {
    assert ModuleConsistent(lists[c.moduleName], db, c.moduleName);
    UpgradeRuns(lists, db, c, version);
    UpgradedVersionIs(c, version);
  }

  lemma TableOpsReach(lists: map<string, seq<string>>, db: Db, c: Call)
    requires Consistent(lists, db) && Proper(lists, c) && db.hasTable
    ensures var version, end := VersionOf(db, c.moduleName), c.startVersion - 1 + |c.scripts|;
            var from := if version == 0 && c.create.Some? then 1 else version;
            VersionOf(ExecuteAll(db, TableOps(db, c)), c.moduleName)
            == if from >= 1 && c.startVersion <= from + 1 <= end && c.scripts != [] then end else from
  {
    var m, version := c.moduleName, VersionOf(db, c.moduleName);
    assert ModuleConsistent(lists[m], db, m);
    if version != 0 {
      UpgradeReaches(lists, db, c, version);
    } else if c.create.Some? {
      CreateKeepsConsistent(lists, db, c);
      UpgradeReaches(lists, Created(db, c), c, 1);
      ExecuteTwo(db, Script(m, c.create.value), SetVersion(m, 1), UpgradeOps(c, 1));
    }
  }

  function RunCalls(db: Db, calls: seq<Call>): Db {
    if calls == [] then db else Upgraded(RunCalls(db, calls[..|calls| - 1]), calls[|calls| - 1])
  }

  /**
   * Whatever proper calls are made, for whatever modules and in whatever order, each module
   * ends having executed its creation and scripts 2 to its version, once each and in order.
   */
  lemma {:induction false} UpgradesArePathIndependent(lists: map<string, seq<string>>, calls: seq<Call>)
    requires forall i :: 0 <= i < |calls| ==> Proper(lists, calls[i])
    ensures Consistent(lists, RunCalls(EMPTY, calls))
  {
    if calls != [] {
      UpgradesArePathIndependent(lists, calls[..|calls| - 1]);
      CallKeepsConsistent(lists, RunCalls(EMPTY, calls[..|calls| - 1]), calls[|calls| - 1]);
    }
  }

  /** A slice that starts too late, or that the module already has, changes nothing. */
  lemma UselessSlicesChangeNothing(db: Db, c: Call)
    requires db.hasTable && VersionOf(db, c.moduleName) != 0
    ensures VersionOf(db, c.moduleName) < c.startVersion - 1
            || VersionOf(db, c.moduleName) >= c.startVersion + |c.scripts| - 1
            ==> Upgraded(db, c) == db
  {
  }

  // ----- Interrupted calls -----

  lemma {:induction false} ScriptsAlone(db: Db, m: string, scripts: seq<string>)
    ensures var after := ExecuteAll(db, ScriptOps(m, scripts));
            && after.hasTable == db.hasTable && after.versions == db.versions
            && LogOf(after.log, m) == LogOf(db.log, m) + scripts
    decreases |scripts|
  {
    if scripts != [] {
      var next := Execute(db, Script(m, scripts[0]));
      assert ScriptOps(m, scripts)[1..] == ScriptOps(m, scripts[1..]);
      ScriptsAlone(next, m, scripts[1..]);
      assert next.log[..|next.log| - 1] == db.log;
      assert [scripts[0]] + scripts[1..] == scripts;
    }
  }

  lemma {:induction false} ScriptOpsPrefix(m: string, scripts: seq<string>, n: nat)
    requires n <= |scripts|
    ensures ScriptOps(m, scripts)[..n] == ScriptOps(m, scripts[..n])
    ensures n > 0 ==> ScriptOps(m, scripts)[n - 1].Script?
  {
    if n > 0 {
      ScriptOpsPrefix(m, scripts[1..], n - 1);
      assert scripts[..n][1..] == scripts[1..][..n - 1];
      assert ScriptOps(m, scripts)[..n] == [Script(m, scripts[0])] + ScriptOps(m, scripts[1..])[..n - 1];
    }
  }

  lemma OnlyLastSetsVersion(c: Call, version: int, n: nat)
    requires 0 < n <= |UpgradeOps(c, version)|
    ensures UpgradeOps(c, version)[n - 1].Script? <==> n < |UpgradeOps(c, version)|
  {
    var first := if version < c.startVersion then 0 else version - c.startVersion + 1;
    var scripts := c.scripts[first..];
    assert UpgradeOps(c, version)
        == ScriptOps(c.moduleName, scripts) + [SetVersion(c.moduleName, c.startVersion + |c.scripts| - 1)];
    if n <= |scripts| {
      ScriptOpsPrefix(c.moduleName, scripts, n);
    }
  }

  /** The statements of an upgrade up to one of its scripts. */
  lemma CutOps(lists: map<string, seq<string>>, c: Call, version: int, n: nat)
    requires Proper(lists, c) && 1 <= version && 0 < n < |UpgradeOps(c, version)|
    ensures version + n <= |lists[c.moduleName]|
    ensures UpgradeOps(c, version)[..n] == ScriptOps(c.moduleName, lists[c.moduleName][version..version + n])
  {
    var m, to := c.moduleName, c.startVersion + |c.scripts| - 1;
    UpgradeOpsOfProper(lists, c, version);
    var slice := lists[m][version..to];
    ScriptOpsPrefix(m, slice, n);
    assert slice[..n] == lists[m][version..version + n];
  }

  /** They leave a log that is n scripts ahead of the recorded version. */
  lemma CutLeaves(lists: map<string, seq<string>>, db: Db, c: Call, version: int, n: nat)
    requires Consistent(lists, db) && Proper(lists, c) && version == VersionOf(db, c.moduleName) >= 1
    requires 0 < n <= |UpgradeOps(c, version)| && UpgradeOps(c, version)[n - 1].Script?
    ensures var cut := ExecuteAll(db, UpgradeOps(c, version)[..n]);
            && cut.hasTable == db.hasTable && cut.versions == db.versions
            && version + n <= |lists[c.moduleName]|
            && LogOf(cut.log, c.moduleName) == lists[c.moduleName][..version + n]
  {
    OnlyLastSetsVersion(c, version, n);
    CutOps(lists, c, version, n);
    assert ModuleConsistent(lists[c.moduleName], db, c.moduleName);
    SliceLeaves(lists[c.moduleName], db, c.moduleName, version, version + n);
  }

  lemma SliceLeaves(list: seq<string>, db: Db, m: string, version: int, to: int)
    requires ModuleConsistent(list, db, m) && version == VersionOf(db, m) && version <= to <= |list|
    ensures var cut := ExecuteAll(db, ScriptOps(m, list[version..to]));
            cut.hasTable == db.hasTable && cut.versions == db.versions && LogOf(cut.log, m) == list[..to]
  {
    ScriptsAlone(db, m, list[version..to]);
    assert list[..version] + list[version..to] == list[..to];
  }

  lemma InterruptedUpgradeIff(lists: map<string, seq<string>>, db: Db, c: Call, version: int, n: nat)
    requires Consistent(lists, db) && Proper(lists, c) && version == VersionOf(db, c.moduleName) >= 1
    requires n <= |UpgradeOps(c, version)|
    ensures Consistent(lists, ExecuteAll(db, UpgradeOps(c, version)[..n]))
            <==> n == 0 || !UpgradeOps(c, version)[n - 1].Script?
  {
    var m, ops := c.moduleName, UpgradeOps(c, version);
    if n == |ops| {
      assert ops[..n] == ops;
      UpgradeKeepsConsistent(lists, db, c, version);
    }
    if n > 0 {
      OnlyLastSetsVersion(c, version, n);
      if n < |ops| {
        CutLeaves(lists, db, c, version, n);
        assert !ModuleConsistent(lists[m], ExecuteAll(db, ops[..n]), m);
      }
    }
  }

  /** The module has been created and its version recorded. */
  function Created(db: Db, c: Call): Db
    requires c.create.Some?
  {
    Execute(Execute(db, Script(c.moduleName, c.create.value)), SetVersion(c.moduleName, 1))
  }

  lemma AfterCreation(db: Db, c: Call, k: nat)
    requires c.create.Some? && k <= |UpgradeOps(c, 1)|
    ensures |SeeingOps(c, 0)| == |UpgradeOps(c, 1)| + 2
    ensures ExecuteAll(db, SeeingOps(c, 0)[..k + 2]) == ExecuteAll(Created(db, c), UpgradeOps(c, 1)[..k])
    ensures if k == 0 then SeeingOps(c, 0)[k + 1].SetVersion? else SeeingOps(c, 0)[k + 1] == UpgradeOps(c, 1)[k - 1]
  {
    var create, record := Script(c.moduleName, c.create.value), SetVersion(c.moduleName, 1);
    ExecuteTwo(db, create, record, UpgradeOps(c, 1)[..k]);
    assert ([create, record] + UpgradeOps(c, 1))[..k + 2] == [create, record] + UpgradeOps(c, 1)[..k];
  }

  lemma CreationIsAhead(lists: map<string, seq<string>>, db: Db, c: Call)
    requires Consistent(lists, db) && Proper(lists, c) && c.create.Some? && VersionOf(db, c.moduleName) == 0
    ensures !Consistent(lists, Execute(db, Script(c.moduleName, c.create.value)))
  {
    var m := c.moduleName;
    LogOfOneMore(db, m, c.create.value);
    assert ModuleConsistent(lists[m], db, m);
    assert !ModuleConsistent(lists[m], Execute(db, Script(m, c.create.value)), m);
  }

  lemma InterruptedCreationIff(lists: map<string, seq<string>>, db: Db, c: Call, n: nat)
    requires Consistent(lists, db) && Proper(lists, c) && db.hasTable && c.create.Some?
    requires VersionOf(db, c.moduleName) == 0 && n <= |SeeingOps(c, 0)|
    ensures Consistent(lists, ExecuteAll(db, SeeingOps(c, 0)[..n])) <==> n == 0 || !SeeingOps(c, 0)[n - 1].Script?
  {
    var ops := SeeingOps(c, 0);
    if n == 1 {
      assert ops[..1] == [ops[0]] && [ops[0]][1..] == [];
      CreationIsAhead(lists, db, c);
    } else if n > 1 {
      CreateKeepsConsistent(lists, db, c);
      AfterCreation(db, c, n - 2);
      InterruptedUpgradeIff(lists, Created(db, c), c, 1, n - 2);
    }
  }

  lemma InterruptedTableOpsIff(lists: map<string, seq<string>>, db: Db, c: Call, n: nat)
    requires Consistent(lists, db) && Proper(lists, c) && db.hasTable && n <= |TableOps(db, c)|
    ensures Consistent(lists, ExecuteAll(db, TableOps(db, c)[..n])) <==> n == 0 || !TableOps(db, c)[n - 1].Script?
  {
    var version := VersionOf(db, c.moduleName);
    assert ModuleConsistent(lists[c.moduleName], db, c.moduleName);
    if version != 0 {
      InterruptedUpgradeIff(lists, db, c, version, n);
    } else if c.create.Some? {
      InterruptedCreationIff(lists, db, c, n);
    }
  }

  /**
   * A call that is cut short by a failing statement keeps the log and the recorded version
   * in step exactly when the last statement that took effect was not a script; otherwise
   * the next call runs that script again.
   */
  lemma InterruptedCallIsConsistentIff(lists: map<string, seq<string>>, db: Db, c: Call, n: nat)
    requires Consistent(lists, db) && Proper(lists, c) && n <= |Ops(db, c)|
    ensures Consistent(lists, ExecuteAll(db, Ops(db, c)[..n])) <==> n == 0 || !Ops(db, c)[n - 1].Script?
  {
    if db.hasTable {
      InterruptedTableOpsIff(lists, db, c, n);
    } else if n > 0 {
      var ops := Ops(db, c);
      MakeTableKeepsConsistent(lists, db);
      InterruptedTableOpsIff(lists, Execute(db, MakeTable), c, n - 1);
      assert ops[..n][1..] == TableOps(Execute(db, MakeTable), c)[..n - 1];
      assert n > 1 ==> ops[n - 1] == TableOps(Execute(db, MakeTable), c)[n - 2];
    }
  }

  // ----- Scripts that run twice -----

  lemma SliceRuns(db: Db, m: string, list: seq<string>, version: int, to: int)
    requires 0 <= version <= to <= |list| && db.hasTable
    ensures var after := ExecuteAll(db, ScriptOps(m, list[version..to]) + [SetVersion(m, to)]);
            && after.hasTable && VersionOf(after, m) == to
            && LogOf(after.log, m) == LogOf(db.log, m) + list[version..to]
  {
    ScriptsRun(db, m, list[version..to], to, m);
  }

  /** Executing what an upgrade from a version executes. */
  lemma UpgradeRuns(lists: map<string, seq<string>>, db: Db, c: Call, version: int)
    requires Proper(lists, c) && 1 <= version <= |lists[c.moduleName]| && db.hasTable
    ensures var m := c.moduleName;
            var after, to := ExecuteAll(db, UpgradeOps(c, version)), UpgradedVersion(c, version);
            && version <= to <= |lists[m]| && after.hasTable
            && LogOf(after.log, m) == LogOf(db.log, m) + lists[m][version..to]
            && (VersionOf(db, m) == version || UpgradeOps(c, version) != [] ==> VersionOf(after, m) == to)
  {
    UpgradeOpsOfProper(lists, c, version);
    UpgradedVersionIs(c, version);
    if UpgradeOps(c, version) != [] {
      SliceRuns(db, c.moduleName, lists[c.moduleName], version, UpgradedVersion(c, version));
    }
  }

  /** The version a module has after an upgrade from the given one. */
  function UpgradedVersion(c: Call, version: int): int {
    if UpgradeOps(c, version) == [] then version else c.startVersion + |c.scripts| - 1
  }

  lemma UpgradedVersionIs(c: Call, version: int)
    ensures var end := c.startVersion - 1 + |c.scripts|;
            UpgradedVersion(c, version)
            == if c.startVersion <= version + 1 <= end && c.scripts != [] then end else version
  {
  }

  /** What a call leaves that comes after one cut short behind a script. */
  ghost predicate RunsAgain(list: seq<string>, m: string, cut: Db, again: Db, to: int) {
    var v, w := VersionOf(cut, m), |LogOf(cut.log, m)|;
    && 0 <= v < w <= |list| && v <= to <= |list|
    && LogOf(cut.log, m) == list[..w]
    && VersionOf(again, m) == to && LogOf(again.log, m) == list[..w] + list[v..to]
  }

  /** The upgrade from the recorded version runs again over a log that is ahead of it. */
  lemma UpgradeRunsAgain(lists: map<string, seq<string>>, cut: Db, c: Call, version: int, w: int)
    requires Proper(lists, c) && cut.hasTable && version == VersionOf(cut, c.moduleName)
    requires 1 <= version < w <= |lists[c.moduleName]|
    requires LogOf(cut.log, c.moduleName) == lists[c.moduleName][..w]
    ensures Ops(cut, c) == UpgradeOps(c, version)
    ensures RunsAgain(lists[c.moduleName], c.moduleName, cut, Upgraded(cut, c), UpgradedVersion(c, version))
  {
    UpgradeRuns(lists, cut, c, version);
  }

  lemma CutUpgradeRunsAgain(lists: map<string, seq<string>>, db: Db, c: Call, version: int, n: nat)
    requires Consistent(lists, db) && Proper(lists, c) && version == VersionOf(db, c.moduleName) >= 1
    requires 0 < n <= |UpgradeOps(c, version)| && UpgradeOps(c, version)[n - 1].Script?
    ensures var cut := ExecuteAll(db, UpgradeOps(c, version)[..n]);
            RunsAgain(lists[c.moduleName], c.moduleName, cut, Upgraded(cut, c), UpgradedVersion(c, version))
  {
    CutLeaves(lists, db, c, version, n);
    UpgradeRunsAgain(lists, ExecuteAll(db, UpgradeOps(c, version)[..n]), c, version, version + n);
  }

  lemma LogOfOneMore(db: Db, m: string, text: string)
    ensures LogOf(Execute(db, Script(m, text)).log, m) == LogOf(db.log, m) + [text]
  {
    assert (db.log + [Script(m, text)])[..|db.log|] == db.log;
  }

  /** Creation and upgrade on top of a database whose version counts as 0. */
  lemma CreationRuns(lists: map<string, seq<string>>, db: Db, c: Call)
    requires Proper(lists, c) && db.hasTable && c.create.Some?
    ensures var m, after, to := c.moduleName, ExecuteAll(db, SeeingOps(c, 0)), UpgradedVersion(c, 1);
            && 1 <= to <= |lists[m]| && VersionOf(after, m) == to && after.hasTable
            && LogOf(after.log, m) == LogOf(db.log, m) + lists[m][..to]
  {
    var m, list, to := c.moduleName, lists[c.moduleName], UpgradedVersion(c, 1);
    var create := Script(m, c.create.value);
    var created := Execute(Execute(db, create), SetVersion(m, 1));
    LogOfOneMore(db, m, c.create.value);
    UpgradeRuns(lists, created, c, 1);
    ExecuteTwo(db, create, SetVersion(m, 1), UpgradeOps(c, 1));
    assert [list[0]] + list[1..to] == list[..to];
    assert LogOf(db.log, m) + [list[0]] + list[1..to] == LogOf(db.log, m) + ([list[0]] + list[1..to]);
  }

  lemma CreationRunsAgain(lists: map<string, seq<string>>, cut: Db, c: Call)
    requires Proper(lists, c) && cut.hasTable && c.create.Some? && VersionOf(cut, c.moduleName) == 0
    requires LogOf(cut.log, c.moduleName) == lists[c.moduleName][..1]
    ensures RunsAgain(lists[c.moduleName], c.moduleName, cut, Upgraded(cut, c), UpgradedVersion(c, 1))
  {
    CreationRuns(lists, cut, c);
    var list, to := lists[c.moduleName], UpgradedVersion(c, 1);
    assert list[0..to] == list[..to];
  }

  /** The creation script has run, but its version has not been recorded. */
  lemma CutCreationRunsAgain(lists: map<string, seq<string>>, db: Db, c: Call)
    requires Consistent(lists, db) && Proper(lists, c) && db.hasTable && c.create.Some?
    requires VersionOf(db, c.moduleName) == 0
    ensures var cut := Execute(db, Script(c.moduleName, c.create.value));
            RunsAgain(lists[c.moduleName], c.moduleName, cut, Upgraded(cut, c), UpgradedVersion(c, 1))
  {
    var m, list := c.moduleName, lists[c.moduleName];
    assert ModuleConsistent(list, db, m);
    var cut := Execute(db, Script(m, c.create.value));
    LogOfOneMore(db, m, c.create.value);
    assert LogOf(cut.log, m) == list[..1];
    CreationRunsAgain(lists, cut, c);
  }

  lemma ExecuteTwo(db: Db, a: Op, b: Op, rest: seq<Op>)
    ensures ExecuteAll(db, [a, b] + rest) == ExecuteAll(Execute(Execute(db, a), b), rest)
  {
    var ops := [a, b] + rest;
    assert ops[1..] == [b] + rest && ops[1..][1..] == rest;
  }

  lemma CutNewModuleRunsAgain(lists: map<string, seq<string>>, db: Db, c: Call, n: nat)
    requires Consistent(lists, db) && Proper(lists, c) && db.hasTable && c.create.Some?
    requires VersionOf(db, c.moduleName) == 0
    requires 0 < n <= |SeeingOps(c, 0)| && SeeingOps(c, 0)[n - 1].Script?
    ensures var cut := ExecuteAll(db, SeeingOps(c, 0)[..n]);
            RunsAgain(lists[c.moduleName], c.moduleName, cut, Upgraded(cut, c), UpgradedVersion(c, 1))
  {
    var ops := SeeingOps(c, 0);
    if n == 1 {
      assert ops[..1] == [ops[0]] && [ops[0]][1..] == [];
      CutCreationRunsAgain(lists, db, c);
    } else {
      CreateKeepsConsistent(lists, db, c);
      AfterCreation(db, c, n - 2);
      CutUpgradeRunsAgain(lists, Created(db, c), c, 1, n - 2);
    }
  }

  lemma CutTableOpsRunAgain(lists: map<string, seq<string>>, db: Db, c: Call, n: nat)
    requires Consistent(lists, db) && Proper(lists, c) && db.hasTable
    requires 0 < n <= |TableOps(db, c)| && TableOps(db, c)[n - 1].Script?
    ensures var cut := ExecuteAll(db, TableOps(db, c)[..n]);
            var to := VersionOf(ExecuteAll(db, TableOps(db, c)), c.moduleName);
            RunsAgain(lists[c.moduleName], c.moduleName, cut, Upgraded(cut, c), to)
  {
    var m, version := c.moduleName, VersionOf(db, c.moduleName);
    assert ModuleConsistent(lists[m], db, m);
    if version != 0 {
      UpgradeRuns(lists, db, c, version);
      CutUpgradeRunsAgain(lists, db, c, version, n);
    } else {
      CreationRuns(lists, db, c);
      CutNewModuleRunsAgain(lists, db, c, n);
    }
  }

  /**
   * A call that is cut short behind a script leaves a log of w scripts and a recorded version
   * v < w. Repeating the call executes scripts v + 1 to w a second time, the creation script
   * included when v is 0, before it goes on to the version it would have reached at once.
   */
  lemma CutCallRunsScriptsAgain(lists: map<string, seq<string>>, db: Db, c: Call, n: nat)
    requires Consistent(lists, db) && Proper(lists, c)
    requires 0 < n <= |Ops(db, c)| && Ops(db, c)[n - 1].Script?
    ensures var cut := ExecuteAll(db, Ops(db, c)[..n]);
            var to := VersionOf(Upgraded(db, c), c.moduleName);
            RunsAgain(lists[c.moduleName], c.moduleName, cut, Upgraded(cut, c), to)
  {
    if db.hasTable {
      CutTableOpsRunAgain(lists, db, c, n);
    } else {
      var ops, made := Ops(db, c), Execute(db, MakeTable);
      MakeTableKeepsConsistent(lists, db);
      assert n > 1 && ops[n - 1] == TableOps(made, c)[n - 2] && ops[1..] == TableOps(made, c);
      assert ops[..n][1..] == TableOps(made, c)[..n - 1];
      CutTableOpsRunAgain(lists, made, c, n - 1);
    }
  }

  /**
   * When the query for the version of a created module fails, the call takes the module for
   * a new one: it executes the creation script and the scripts after it once more. Log and
   * version stay in step exactly when the call brings no creation script.
   */
  lemma FailedQueryIsHarmlessIff(lists: map<string, seq<string>>, db: Db, c: Call)
    requires Consistent(lists, db) && Proper(lists, c) && VersionOf(db, c.moduleName) >= 1
    ensures var m, after := c.moduleName, ExecuteAll(db, BlindOps(db, c));
            && (Consistent(lists, after) <==> c.create.None?)
            && (c.create.Some? ==>
                  && 1 <= VersionOf(after, m) <= |lists[m]|
                  && LogOf(after.log, m) == LogOf(db.log, m) + lists[m][..VersionOf(after, m)])
  {
    var m, list := c.moduleName, lists[c.moduleName];
    assert ModuleConsistent(list, db, m);
    assert BlindOps(db, c) == SeeingOps(c, 0);
    if c.create.Some? {
      CreationRuns(lists, db, c);
      assert !ModuleConsistent(list, ExecuteAll(db, BlindOps(db, c)), m);
    }
  }
}
