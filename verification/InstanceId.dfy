/** The instance ID over the life of an installation: restarts, updates and changes of the UI-disabled mode. */
module InstanceId {
  import opened Wrappers
  import opened AppConfigModel
  import opened AppConfigService

  /** One thing that happens to the table, done by the one process that runs at a time. */
  datatype Op =
    | Restart(env: Env, uuid: string, readable: bool, fault: Fault)
    | UpdateForm(env: Env, input: seq<Variable>, fault: Fault)
    | UpdateValues(env: Env, keysAndValues: seq<string>, fault: Fault)

  const ID := "instanceId"

  function Committed(table: Table): string {
    if ID in table then table[ID] else ""
  }

  function After(schema: Schema, defaults: seq<string>, instanceID: nat, table: Table, op: Op): Table
    requires instanceID < |schema| == |defaults|
  {
    match op
    case Restart(env, uuid, readable, fault) =>
      StartOutcome(schema, defaults, instanceID, env, table, uuid, readable, fault).table
    case UpdateForm(env, input, fault) => FormOutcome(schema, defaults, env, table, input, fault).table
    case UpdateValues(env, keysAndValues, fault) => ValuesOutcome(schema, defaults, env, table, keysAndValues, fault).table
  }

  function Run(schema: Schema, defaults: seq<string>, instanceID: nat, table: Table, ops: seq<Op>): Table
    requires instanceID < |schema| == |defaults|
  {
    if ops == [] then table
    else After(schema, defaults, instanceID, Run(schema, defaults, instanceID, table, ops[..|ops| - 1]), ops[|ops| - 1])
  }

  /** No call sets the ID on purpose. */
  ghost predicate Implicit(op: Op) {
    op.UpdateValues? ==> forall i :: 0 <= 2 * i < |op.keysAndValues| ==> op.keysAndValues[2 * i] != ID
  }

  /** With the UI disabled, the read of the ID failed, its error was dropped, and a new ID was written,
      whether its commit is then reported as a success or as an error. */
  predicate Forgets(schema: Schema, defaults: seq<string>, table: Table, op: Op)
    requires |schema| == |defaults|
  {
    && op.Restart?
    && op.env.uiDisabled && !op.env.idReadable
    && op.fault !in {BeginFails, UpsertFails, CommitFails}
    && EnvLoaded(schema, defaults, op.env, table, |schema|).Ok?
  }

  // What the rows name.

  predicate Names(rows: seq<Variable>, key: string) {
    exists i :: 0 <= i < |rows| && rows[i].key == key
  }

  lemma {:induction false} UnnamedKeepsValue(table: Table, rows: seq<Variable>)
    requires !Names(rows, ID)
    ensures Committed(Upserted(table, rows)) == Committed(table)
  {
    if rows != [] {
      assert rows[|rows| - 1].key != ID;
      assert forall i :: 0 <= i < |rows| - 1 ==> rows[..|rows| - 1][i] == rows[i];
      UnnamedKeepsValue(table, rows[..|rows| - 1]);
    }
  }

  /** A form cannot touch an internal field. */
  lemma {:induction false} KeptNamesNoInternal(schema: Schema, input: seq<Variable>, key: string)
    requires IsInternal(schema, key)
    ensures !Names(Kept(schema, input), key)
  {
    if input != [] {
      KeptNamesNoInternal(schema, input[..|input| - 1], key);
    }
  }

  lemma {:induction false} PairsNames(keysAndValues: seq<string>)
    requires |keysAndValues| % 2 == 0
    requires forall i :: 0 <= 2 * i < |keysAndValues| ==> keysAndValues[2 * i] != ID
    ensures !Names(Pairs(keysAndValues), ID)
  {
    if keysAndValues != [] {
      var n := |keysAndValues| - 2;
      assert keysAndValues[2 * (n / 2)] != ID;
      forall i | 0 <= 2 * i < n
        ensures keysAndValues[..n][2 * i] != ID
      {
        assert keysAndValues[2 * i] != ID;
      }
      PairsNames(keysAndValues[..n]);
    }
  }

  // One step.

  /** The configuration can be loaded: from the environment, or from a readable table. */
  predicate Loads(schema: Schema, defaults: seq<string>, table: Table, op: Op)
    requires |schema| == |defaults| && op.Restart?
  {
    if op.env.uiDisabled then EnvLoaded(schema, defaults, op.env, table, |schema|).Ok? else op.readable
  }

  /** The update of the ID gets as far as a commit that takes effect. */
  predicate Reaches(op: Op)
    requires op.Restart?
  {
    op.fault !in {BeginFails, UpsertFails, CommitFails} && (op.fault == LoadFails ==> op.env.uiDisabled)
  }

  /** A restart sees no ID if there is none, or if the UI is disabled and the ID cannot be read. */
  predicate SeesNone(table: Table, op: Op)
    requires op.Restart?
  {
    Committed(table) == "" || (op.env.uiDisabled && !op.env.idReadable)
  }

  lemma LoadedID(schema: Schema, defaults: seq<string>, instanceID: nat, table: Table, op: Op)
    requires |schema| == |defaults| && HasInstanceID(schema, defaults, instanceID)
    requires op.Restart? && Loads(schema, defaults, table, op)
    ensures var loaded := LoadOutcome(schema, defaults, op.env, table, op.readable);
      loaded.Ok? && (loaded.value[instanceID] == "" <==> SeesNone(table, op))
  {
    if op.env.uiDisabled {
      var loaded := EnvLoaded(schema, defaults, op.env, table, |schema|);
      assert EnvValue(schema[instanceID], defaults[instanceID], op.env, table) == Ok(loaded.value[instanceID]);
    }
  }

  /** A restart writes its new ID exactly if it can load, sees no ID and its update takes effect, and
      otherwise leaves the ID as it is. */
  lemma RestartWrites(schema: Schema, defaults: seq<string>, instanceID: nat, table: Table, op: Op)
    requires |schema| == |defaults| && HasInstanceID(schema, defaults, instanceID) && op.Restart?
    ensures Committed(After(schema, defaults, instanceID, table, op))
              == if Loads(schema, defaults, table, op) && SeesNone(table, op) && Reaches(op) then op.uuid else Committed(table)
  {
    SetsInstanceID(schema, defaults, instanceID, op.env, table, op.uuid, op.fault);
    if Loads(schema, defaults, table, op) {
      LoadedID(schema, defaults, instanceID, table, op);
    }
  }

  /** So a first start creates an ID, and a later one keeps it unless it forgets it. */
  lemma RestartStep(schema: Schema, defaults: seq<string>, instanceID: nat, table: Table, op: Op)
    requires |schema| == |defaults| && HasInstanceID(schema, defaults, instanceID) && op.Restart?
    ensures Committed(table) != "" ==>
      Committed(After(schema, defaults, instanceID, table, op))
        == if Forgets(schema, defaults, table, op) then op.uuid else Committed(table)
    ensures Committed(table) == "" && Loads(schema, defaults, table, op) && op.fault in {NoFault, CommitUnreported} ==>
      Committed(After(schema, defaults, instanceID, table, op)) == op.uuid
  {
    RestartWrites(schema, defaults, instanceID, table, op);
  }

  lemma UpdateStep(schema: Schema, defaults: seq<string>, instanceID: nat, table: Table, op: Op)
    requires |schema| == |defaults| && HasInstanceID(schema, defaults, instanceID)
    requires !op.Restart? && Implicit(op)
    ensures Committed(After(schema, defaults, instanceID, table, op)) == Committed(table)
  {
    if op.UpdateForm? {
      FormKeepsID(schema, defaults, instanceID, table, op.env, op.input, op.fault);
    } else {
      ValuesKeepID(schema, defaults, table, op.env, op.keysAndValues, op.fault);
    }
  }

  lemma FormKeepsID(schema: Schema, defaults: seq<string>, instanceID: nat, table: Table, env: Env, input: seq<Variable>, fault: Fault)
    requires |schema| == |defaults| && HasInstanceID(schema, defaults, instanceID)
    ensures Committed(FormOutcome(schema, defaults, env, table, input, fault).table) == Committed(table)
  {
    KeptNamesNoInternal(schema, input, ID);
    UnnamedKeepsValue(table, Kept(schema, input));
  }

  lemma ValuesTable(schema: Schema, defaults: seq<string>, table: Table, env: Env, keysAndValues: seq<string>, fault: Fault)
    requires |schema| == |defaults|
    ensures var left := ValuesOutcome(schema, defaults, env, table, keysAndValues, fault).table;
      left == table || (|keysAndValues| % 2 == 0 && left == Upserted(table, Pairs(keysAndValues)))
  {
  }

  lemma PairsKeepID(table: Table, keysAndValues: seq<string>)
    requires |keysAndValues| % 2 == 0
    requires forall i :: 0 <= 2 * i < |keysAndValues| ==> keysAndValues[2 * i] != ID
    ensures Committed(Upserted(table, Pairs(keysAndValues))) == Committed(table)
  {
    PairsNames(keysAndValues);
    UnnamedKeepsValue(table, Pairs(keysAndValues));
  }

  lemma ValuesKeepID(schema: Schema, defaults: seq<string>, table: Table, env: Env, keysAndValues: seq<string>, fault: Fault)
    requires |schema| == |defaults|
    requires forall i :: 0 <= 2 * i < |keysAndValues| ==> keysAndValues[2 * i] != ID
    ensures Committed(ValuesOutcome(schema, defaults, env, table, keysAndValues, fault).table) == Committed(table)
  {
    ValuesTable(schema, defaults, table, env, keysAndValues, fault);
    if |keysAndValues| % 2 == 0 {
      PairsKeepID(table, keysAndValues);
    }
  }

  // Whole lives.

  ghost predicate IDIsKept(schema: Schema, defaults: seq<string>, instanceID: nat, table: Table, ops: seq<Op>)
    requires instanceID < |schema| == |defaults|
  {
    forall k :: 0 <= k <= |ops| ==> Committed(Run(schema, defaults, instanceID, table, ops[..k])) == Committed(table)
  }

  /** Generated IDs are not empty and not the one already there. */
  predicate Fresh(op: Op, id: string) {
    op.Restart? ==> op.uuid != "" && op.uuid != id
  }

  ghost predicate NeverForgets(schema: Schema, defaults: seq<string>, instanceID: nat, table: Table, ops: seq<Op>)
    requires instanceID < |schema| == |defaults|
  {
    forall k :: 0 <= k < |ops| ==> !Forgets(schema, defaults, Run(schema, defaults, instanceID, table, ops[..k]), ops[k])
  }

  lemma RunStep(schema: Schema, defaults: seq<string>, instanceID: nat, table: Table, ops: seq<Op>, k: nat)
    requires instanceID < |schema| == |defaults| && k < |ops|
    ensures Run(schema, defaults, instanceID, table, ops[..k + 1])
              == After(schema, defaults, instanceID, Run(schema, defaults, instanceID, table, ops[..k]), ops[k])
  {
    assert ops[..k + 1][..k] == ops[..k];
  }

  lemma {:induction false} KeptUpTo(schema: Schema, defaults: seq<string>, instanceID: nat, table: Table, ops: seq<Op>, k: nat)
    requires |schema| == |defaults| && HasInstanceID(schema, defaults, instanceID) && k <= |ops|
    requires Committed(table) != "" && forall n :: 0 <= n < |ops| ==> Implicit(ops[n])
    requires NeverForgets(schema, defaults, instanceID, table, ops)
    ensures Committed(Run(schema, defaults, instanceID, table, ops[..k])) == Committed(table)
  {
    if k > 0 {
      KeptUpTo(schema, defaults, instanceID, table, ops, k - 1);
      RunStep(schema, defaults, instanceID, table, ops, k - 1);
      var before := Run(schema, defaults, instanceID, table, ops[..k - 1]);
      if ops[k - 1].Restart? {
        RestartStep(schema, defaults, instanceID, before, ops[k - 1]);
      } else {
        UpdateStep(schema, defaults, instanceID, before, ops[k - 1]);
      }
    }
  }

  /** A committed ID stays for good exactly if no restart with the UI disabled fails to read it. */
  lemma IDIsKeptIff(schema: Schema, defaults: seq<string>, instanceID: nat, table: Table, ops: seq<Op>)
    requires |schema| == |defaults| && HasInstanceID(schema, defaults, instanceID)
    requires Committed(table) != ""
    requires forall n :: 0 <= n < |ops| ==> Implicit(ops[n]) && Fresh(ops[n], Committed(table))
    ensures IDIsKept(schema, defaults, instanceID, table, ops) <==> NeverForgets(schema, defaults, instanceID, table, ops)
  {
    if NeverForgets(schema, defaults, instanceID, table, ops) {
      forall k | 0 <= k <= |ops|
        ensures Committed(Run(schema, defaults, instanceID, table, ops[..k])) == Committed(table)
      {
        KeptUpTo(schema, defaults, instanceID, table, ops, k);
      }
    } else {
      var k :| 0 <= k < |ops| && Forgets(schema, defaults, Run(schema, defaults, instanceID, table, ops[..k]), ops[k]);
      var before := Run(schema, defaults, instanceID, table, ops[..k]);
      if Committed(before) == Committed(table) {
        RestartStep(schema, defaults, instanceID, before, ops[k]);
        RunStep(schema, defaults, instanceID, table, ops, k);
        assert Committed(Run(schema, defaults, instanceID, table, ops[..k + 1])) != Committed(table);
      }
    }
  }

  /** One restart that misses the row that is there, and may even report that it has failed. */
  lemma FailedReadLosesID(uuid: string, fault: Fault)
    requires uuid != "" && (fault.NoFault? || fault.CommitUnreported?)
    ensures var schema, defaults, table := [Field(ID, Internal)], [""], map[ID := "first"];
      var env := Env(true, map[], map[], false);
      && HasInstanceID(schema, defaults, 0)
      && Committed(table) == "first"
      && Committed(Run(schema, defaults, 0, table, [Restart(env, uuid, true, fault)])) == uuid
  {
    var schema, defaults, table := [Field(ID, Internal)], [""], map[ID := "first"];
    var env := Env(true, map[], map[], false);
    var op := Restart(env, uuid, true, fault);
    IndexOfIsFirst(schema, ID, 0);
    assert EnvLoaded(schema, defaults, env, table, 0) == Ok([]);
    assert EnvLoaded(schema, defaults, env, table, 1).Ok?;
    RestartStep(schema, defaults, 0, table, op);
    RunStep(schema, defaults, 0, table, [op], 0);
    assert [op][..1] == [op] && [op][..0] == [];
  }
}
