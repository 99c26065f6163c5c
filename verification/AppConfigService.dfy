/** The configuration service of one process: a cached configuration over a table shared with others. */
module AppConfigService {
  import opened Wrappers
  import opened AppConfigModel
  import StringUtil

  type Table = map<string, string>

  /** What the process finds around it. `files` are the readable secret files; `idReadable` says
      whether a single internal value can be read from the database. */
  datatype Env = Env(uiDisabled: bool, vars: map<string, string>, files: map<string, string>, idReadable: bool)

  datatype ServiceError = UiConfigDisabled | BadArguments | BadKey | DatabaseFailure | FileFailure

  /** Where an update's calls on the database fail, if anywhere. A commit can also take effect and answer
      with an error. */
  datatype Fault = NoFault | BeginFails | LoadFails | UpsertFails | CommitFails | CommitUnreported

  // What the table says.

  /** The field that the rows under its key are for. */
  predicate IsFirst(schema: Schema, i: nat)
    requires i < |schema|
  {
    IndexOf(schema, schema[i].key) == Some(i)
  }

  function LoadedValue(schema: Schema, defaults: seq<string>, table: Table, i: nat): string
    requires i < |schema| == |defaults|
  {
    if IsFirst(schema, i) && schema[i].key in table then table[schema[i].key] else defaults[i]
  }

  /** The configuration as a fresh load sees it. */
  function Loaded(schema: Schema, defaults: seq<string>, table: Table): (values: seq<string>)
    requires |schema| == |defaults|
    ensures |values| == |schema| && forall i :: 0 <= i < |schema| ==> values[i] == LoadedValue(schema, defaults, table, i)
  {
    seq(|schema|, i requires 0 <= i < |schema| => LoadedValue(schema, defaults, table, i))
  }

  /** On a new installation every setting has its default. */
  lemma EmptyTableGivesDefaults(schema: Schema, defaults: seq<string>)
    requires |schema| == |defaults|
    ensures Loaded(schema, defaults, map[]) == defaults
  {
  }

  /** The upsert of all rows, one after the other. */
  function Upserted(table: Table, rows: seq<Variable>): Table {
    if rows == [] then table
    else Upserted(table, rows[..|rows| - 1])[rows[|rows| - 1].key := rows[|rows| - 1].value]
  }

  /** What an update puts into memory for a row: the default stands in for the empty string. */
  function Effective(default: string, value: string): string {
    if value == "" then default else value
  }

  function WriteRow(schema: Schema, defaults: seq<string>, values: seq<string>, row: Variable): (r: seq<string>)
    requires |values| == |schema| == |defaults|
    ensures |r| == |schema|
  {
    match IndexOf(schema, row.key)
    case None => values
    case Some(i) => values[i := Effective(defaults[i], row.value)]
  }

  /** The same rows written into a configuration in memory. */
  function Written(schema: Schema, defaults: seq<string>, values: seq<string>, rows: seq<Variable>): (r: seq<string>)
    requires |values| == |schema| == |defaults|
    ensures |r| == |schema|
  {
    if rows == [] then values
    else WriteRow(schema, defaults, Written(schema, defaults, values, rows[..|rows| - 1]), rows[|rows| - 1])
  }

  function LastValue(rows: seq<Variable>, key: string): Option<string> {
    if rows == [] then None
    else if rows[|rows| - 1].key == key then Some(rows[|rows| - 1].value)
    else LastValue(rows[..|rows| - 1], key)
  }

  lemma {:induction false} NoLastValue(rows: seq<Variable>, key: string)
    ensures LastValue(rows, key) == None <==> forall i :: 0 <= i < |rows| ==> rows[i].key != key
  {
    if rows != [] {
      NoLastValue(rows[..|rows| - 1], key);
    }
  }

  /** The last value for a key is that of a row with the key after which no other row has it. */
  lemma {:induction false} LastValueIs(rows: seq<Variable>, key: string, i: nat)
    requires i < |rows| && rows[i].key == key && forall j :: i < j < |rows| ==> rows[j].key != key
    ensures LastValue(rows, key) == Some(rows[i].value)
  {
    if i < |rows| - 1 {
      LastValueIs(rows[..|rows| - 1], key, i);
    }
  }

  lemma {:induction false} UpsertLastWins(table: Table, rows: seq<Variable>, key: string)
    ensures key in Upserted(table, rows) <==> key in table || LastValue(rows, key).Some?
    ensures key in Upserted(table, rows) ==>
      Upserted(table, rows)[key] == if LastValue(rows, key).Some? then LastValue(rows, key).value else table[key]
  {
    if rows != [] {
      UpsertLastWins(table, rows[..|rows| - 1], key);
    }
  }

  lemma {:induction false} WrittenLastWins(schema: Schema, defaults: seq<string>, values: seq<string>, rows: seq<Variable>, i: nat)
    requires i < |schema| == |values| == |defaults|
    ensures var last := LastValue(rows, schema[i].key);
      Written(schema, defaults, values, rows)[i]
        == if IsFirst(schema, i) && last.Some? then Effective(defaults[i], last.value) else values[i]
  {
    if rows != [] {
      WrittenLastWins(schema, defaults, values, rows[..|rows| - 1], i);
    }
  }

  /** Key by key, what an update leaves in memory is what a reload finds, unless the last value written
      is empty and the default is not. */
  lemma AgreementAt(schema: Schema, defaults: seq<string>, table: Table, rows: seq<Variable>, i: nat)
    requires i < |schema| == |defaults|
    ensures Written(schema, defaults, Loaded(schema, defaults, table), rows)[i]
              == Loaded(schema, defaults, Upserted(table, rows))[i]
            <==> !(IsFirst(schema, i) && LastValue(rows, schema[i].key) == Some("") && defaults[i] != "")
  {
    UpsertLastWins(table, rows, schema[i].key);
    WrittenLastWins(schema, defaults, Loaded(schema, defaults, table), rows, i);
  }

  /** Every key whose last written value is empty has an empty default. */
  ghost predicate BlanksHaveBlankDefaults(schema: Schema, defaults: seq<string>, rows: seq<Variable>)
    requires |schema| == |defaults|
  {
    forall i :: 0 <= i < |schema| && IsFirst(schema, i) && LastValue(rows, schema[i].key) == Some("") ==> defaults[i] == ""
  }

  /** After an update the cache equals a reload exactly if no key has been blanked to a non-empty default. */
  lemma CacheAgreesIff(schema: Schema, defaults: seq<string>, table: Table, rows: seq<Variable>)
    requires |schema| == |defaults|
    ensures Written(schema, defaults, Loaded(schema, defaults, table), rows) == Loaded(schema, defaults, Upserted(table, rows))
      <==> BlanksHaveBlankDefaults(schema, defaults, rows)
  {
    var cached, reloaded := Written(schema, defaults, Loaded(schema, defaults, table), rows),
                            Loaded(schema, defaults, Upserted(table, rows));
    forall i | 0 <= i < |schema|
      ensures cached[i] == reloaded[i]
        <==> !(IsFirst(schema, i) && LastValue(rows, schema[i].key) == Some("") && defaults[i] != "")
    {
      AgreementAt(schema, defaults, table, rows, i);
    }
    if BlanksHaveBlankDefaults(schema, defaults, rows) {
      assert forall i :: 0 <= i < |schema| ==> cached[i] == reloaded[i];
    }
  }

  lemma BlankedDefaultDisagrees()
    ensures var schema, rows := [Field("accentColor", Public)], [Variable("accentColor", "")];
      && Written(schema, ["default"], Loaded(schema, ["default"], map[]), rows) == ["default"]
      && Loaded(schema, ["default"], Upserted(map[], rows)) == [""]
  {
    var schema, rows := [Field("accentColor", Public)], [Variable("accentColor", "")];
    IndexOfIsFirst(schema, "accentColor", 0);
    assert rows[..0] == [];
  }

  // Loading.

  function SecretFile(name: string, env: Env): string {
    if name + "_FILE" in env.vars then env.vars[name + "_FILE"] else ""
  }

  /** What the environment says of a field; only a secret's file can be missing. */
  function EnvValue(field: Field, default: string, env: Env, table: Table): Result<string, ServiceError> {
    var name := StringUtil.CamelCaseToScreamingSnakeCase(field.key);
    if field.attribute.Internal? then
      Ok(if env.idReadable && field.key in table then table[field.key] else default)
    else if name in env.vars then Ok(env.vars[name])
    else if field.attribute.Sensitive? && SecretFile(name, env) != "" then
      if SecretFile(name, env) in env.files then Ok(env.files[SecretFile(name, env)]) else Err(FileFailure)
    else Ok(default)
  }

  /** Where a field's value comes from with the UI disabled: its row, its variable, its secret's file or its
      default, in this order, and an empty variable counts as set. */
  lemma EnvValueMeans(field: Field, default: string, env: Env, table: Table)
    ensures var r, name := EnvValue(field, default, env, table), StringUtil.CamelCaseToScreamingSnakeCase(field.key);
      && (field.attribute == Internal && env.idReadable && field.key in table ==> r == Ok(table[field.key]))
      && (field.attribute == Internal && !(env.idReadable && field.key in table) ==> r == Ok(default))
      && (field.attribute != Internal && name in env.vars ==> r == Ok(env.vars[name]))
      && (field.attribute != Internal && field.attribute != Sensitive && name !in env.vars ==> r == Ok(default))
      && (field.attribute == Sensitive && name !in env.vars ==>
            if name + "_FILE" in env.vars && env.vars[name + "_FILE"] != "" then
              var file := env.vars[name + "_FILE"];
              r == if file in env.files then Ok(env.files[file]) else Err(FileFailure)
            else r == Ok(default))
  {
  }

  /** The configuration that the environment gives to the first n fields. */
  function EnvLoaded(schema: Schema, defaults: seq<string>, env: Env, table: Table, n: nat): (r: Result<seq<string>, ServiceError>)
    requires n <= |schema| == |defaults|
    ensures r.Ok? ==> |r.value| == n
    ensures r.Ok? ==> forall i :: 0 <= i < n ==> EnvValue(schema[i], defaults[i], env, table) == Ok(r.value[i])
    ensures r.Err? ==> r.error == FileFailure && exists i :: 0 <= i < n && EnvValue(schema[i], defaults[i], env, table).Err?
  {
    if n == 0 then Ok([])
    else
      var before := EnvLoaded(schema, defaults, env, table, n - 1);
      if before.Err? then before
      else
        match EnvValue(schema[n - 1], defaults[n - 1], env, table)
        case Err(e) => Err(e)
        case Ok(value) => Ok(before.value + [value])
  }

  lemma EnvStep(schema: Schema, defaults: seq<string>, env: Env, table: Table, values: seq<string>, i: nat, value: string)
    requires i < |schema| == |defaults| == |values|
    requires EnvLoaded(schema, defaults, env, table, i) == Ok(values[..i])
    requires EnvValue(schema[i], defaults[i], env, table) == Ok(value)
    ensures EnvLoaded(schema, defaults, env, table, i + 1) == Ok(values[i := value][..i + 1])
  {
    assert values[i := value][..i + 1] == values[..i] + [value];
  }

  lemma {:induction false} EnvErrorStays(schema: Schema, defaults: seq<string>, env: Env, table: Table, m: nat, n: nat)
    requires m <= n <= |schema| == |defaults| && EnvLoaded(schema, defaults, env, table, m).Err?
    ensures EnvLoaded(schema, defaults, env, table, n) == EnvLoaded(schema, defaults, env, table, m)
  {
    if m < n {
      EnvErrorStays(schema, defaults, env, table, m, n - 1);
    }
  }

  function LoadOutcome(schema: Schema, defaults: seq<string>, env: Env, table: Table, readable: bool)
    : (r: Result<seq<string>, ServiceError>)
    requires |schema| == |defaults|
    ensures r.Ok? ==> |r.value| == |schema|
  {
    if env.uiDisabled then EnvLoaded(schema, defaults, env, table, |schema|)
    else if !readable then Err(DatabaseFailure)
    else Ok(Loaded(schema, defaults, table))
  }

  // Updating.

  function Pairs(keysAndValues: seq<string>): seq<Variable> {
    if |keysAndValues| < 2 then []
    else
      var n := |keysAndValues| - 2;
      Pairs(keysAndValues[..n]) + [Variable(keysAndValues[n], keysAndValues[n + 1])]
  }

  /** Pair n of the arguments is row n. */
  lemma {:induction false} PairsAre(keysAndValues: seq<string>, n: nat)
    ensures |Pairs(keysAndValues)| == |keysAndValues| / 2
    ensures n < |keysAndValues| / 2 && |keysAndValues| % 2 == 0 ==>
      Pairs(keysAndValues)[n] == Variable(keysAndValues[2 * n], keysAndValues[2 * n + 1])
    decreases |keysAndValues|
  {
    if |keysAndValues| >= 2 {
      PairsAre(keysAndValues[..|keysAndValues| - 2], n);
    }
  }

  function RowRefusal(schema: Schema, uiDisabled: bool, key: string): Option<ServiceError> {
    match IndexOf(schema, key)
    case None => Some(BadKey)
    case Some(i) => if uiDisabled && !schema[i].attribute.Internal? then Some(UiConfigDisabled) else None
  }

  /** Why the first row that an update refuses is refused. */
  function Refusal(schema: Schema, uiDisabled: bool, rows: seq<Variable>): Option<ServiceError> {
    if rows == [] then None
    else
      var before := Refusal(schema, uiDisabled, rows[..|rows| - 1]);
      if before.Some? then before else RowRefusal(schema, uiDisabled, rows[|rows| - 1].key)
  }

  /** The first field with this key is internal. */
  ghost predicate NamesInternal(schema: Schema, key: string) {
    exists i :: 0 <= i < |schema| && schema[i] == Field(key, Internal) && forall j :: 0 <= j < i ==> schema[j].key != key
  }

  ghost predicate NamesField(schema: Schema, key: string) {
    exists i :: 0 <= i < |schema| && schema[i].key == key
  }

  /** A row is refused exactly if its key is of no field, or of a field that is not internal while the UI is
      disabled. */
  lemma RowRefusalMeans(schema: Schema, uiDisabled: bool, key: string)
    ensures RowRefusal(schema, uiDisabled, key) == Some(BadKey) <==> !NamesField(schema, key)
    ensures RowRefusal(schema, uiDisabled, key) == Some(UiConfigDisabled) <==>
      NamesField(schema, key) && uiDisabled && !NamesInternal(schema, key)
    ensures RowRefusal(schema, uiDisabled, key) == None <==>
      NamesField(schema, key) && (uiDisabled ==> NamesInternal(schema, key))
  {
    var i := IndexOf(schema, key);
    if i.Some? && schema[i.value].attribute.Internal? {
      assert schema[i.value] == Field(key, Internal);
    }
  }

  lemma {:induction false} NoRefusal(schema: Schema, uiDisabled: bool, rows: seq<Variable>)
    ensures Refusal(schema, uiDisabled, rows) == None <==>
      forall i :: 0 <= i < |rows| ==> RowRefusal(schema, uiDisabled, rows[i].key) == None
  {
    if rows != [] {
      var n := |rows| - 1;
      NoRefusal(schema, uiDisabled, rows[..n]);
      assert forall i :: 0 <= i < n ==> rows[..n][i] == rows[i];
    }
  }

  /** The error is that of the first row that is refused. */
  lemma {:induction false} RefusalIsFirst(schema: Schema, uiDisabled: bool, rows: seq<Variable>, i: nat)
    requires i < |rows| && RowRefusal(schema, uiDisabled, rows[i].key).Some?
    requires forall j :: 0 <= j < i ==> RowRefusal(schema, uiDisabled, rows[j].key) == None
    ensures Refusal(schema, uiDisabled, rows) == RowRefusal(schema, uiDisabled, rows[i].key)
  {
    var n := |rows| - 1;
    if i < n {
      RefusalIsFirst(schema, uiDisabled, rows[..n], i);
    } else {
      NoRefusal(schema, uiDisabled, rows[..n]);
    }
  }

  lemma PairsStep(keysAndValues: seq<string>, i: nat)
    requires i + 1 < |keysAndValues|
    ensures Pairs(keysAndValues[..i + 2]) == Pairs(keysAndValues[..i]) + [Variable(keysAndValues[i], keysAndValues[i + 1])]
  {
    assert keysAndValues[..i + 2][..i] == keysAndValues[..i];
  }

  lemma RefusalStep(schema: Schema, uiDisabled: bool, rows: seq<Variable>, row: Variable)
    ensures Refusal(schema, uiDisabled, rows + [row])
              == if Refusal(schema, uiDisabled, rows).Some? then Refusal(schema, uiDisabled, rows)
                 else RowRefusal(schema, uiDisabled, row.key)
  {
    assert (rows + [row])[..|rows|] == rows;
  }

  lemma {:induction false} RefusalStays(schema: Schema, uiDisabled: bool, keysAndValues: seq<string>, i: nat)
    requires i <= |keysAndValues| && i % 2 == 0 && |keysAndValues| % 2 == 0
    requires Refusal(schema, uiDisabled, Pairs(keysAndValues[..i])).Some?
    ensures Refusal(schema, uiDisabled, Pairs(keysAndValues)) == Refusal(schema, uiDisabled, Pairs(keysAndValues[..i]))
    decreases |keysAndValues| - i
  {
    if i == |keysAndValues| {
      assert keysAndValues[..i] == keysAndValues;
    } else {
      PairsStep(keysAndValues, i);
      RefusalStep(schema, uiDisabled, Pairs(keysAndValues[..i]), Variable(keysAndValues[i], keysAndValues[i + 1]));
      RefusalStays(schema, uiDisabled, keysAndValues, i + 2);
    }
  }

  lemma WrittenStep(schema: Schema, defaults: seq<string>, values: seq<string>, rows: seq<Variable>, row: Variable)
    requires |values| == |schema| == |defaults|
    ensures Written(schema, defaults, values, rows + [row])
              == WriteRow(schema, defaults, Written(schema, defaults, values, rows), row)
  {
    assert (rows + [row])[..|rows|] == rows;
  }

  /** The rows of a form that an update writes: all but those of internal fields. */
  function Kept(schema: Schema, input: seq<Variable>): seq<Variable> {
    if input == [] then []
    else
      var before, row := Kept(schema, input[..|input| - 1]), input[|input| - 1];
      if IsInternal(schema, row.key) then before else before + [row]
  }

  predicate IsInternal(schema: Schema, key: string) {
    var i := IndexOf(schema, key);
    i.Some? && schema[i.value].attribute.Internal?
  }

  lemma IsInternalMeans(schema: Schema, key: string)
    ensures IsInternal(schema, key) <==> NamesInternal(schema, key)
  {
    var i := IndexOf(schema, key);
    if i.Some? && schema[i.value].attribute.Internal? {
      assert schema[i.value] == Field(key, Internal);
    }
  }

  /** A form keeps every value for a key that is not internal, and none for one that is. */
  lemma {:induction false} KeptMeans(schema: Schema, input: seq<Variable>, key: string)
    ensures LastValue(Kept(schema, input), key) == if NamesInternal(schema, key) then None else LastValue(input, key)
  {
    IsInternalMeans(schema, key);
    if input != [] {
      KeptMeans(schema, input[..|input| - 1], key);
      KeptLast(schema, input, key);
    }
  }

  lemma KeptLast(schema: Schema, input: seq<Variable>, key: string)
    requires input != []
    ensures var before, row := Kept(schema, input[..|input| - 1]), input[|input| - 1];
      LastValue(Kept(schema, input), key)
        == if row.key == key && !IsInternal(schema, key) then Some(row.value) else LastValue(before, key)
  {
    var before, row := Kept(schema, input[..|input| - 1]), input[|input| - 1];
    assert (before + [row])[..|before|] == before;
  }

  lemma KeptStep(schema: Schema, input: seq<Variable>, i: nat)
    requires i < |input|
    ensures Kept(schema, input[..i + 1])
              == if IsInternal(schema, input[i].key) then Kept(schema, input[..i]) else Kept(schema, input[..i]) + [input[i]]
  {
    assert input[..i + 1][..i] == input[..i];
  }

  predicate Known(schema: Schema, input: seq<Variable>) {
    forall k :: 0 <= k < |input| ==> IndexOf(schema, input[k].key).Some?
  }

  /** What the loop over the pairs has done: none refused, all collected and written. */
  ghost predicate PairsWritten(schema: Schema, defaults: seq<string>, uiDisabled: bool, base: seq<string>,
                               done: seq<string>, rows: seq<Variable>, values: seq<string>)
    requires |base| == |schema| == |defaults|
  {
    && rows == Pairs(done) && Refusal(schema, uiDisabled, rows) == None
    && values == Written(schema, defaults, base, rows)
  }

  lemma PairStep(schema: Schema, defaults: seq<string>, uiDisabled: bool, base: seq<string>,
                 keysAndValues: seq<string>, i: nat, rows: seq<Variable>, values: seq<string>)
    requires |base| == |schema| == |defaults| && |values| == |schema|
    requires i + 1 < |keysAndValues| && i % 2 == 0 && |keysAndValues| % 2 == 0
    requires PairsWritten(schema, defaults, uiDisabled, base, keysAndValues[..i], rows, values)
    ensures var row := Variable(keysAndValues[i], keysAndValues[i + 1]);
      var refusal := RowRefusal(schema, uiDisabled, row.key);
      if refusal.Some? then Refusal(schema, uiDisabled, Pairs(keysAndValues)) == refusal
      else PairsWritten(schema, defaults, uiDisabled, base, keysAndValues[..i + 2], rows + [row],
                        WriteRow(schema, defaults, values, row))
  {
    var row := Variable(keysAndValues[i], keysAndValues[i + 1]);
    PairsStep(keysAndValues, i);
    RefusalStep(schema, uiDisabled, rows, row);
    WrittenStep(schema, defaults, base, rows, row);
    if RowRefusal(schema, uiDisabled, row.key).Some? {
      RefusalStays(schema, uiDisabled, keysAndValues, i + 2);
    }
  }

  /** What the loop over the form has done: all keys known, all but the internal ones collected and written. */
  ghost predicate FormWritten(schema: Schema, defaults: seq<string>, base: seq<string>,
                              done: seq<Variable>, rows: seq<Variable>, values: seq<string>)
    requires |base| == |schema| == |defaults|
  {
    Known(schema, done) && rows == Kept(schema, done) && values == Written(schema, defaults, base, rows)
  }

  lemma KnownNext(schema: Schema, input: seq<Variable>, i: nat)
    requires i < |input|
    ensures Known(schema, input[..i + 1]) <==> Known(schema, input[..i]) && IndexOf(schema, input[i].key).Some?
    ensures IndexOf(schema, input[i].key).None? ==> !Known(schema, input)
  {
    assert forall k :: 0 <= k < i ==> input[..i + 1][k] == input[..i][k];
    assert input[..i + 1][i] == input[i];
  }

  lemma FormStep(schema: Schema, defaults: seq<string>, base: seq<string>,
                 input: seq<Variable>, i: nat, rows: seq<Variable>, values: seq<string>)
    requires |base| == |schema| == |defaults| && |values| == |schema| && i < |input|
    requires FormWritten(schema, defaults, base, input[..i], rows, values)
    ensures IndexOf(schema, input[i].key).None? ==> !Known(schema, input)
    ensures IndexOf(schema, input[i].key).Some? ==>
      if IsInternal(schema, input[i].key) then FormWritten(schema, defaults, base, input[..i + 1], rows, values)
      else FormWritten(schema, defaults, base, input[..i + 1], rows + [input[i]], WriteRow(schema, defaults, values, input[i]))
  {
    KnownNext(schema, input, i);
    KeptStep(schema, input, i);
    WrittenStep(schema, defaults, base, rows, input[i]);
  }

  /** The table that an update leaves, and the configuration it stores or the error it returns. */
  datatype Outcome = Outcome(table: Table, stored: Result<seq<string>, ServiceError>)

  function Commit(schema: Schema, defaults: seq<string>, table: Table, values: seq<string>, rows: seq<Variable>, fault: Fault)
    : (r: Outcome)
    requires |values| == |schema| == |defaults|
    ensures r.stored.Ok? ==> |r.stored.value| == |schema|
  {
    if fault.UpsertFails? || fault.CommitFails? then Outcome(table, Err(DatabaseFailure))
    else Outcome(Upserted(table, rows),
                 if fault.CommitUnreported? then Err(DatabaseFailure) else Ok(Written(schema, defaults, values, rows)))
  }

  function ValuesOutcome(schema: Schema, defaults: seq<string>, env: Env, table: Table, keysAndValues: seq<string>, fault: Fault)
    : (r: Outcome)
    requires |schema| == |defaults|
    ensures r.stored.Ok? ==> |r.stored.value| == |schema|
  {
    if |keysAndValues| % 2 != 0 then Outcome(table, Err(BadArguments))
    else if fault.BeginFails? then Outcome(table, Err(DatabaseFailure))
    else
      match LoadOutcome(schema, defaults, env, table, !fault.LoadFails?)
      case Err(e) => Outcome(table, Err(e))
      case Ok(values) =>
        var refusal := Refusal(schema, env.uiDisabled, Pairs(keysAndValues));
        if refusal.Some? then Outcome(table, Err(refusal.value))
        else Commit(schema, defaults, table, values, Pairs(keysAndValues), fault)
  }

  function FormOutcome(schema: Schema, defaults: seq<string>, env: Env, table: Table, input: seq<Variable>, fault: Fault)
    : (r: Outcome)
    requires |schema| == |defaults|
    ensures r.stored.Ok? ==> |r.stored.value| == |schema|
  {
    if env.uiDisabled then Outcome(table, Err(UiConfigDisabled))
    else if fault.BeginFails? || fault.LoadFails? then Outcome(table, Err(DatabaseFailure))
    else if !Known(schema, input) then Outcome(table, Err(BadKey))
    else Commit(schema, defaults, table, Loaded(schema, defaults, table), Kept(schema, input), fault)
  }

  /** Every key is that of a field, and of an internal one if the UI is disabled. */
  ghost predicate Writable(schema: Schema, uiDisabled: bool, rows: seq<Variable>) {
    forall n :: 0 <= n < |rows| ==> NamesField(schema, rows[n].key) && (uiDisabled ==> NamesInternal(schema, rows[n].key))
  }

  lemma NotRefusedIff(schema: Schema, uiDisabled: bool, rows: seq<Variable>)
    ensures Refusal(schema, uiDisabled, rows) == None <==> Writable(schema, uiDisabled, rows)
  {
    NoRefusal(schema, uiDisabled, rows);
    forall n | 0 <= n < |rows|
      ensures RowRefusal(schema, uiDisabled, rows[n].key) == None <==>
        NamesField(schema, rows[n].key) && (uiDisabled ==> NamesInternal(schema, rows[n].key))
    {
      RowRefusalMeans(schema, uiDisabled, rows[n].key);
    }
  }

  /** When an update of values succeeds: even arguments, no failure of the database that it notices, a
      configuration that can be loaded, and keys that may be written. */
  lemma ValuesSucceedIff(schema: Schema, defaults: seq<string>, env: Env, table: Table, keysAndValues: seq<string>, fault: Fault)
    requires |schema| == |defaults|
    ensures ValuesOutcome(schema, defaults, env, table, keysAndValues, fault).stored.Ok? <==>
      && |keysAndValues| % 2 == 0
      && (fault == NoFault || (fault == LoadFails && env.uiDisabled))
      && (env.uiDisabled ==> EnvLoaded(schema, defaults, env, table, |schema|).Ok?)
      && Writable(schema, env.uiDisabled, Pairs(keysAndValues))
  {
    NotRefusedIff(schema, env.uiDisabled, Pairs(keysAndValues));
  }

  /** Which error an update of values returns. */
  lemma ValuesErrorIs(schema: Schema, defaults: seq<string>, env: Env, table: Table, keysAndValues: seq<string>, fault: Fault)
    requires |schema| == |defaults|
    ensures var stored := ValuesOutcome(schema, defaults, env, table, keysAndValues, fault).stored;
      && (stored == Err(BadArguments) <==> |keysAndValues| % 2 != 0)
      && (stored == Err(FileFailure) ==> env.uiDisabled && EnvLoaded(schema, defaults, env, table, |schema|).Err?)
      && (stored == Err(DatabaseFailure) ==> fault != NoFault)
      && (stored == Err(BadKey) || stored == Err(UiConfigDisabled) ==> !Writable(schema, env.uiDisabled, Pairs(keysAndValues)))
      && (stored == Err(UiConfigDisabled) ==> env.uiDisabled)
  {
    var rows := Pairs(keysAndValues);
    NotRefusedIff(schema, env.uiDisabled, rows);
    RefusalKinds(schema, env.uiDisabled, rows);
    if |keysAndValues| % 2 == 0 && !fault.BeginFails? {
      match LoadOutcome(schema, defaults, env, table, !fault.LoadFails?)
      case Err(e) =>
      case Ok(values) =>
        var refusal := Refusal(schema, env.uiDisabled, rows);
        if refusal == None {
          assert Commit(schema, defaults, table, values, rows, fault).stored.Err? ==> fault != NoFault;
        }
    }
  }

  lemma {:induction false} RefusalKinds(schema: Schema, uiDisabled: bool, rows: seq<Variable>)
    ensures var refusal := Refusal(schema, uiDisabled, rows);
      refusal.Some? ==> refusal.value == BadKey || (refusal.value == UiConfigDisabled && uiDisabled)
  {
    if rows != [] {
      RefusalKinds(schema, uiDisabled, rows[..|rows| - 1]);
    }
  }

  /** When a form succeeds: the UI is enabled, the database does not fail and every key is of a field. */
  lemma FormSucceedsIff(schema: Schema, defaults: seq<string>, env: Env, table: Table, input: seq<Variable>, fault: Fault)
    requires |schema| == |defaults|
    ensures FormOutcome(schema, defaults, env, table, input, fault).stored.Ok? <==>
      !env.uiDisabled && fault == NoFault && forall n :: 0 <= n < |input| ==> NamesField(schema, input[n].key)
  {
    forall n | 0 <= n < |input|
      ensures IndexOf(schema, input[n].key).Some? <==> NamesField(schema, input[n].key)
    {
      RowRefusalMeans(schema, false, input[n].key);
    }
  }

  /** An update that returns an error has changed the table exactly if the error is that of a commit that
      took effect and the rows change anything; the table is then the one that success would have left. */
  lemma ErrorChangesTableIff(schema: Schema, defaults: seq<string>, env: Env, table: Table, keysAndValues: seq<string>, fault: Fault)
    requires |schema| == |defaults| && ValuesOutcome(schema, defaults, env, table, keysAndValues, fault).stored.Err?
    ensures var meant := ValuesOutcome(schema, defaults, env, table, keysAndValues, NoFault).table;
      var left := ValuesOutcome(schema, defaults, env, table, keysAndValues, fault).table;
      && (left != table <==> fault.CommitUnreported? && meant != table)
      && left == if fault.CommitUnreported? then meant else table
  {
  }

  lemma FormErrorChangesTableIff(schema: Schema, defaults: seq<string>, env: Env, table: Table, input: seq<Variable>, fault: Fault)
    requires |schema| == |defaults| && FormOutcome(schema, defaults, env, table, input, fault).stored.Err?
    ensures var meant := FormOutcome(schema, defaults, env, table, input, NoFault).table;
      var left := FormOutcome(schema, defaults, env, table, input, fault).table;
      && (left != table <==> fault.CommitUnreported? && meant != table)
      && left == if fault.CommitUnreported? then meant else table
  {
  }

  // The same agreement with the UI disabled.

  predicate DistinctKeys(schema: Schema) {
    forall i :: 0 <= i < |schema| ==> IsFirst(schema, i)
  }

  /** With the UI disabled an update that is not refused writes internal fields only. */
  lemma {:induction false} OnlyInternalWritten(schema: Schema, rows: seq<Variable>, i: nat)
    requires i < |schema| && IsFirst(schema, i) && !schema[i].attribute.Internal? && Refusal(schema, true, rows) == None
    ensures LastValue(rows, schema[i].key) == None
  {
    if rows != [] {
      OnlyInternalWritten(schema, rows[..|rows| - 1], i);
    }
  }

  /** What was written last to field i can be seen by a reload, and is not the empty string in the place of
      a default; or it cannot be read and is the default. */
  predicate SeenAgain(default: string, last: string, idReadable: bool) {
    if idReadable then last != "" || default == "" else last == "" || last == default
  }

  lemma EnvAgreementAt(schema: Schema, defaults: seq<string>, env: Env, table: Table, rows: seq<Variable>, i: nat)
    requires i < |schema| == |defaults| && IsFirst(schema, i) && Refusal(schema, true, rows) == None
    requires EnvLoaded(schema, defaults, env, table, |schema|).Ok?
    ensures EnvValue(schema[i], defaults[i], env, Upserted(table, rows)).Ok?
    ensures var last := LastValue(rows, schema[i].key);
      Written(schema, defaults, EnvLoaded(schema, defaults, env, table, |schema|).value, rows)[i]
        == EnvValue(schema[i], defaults[i], env, Upserted(table, rows)).value
      <==> last == None || SeenAgain(defaults[i], last.value, env.idReadable)
  {
    var values := EnvLoaded(schema, defaults, env, table, |schema|).value;
    UpsertLastWins(table, rows, schema[i].key);
    WrittenLastWins(schema, defaults, values, rows, i);
    if !schema[i].attribute.Internal? {
      OnlyInternalWritten(schema, rows, i);
    }
    assert EnvValue(schema[i], defaults[i], env, table) == Ok(values[i]);
  }

  /** Every field that the rows name is seen again. */
  ghost predicate AllSeenAgain(schema: Schema, defaults: seq<string>, rows: seq<Variable>, idReadable: bool)
    requires |schema| == |defaults|
  {
    forall i :: 0 <= i < |schema| && LastValue(rows, schema[i].key).Some? ==>
      SeenAgain(defaults[i], LastValue(rows, schema[i].key).value, idReadable)
  }

  lemma EnvLoadsAgain(schema: Schema, defaults: seq<string>, env: Env, table: Table, rows: seq<Variable>)
    requires |schema| == |defaults| && DistinctKeys(schema) && Refusal(schema, true, rows) == None
    requires EnvLoaded(schema, defaults, env, table, |schema|).Ok?
    ensures EnvLoaded(schema, defaults, env, Upserted(table, rows), |schema|).Ok?
  {
    forall i | 0 <= i < |schema|
      ensures EnvValue(schema[i], defaults[i], env, Upserted(table, rows)).Ok?
    {
      EnvAgreementAt(schema, defaults, env, table, rows, i);
    }
  }

  /** With the UI disabled, after an update the cache equals a reload exactly if, where internal values can be
      read, none is blanked to a default that is not empty, and where they cannot, all are set to their default. */
  lemma EnvCacheAgreesIff(schema: Schema, defaults: seq<string>, env: Env, table: Table, rows: seq<Variable>)
    requires |schema| == |defaults| && DistinctKeys(schema) && Refusal(schema, true, rows) == None
    requires EnvLoaded(schema, defaults, env, table, |schema|).Ok?
    ensures EnvLoaded(schema, defaults, env, Upserted(table, rows), |schema|).Ok?
    ensures Written(schema, defaults, EnvLoaded(schema, defaults, env, table, |schema|).value, rows)
              == EnvLoaded(schema, defaults, env, Upserted(table, rows), |schema|).value
      <==> AllSeenAgain(schema, defaults, rows, env.idReadable)
  {
    EnvLoadsAgain(schema, defaults, env, table, rows);
    var cached := Written(schema, defaults, EnvLoaded(schema, defaults, env, table, |schema|).value, rows);
    var reloaded := EnvLoaded(schema, defaults, env, Upserted(table, rows), |schema|).value;
    forall i | 0 <= i < |schema|
      ensures cached[i] == reloaded[i] <==>
        var last := LastValue(rows, schema[i].key); last == None || SeenAgain(defaults[i], last.value, env.idReadable)
    {
      EnvAgreementAt(schema, defaults, env, table, rows, i);
      assert EnvValue(schema[i], defaults[i], env, Upserted(table, rows)) == Ok(reloaded[i]);
    }
  }

  // The service.

  class Database {
    var table: Table

    constructor (table: Table)
      ensures this.table == table
    {
      this.table := table;
    }
  }

  class AppConfigService {
    const schema: Schema
    const defaults: seq<string>
    const instanceID: nat
    const db: Database
    var dbConfig: AppConfig?

    ghost predicate Valid()
      reads this, dbConfig
    {
      && |schema| == |defaults|
      && HasInstanceID(schema, defaults, instanceID)
      && (dbConfig != null ==> dbConfig.Valid() && dbConfig.schema == schema)
    }

    constructor (schema: Schema, defaults: seq<string>, instanceID: nat, db: Database)
      requires |schema| == |defaults| && HasInstanceID(schema, defaults, instanceID)
      ensures Valid() && dbConfig == null
      ensures this.schema == schema && this.defaults == defaults && this.instanceID == instanceID && this.db == db
    {
      this.schema, this.defaults, this.instanceID, this.db := schema, defaults, instanceID, db;
      this.dbConfig := null;
    }

    /** Rows come in any order; those of no field are skipped. */
    method LoadDbConfigInternal(env: Env, readable: bool) returns (r: Result<AppConfig, ServiceError>)
      requires Valid()
      ensures r.Ok? ==> fresh(r.value) && r.value.Valid() && r.value.schema == schema
      ensures match LoadOutcome(schema, defaults, env, db.table, readable)
              case Err(e) => r == Err(e)
              case Ok(values) => r.Ok? && r.value.values == values
      ensures !env.uiDisabled ==> (r.Ok? <==> readable)
      ensures !env.uiDisabled && readable ==> forall i :: 0 <= i < |schema| ==>
        && (schema[i].key !in db.table ==> r.value.values[i] == defaults[i])
        && (schema[i].key in db.table && (forall j :: 0 <= j < i ==> schema[j].key != schema[i].key) ==>
              r.value.values[i] == db.table[schema[i].key])
    {
      if env.uiDisabled {
        r := LoadDbConfigFromEnv(env);
        return;
      }
      var dest := new AppConfig(schema, defaults);
      if !readable {
        return Err(DatabaseFailure);
      }
      var pending := db.table.Keys;
      while pending != {}
        invariant fresh(dest) && dest.Valid() && dest.schema == schema
        invariant pending <= db.table.Keys
        invariant forall i :: 0 <= i < |schema| ==>
          dest.values[i] == if IsFirst(schema, i) && schema[i].key in db.table && schema[i].key !in pending
                            then db.table[schema[i].key] else defaults[i]
        decreases |pending|
      {
        var key :| key in pending;
        var error := dest.UpdateField(key, db.table[key], false);
        if error.Some? && !error.value.KeyNotFound? {
          assert false;
        }
        pending := pending - {key};
      }
      assert dest.values == Loaded(schema, defaults, db.table);
      forall i | 0 <= i < |schema| && forall j :: 0 <= j < i ==> schema[j].key != schema[i].key
        ensures IsFirst(schema, i)
      {
        IndexOfIsFirst(schema, schema[i].key, i);
      }
      return Ok(dest);
    }

    method ValueFromEnv(field: Field, default: string, env: Env) returns (r: Result<string, ServiceError>)
      ensures r == EnvValue(field, default, env, db.table)
    {
      if field.attribute.Internal? {
        return Ok(if env.idReadable && field.key in db.table then db.table[field.key] else default);
      }
      var name := StringUtil.CamelCaseToScreamingSnakeCase(field.key);
      if name in env.vars {
        return Ok(env.vars[name]);
      }
      if field.attribute.Sensitive? {
        var fileName := SecretFile(name, env);
        if fileName != "" {
          if fileName !in env.files {
            return Err(FileFailure);
          }
          return Ok(env.files[fileName]);
        }
      }
      return Ok(default);
    }

    /** Internal fields keep the default where their row cannot be read. */
    method LoadDbConfigFromEnv(env: Env) returns (r: Result<AppConfig, ServiceError>)
      requires Valid()
      ensures r.Ok? ==> fresh(r.value) && r.value.Valid() && r.value.schema == schema
      ensures match EnvLoaded(schema, defaults, env, db.table, |schema|)
              case Err(e) => r == Err(e)
              case Ok(values) => r.Ok? && r.value.values == values
    {
      var dest := new AppConfig(schema, defaults);
      for i := 0 to |schema|
        invariant fresh(dest) && dest.Valid() && dest.schema == schema
        invariant dest.values[i..] == defaults[i..]
        invariant EnvLoaded(schema, defaults, env, db.table, i) == Ok(dest.values[..i])
      {
        var value := ValueFromEnv(schema[i], defaults[i], env);
        if value.Err? {
          EnvErrorStays(schema, defaults, env, db.table, i + 1, |schema|);
          return Err(value.error);
        }
        EnvStep(schema, defaults, env, db.table, dest.values, i, value.value);
        dest.values := dest.values[i := value.value];
      }
      assert dest.values[..|schema|] == dest.values;
      return Ok(dest);
    }

    method LoadDbConfig(env: Env, readable: bool) returns (error: Option<ServiceError>)
      requires Valid()
      modifies this
      ensures Valid()
      ensures match LoadOutcome(schema, defaults, env, db.table, readable)
              case Err(e) => error == Some(e) && dbConfig == old(dbConfig)
              case Ok(values) => error == None && dbConfig != null && fresh(dbConfig) && dbConfig.values == values
    {
      var dest := LoadDbConfigInternal(env, readable);
      if dest.Err? {
        return Some(dest.error);
      }
      dbConfig := dest.value;
      return None;
    }

    /** The in-memory half of an update: the default stands in for the empty string. */
    method WriteValue(cfg: AppConfig, defaultCfg: AppConfig, key: string, value: string, noInternal: bool)
      returns (error: Option<ConfigError>)
      requires |schema| == |defaults| && cfg.Valid() && cfg.schema == schema && cfg != defaultCfg
      requires defaultCfg.schema == schema && defaultCfg.values == defaults
      modifies cfg
      ensures cfg.Valid()
      ensures match IndexOf(schema, key)
              case None => error == Some(KeyNotFound) && cfg.values == old(cfg.values)
              case Some(i) =>
                if noInternal && schema[i].attribute.Internal?
                then error == Some(InternalForbidden) && cfg.values == old(cfg.values)
                else error == None && cfg.values == WriteRow(schema, defaults, old(cfg.values), Variable(key, value))
    {
      if value == "" {
        var default := defaultCfg.FieldByKey(key);
        error := cfg.UpdateField(key, if default.Ok? then default.value.0 else "", noInternal);
      } else {
        error := cfg.UpdateField(key, value, noInternal);
      }
    }

    /** The loop of UpdateAppConfigValues. */
    method WritePairs(env: Env, cfg: AppConfig, keysAndValues: seq<string>) returns (r: Result<seq<Variable>, ServiceError>)
      requires |schema| == |defaults| && cfg.Valid() && cfg.schema == schema && |keysAndValues| % 2 == 0
      modifies cfg
      ensures cfg.Valid()
      ensures var refusal := Refusal(schema, env.uiDisabled, Pairs(keysAndValues));
        if refusal.Some? then r == Err(refusal.value)
        else r == Ok(Pairs(keysAndValues)) && cfg.values == Written(schema, defaults, old(cfg.values), Pairs(keysAndValues))
    {
      var defaultCfg := new AppConfig(schema, defaults);
      ghost var base := cfg.values;
      var dbUpdate: seq<Variable> := [];
      var i := 0;
      while i < |keysAndValues|
        invariant 0 <= i <= |keysAndValues| && i % 2 == 0
        invariant cfg.Valid() && defaultCfg.values == defaults
        invariant PairsWritten(schema, defaults, env.uiDisabled, base, keysAndValues[..i], dbUpdate, cfg.values)
        decreases |keysAndValues| - i
      {
        var key, value := keysAndValues[i], keysAndValues[i + 1];
        var default := defaultCfg.FieldByKey(key);
        PairStep(schema, defaults, env.uiDisabled, base, keysAndValues, i, dbUpdate, cfg.values);
        if default.Err? {
          return Err(BadKey);
        }
        if !default.value.1 && env.uiDisabled {
          return Err(UiConfigDisabled);
        }
        var _ := WriteValue(cfg, defaultCfg, key, value, false);
        dbUpdate := dbUpdate + [Variable(key, value)];
        i := i + 2;
      }
      assert keysAndValues[..i] == keysAndValues;
      return Ok(dbUpdate);
    }

    /** The loop of UpdateAppConfig. */
    method WriteForm(cfg: AppConfig, input: seq<Variable>) returns (r: Result<seq<Variable>, ServiceError>)
      requires |schema| == |defaults| && cfg.Valid() && cfg.schema == schema
      modifies cfg
      ensures cfg.Valid()
      ensures r == if Known(schema, input) then Ok(Kept(schema, input)) else Err(BadKey)
      ensures r.Ok? ==> cfg.values == Written(schema, defaults, old(cfg.values), Kept(schema, input))
    {
      var defaultCfg := new AppConfig(schema, defaults);
      ghost var base := cfg.values;
      var dbUpdate: seq<Variable> := [];
      for i := 0 to |input|
        invariant cfg.Valid() && defaultCfg.values == defaults
        invariant FormWritten(schema, defaults, base, input[..i], dbUpdate, cfg.values)
      {
        FormStep(schema, defaults, base, input, i, dbUpdate, cfg.values);
        var error := WriteValue(cfg, defaultCfg, input[i].key, input[i].value, true);
        if error == Some(InternalForbidden) {
          continue;
        } else if error.Some? {
          return Err(BadKey);
        }
        dbUpdate := dbUpdate + [input[i]];
      }
      assert input[..|input|] == input;
      return Ok(dbUpdate);
    }

    /** The upsert of the rows, the commit, and then the store of the pointer. */
    method CommitAndStore(cfg: AppConfig, rows: seq<Variable>, fault: Fault) returns (error: Option<ServiceError>)
      requires Valid() && cfg.Valid() && cfg.schema == schema
      modifies this, db
      ensures Valid()
      ensures db.table == if fault.UpsertFails? || fault.CommitFails? then old(db.table) else Upserted(old(db.table), rows)
      ensures if fault.UpsertFails? || fault.CommitFails? || fault.CommitUnreported?
              then error == Some(DatabaseFailure) && dbConfig == old(dbConfig)
              else error == None && dbConfig == cfg
    {
      if fault.UpsertFails? {
        return Some(DatabaseFailure);
      }
      var tx := Upserted(db.table, rows);
      if fault.CommitFails? {
        return Some(DatabaseFailure);
      }
      db.table := tx;
      if fault.CommitUnreported? {
        return Some(DatabaseFailure);
      }
      dbConfig := cfg;
      return None;
    }

    /** The table and the cached pointer change together, or neither does, unless a commit that takes
        effect is reported as an error. */
    method UpdateAppConfigValues(env: Env, keysAndValues: seq<string>, fault: Fault) returns (error: Option<ServiceError>)
      requires Valid()
      modifies this, db
      ensures Valid()
      ensures db.table == ValuesOutcome(schema, defaults, env, old(db.table), keysAndValues, fault).table
      ensures match ValuesOutcome(schema, defaults, env, old(db.table), keysAndValues, fault).stored
              case Err(e) => error == Some(e) && dbConfig == old(dbConfig)
              case Ok(values) => error == None && dbConfig != null && fresh(dbConfig) && dbConfig.values == values
      ensures error.None? && !env.uiDisabled ==>
        (dbConfig.values == Loaded(schema, defaults, db.table)
         <==> BlanksHaveBlankDefaults(schema, defaults, Pairs(keysAndValues)))
      ensures error.None? && env.uiDisabled && DistinctKeys(schema) ==>
        (LoadOutcome(schema, defaults, env, db.table, true) == Ok(dbConfig.values)
         <==> AllSeenAgain(schema, defaults, Pairs(keysAndValues), env.idReadable))
    {
      if |keysAndValues| % 2 != 0 {
        return Some(BadArguments);
      }
      if fault.BeginFails? {
        return Some(DatabaseFailure);
      }
      var loaded := LoadDbConfigInternal(env, !fault.LoadFails?);
      if loaded.Err? {
        return Some(loaded.error);
      }
      var rows := WritePairs(env, loaded.value, keysAndValues);
      if rows.Err? {
        return Some(rows.error);
      }
      CacheAgreesIff(schema, defaults, db.table, rows.value);
      if env.uiDisabled && DistinctKeys(schema) {
        EnvCacheAgreesIff(schema, defaults, env, db.table, rows.value);
      }
      error := CommitAndStore(loaded.value, rows.value, fault);
    }

    /** A form's values, except those of internal fields; the new configuration is listed in full. */
    method UpdateAppConfig(env: Env, input: seq<Variable>, fault: Fault) returns (r: Result<seq<Variable>, ServiceError>)
      requires Valid()
      modifies this, db
      ensures Valid()
      ensures db.table == FormOutcome(schema, defaults, env, old(db.table), input, fault).table
      ensures match FormOutcome(schema, defaults, env, old(db.table), input, fault).stored
              case Err(e) => r == Err(e) && dbConfig == old(dbConfig)
              case Ok(values) => r.Ok? && dbConfig != null && fresh(dbConfig) && dbConfig.values == values
      ensures r.Ok? ==> forall v :: v in r.value <==>
        exists i :: 0 <= i < |schema| && schema[i].key != "" && v == Variable(schema[i].key, dbConfig.values[i])
      ensures r.Ok? ==>
        (dbConfig.values == Loaded(schema, defaults, db.table) <==> BlanksHaveBlankDefaults(schema, defaults, Kept(schema, input)))
    {
      if env.uiDisabled {
        return Err(UiConfigDisabled);
      }
      if fault.BeginFails? {
        return Err(DatabaseFailure);
      }
      var loaded := LoadDbConfigInternal(env, !fault.LoadFails?);
      if loaded.Err? {
        return Err(loaded.error);
      }
      var cfg := loaded.value;
      var rows := WriteForm(cfg, input);
      if rows.Err? {
        return Err(rows.error);
      }
      CacheAgreesIff(schema, defaults, db.table, rows.value);
      var error := CommitAndStore(cfg, rows.value, fault);
      if error.Some? {
        return Err(error.value);
      }
      var res := cfg.ToAppConfigVariableSlice(true, false, env.uiDisabled);
      AllListed(schema, cfg.values, env.uiDisabled, res);
      return Ok(res);
    }

    /** Only a process that sees no instance ID writes one. */
    method InitInstanceID(env: Env, uuid: string, fault: Fault) returns (error: Option<ServiceError>)
      requires Valid() && dbConfig != null
      modifies this, db
      ensures Valid()
      ensures old(dbConfig.values[instanceID]) != "" ==>
        error == None && db.table == old(db.table) && dbConfig == old(dbConfig)
      ensures old(dbConfig.values[instanceID]) == "" ==>
        var outcome := ValuesOutcome(schema, defaults, env, old(db.table), ["instanceId", uuid], fault);
        && db.table == outcome.table
        && match outcome.stored
           case Err(e) => error == Some(e) && dbConfig == old(dbConfig)
           case Ok(values) => error == None && dbConfig != null && dbConfig.values == values
    {
      if dbConfig.values[instanceID] != "" {
        return None;
      }
      error := UpdateAppConfigValues(env, ["instanceId", uuid], fault);
    }
  }

  lemma OnePair(key: string, value: string)
    ensures Pairs([key, value]) == [Variable(key, value)]
  {
    PairsStep([key, value], 0);
    assert [key, value][..2] == [key, value] && [key, value][..0] == [];
  }

  /** An update of the instance ID that succeeds leaves it in the cache, and in the table as soon as it is
      committed. */
  lemma SetsInstanceID(schema: Schema, defaults: seq<string>, instanceID: nat, env: Env, table: Table, uuid: string, fault: Fault)
    requires |schema| == |defaults| && HasInstanceID(schema, defaults, instanceID)
    ensures var outcome := ValuesOutcome(schema, defaults, env, table, ["instanceId", uuid], fault);
      && (outcome.stored.Ok? ==> outcome.stored.value[instanceID] == uuid)
      && (LoadOutcome(schema, defaults, env, table, !fault.LoadFails?).Ok? && fault !in {BeginFails, UpsertFails, CommitFails} ==>
            outcome.table == table["instanceId" := uuid])
  {
    var rows := [Variable("instanceId", uuid)];
    OnePair("instanceId", uuid);
    assert rows[..0] == [];
    assert Refusal(schema, env.uiDisabled, rows) == None;
    var loaded := LoadOutcome(schema, defaults, env, table, !fault.LoadFails?);
    assert Upserted(table, rows) == table["instanceId" := uuid];
    if loaded.Ok? {
      WrittenLastWins(schema, defaults, loaded.value, rows, instanceID);
      assert Written(schema, defaults, loaded.value, rows)[instanceID] == uuid;
    }
  }

  /** NewAppConfigService: a process that starts loads the configuration and makes sure of an instance ID. */
  method Start(schema: Schema, defaults: seq<string>, instanceID: nat, db: Database, env: Env, uuid: string, readable: bool, fault: Fault)
    returns (r: Result<AppConfigService, ServiceError>)
    requires |schema| == |defaults| && HasInstanceID(schema, defaults, instanceID)
    modifies db
    ensures db.table == StartOutcome(schema, defaults, instanceID, env, old(db.table), uuid, readable, fault).table
    ensures match StartOutcome(schema, defaults, instanceID, env, old(db.table), uuid, readable, fault).stored
            case Err(e) => r == Err(e)
            case Ok(values) =>
              (r.Ok? && fresh(r.value) && r.value.db == db && r.value.Valid()
               && r.value.dbConfig != null && r.value.dbConfig.values == values)
    ensures r.Ok? && uuid != "" ==> r.value.instanceID == instanceID && r.value.dbConfig.values[instanceID] != ""
  {
    SetsInstanceID(schema, defaults, instanceID, env, db.table, uuid, fault);
    var service := new AppConfigService(schema, defaults, instanceID, db);
    var error := service.LoadDbConfig(env, readable);
    if error.Some? {
      return Err(error.value);
    }
    error := service.InitInstanceID(env, uuid, fault);
    if error.Some? {
      return Err(error.value);
    }
    return Ok(service);
  }

  function StartOutcome(schema: Schema, defaults: seq<string>, instanceID: nat, env: Env, table: Table, uuid: string, readable: bool, fault: Fault)
    : Outcome
    requires instanceID < |schema| == |defaults|
  {
    var loaded := LoadOutcome(schema, defaults, env, table, readable);
    if loaded.Err? || loaded.value[instanceID] != "" then Outcome(table, loaded)
    else ValuesOutcome(schema, defaults, env, table, ["instanceId", uuid], fault)
  }

  /** The instance ID is an internal field, has no default and is the only field with its key that counts. */
  ghost predicate HasInstanceID(schema: Schema, defaults: seq<string>, i: nat)
    requires |schema| == |defaults|
  {
    i < |schema| && schema[i] == Field("instanceId", Internal) && IsFirst(schema, i) && defaults[i] == ""
  }

  lemma AllListed(schema: Schema, values: seq<string>, uiDisabled: bool, res: seq<Variable>)
    requires |values| == |schema|
    requires var from := ListedFields(schema, true, |schema|);
      && |res| == |from|
      && forall n :: 0 <= n < |res| ==>
           res[n] == Variable(schema[from[n]].key, Shown(schema[from[n]].attribute, values[from[n]], false, uiDisabled))
    ensures forall v :: v in res <==>
      exists i :: 0 <= i < |schema| && schema[i].key != "" && v == Variable(schema[i].key, values[i])
  {
    forall v | exists i :: 0 <= i < |schema| && schema[i].key != "" && v == Variable(schema[i].key, values[i])
      ensures v in res
    {
      var from := ListedFields(schema, true, |schema|);
      var i :| 0 <= i < |schema| && schema[i].key != "" && v == Variable(schema[i].key, values[i]);
      assert Listed(schema[i], true);
      var n :| 0 <= n < |from| && from[n] == i;
      assert v == res[n];
    }
    forall v | v in res
      ensures exists i :: 0 <= i < |schema| && schema[i].key != "" && v == Variable(schema[i].key, values[i])
    {
      var n :| 0 <= n < |res| && res[n] == v;
      assert ListedFields(schema, true, |schema|)[n] in ListedFields(schema, true, |schema|);
    }
  }
}
