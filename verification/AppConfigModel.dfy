/** The application configuration: a value for each field of a schema, found by key. */
module AppConfigModel {
  import opened Wrappers

  datatype Attribute = Plain | Public | Internal | Sensitive

  /** What the struct tags say of one field. */
  datatype Field = Field(key: string, attribute: Attribute)

  type Schema = seq<Field>

  datatype Variable = Variable(key: string, value: string)

  datatype ConfigError = KeyNotFound | InternalForbidden

  /** The first field with this key. */
  function IndexOf(schema: Schema, key: string): (r: Option<nat>)
    ensures r.Some? ==> r.value < |schema| && schema[r.value].key == key
    ensures r.Some? ==> forall i :: 0 <= i < r.value ==> schema[i].key != key
    ensures r.None? ==> forall i :: 0 <= i < |schema| ==> schema[i].key != key
  {
    if schema == [] then None
    else if schema[0].key == key then Some(0)
    else
      var r := IndexOf(schema[1..], key);
      assert forall i :: 1 <= i < |schema| ==> schema[i] == schema[1..][i - 1];
      if r.Some? then Some(r.value + 1) else None
  }

  lemma IndexOfIsFirst(schema: Schema, key: string, i: nat)
    requires i < |schema| && schema[i].key == key && forall j :: 0 <= j < i ==> schema[j].key != key
    ensures IndexOf(schema, key) == Some(i)
  {
  }

  /** What is shown of a value: secrets are masked where the environment sets the configuration. */
  function Shown(attribute: Attribute, value: string, redact: bool, uiDisabled: bool): string {
    if value != "" && uiDisabled && redact && attribute.Sensitive? then "XXXXXXXXXX" else value
  }

  /** A secret is masked exactly where it is set, the environment sets the configuration and masking is asked
      for; everything else is shown as it is. */
  lemma ShownMeans(attribute: Attribute, value: string, redact: bool, uiDisabled: bool)
    ensures attribute == Sensitive && value != "" && redact && uiDisabled ==>
      Shown(attribute, value, redact, uiDisabled) == "XXXXXXXXXX"
    ensures attribute != Sensitive || value == "" || !redact || !uiDisabled ==>
      Shown(attribute, value, redact, uiDisabled) == value
  {
  }

  predicate Listed(field: Field, showAll: bool) {
    field.key != "" && (showAll || field.attribute.Public?)
  }

  /** Which of the first n fields are listed, in schema order. */
  function ListedFields(schema: Schema, showAll: bool, n: nat): (from: seq<nat>)
    requires n <= |schema|
    ensures forall i :: i in from <==> 0 <= i < n && schema[i].key != "" && (showAll || schema[i].attribute.Public?)
    ensures forall a :: 0 <= a < |from| ==> from[a] < n
    ensures forall a, b :: 0 <= a < b < |from| ==> from[a] < from[b]
  {
    if n == 0 then []
    else ListedFields(schema, showAll, n - 1) + if Listed(schema[n - 1], showAll) then [n - 1] else []
  }

  class AppConfig {
    const schema: Schema
    var values: seq<string>

    ghost predicate Valid()
      reads this
    {
      |values| == |schema|
    }

    constructor (schema: Schema, values: seq<string>)
      requires |values| == |schema|
      ensures Valid() && this.schema == schema && this.values == values
    {
      this.schema := schema;
      this.values := values;
    }

    method FieldByKey(key: string) returns (r: Result<(string, bool), ConfigError>)
      requires Valid()
      ensures r == match IndexOf(schema, key)
                   case None => Err(KeyNotFound)
                   case Some(i) => Ok((values[i], schema[i].attribute.Internal?))
    {
      var i := 0;
      while i < |schema|
        invariant 0 <= i <= |schema|
        invariant forall j :: 0 <= j < i ==> schema[j].key != key
      {
        if schema[i].key == key {
          IndexOfIsFirst(schema, key, i);
          return Ok((values[i], schema[i].attribute.Internal?));
        }
        i := i + 1;
      }
      return Err(KeyNotFound);
    }

    /** At most one value changes: that of the first field with the key. */
    method UpdateField(key: string, value: string, noInternal: bool) returns (error: Option<ConfigError>)
      requires Valid()
      modifies this
      ensures Valid()
      ensures match IndexOf(schema, key)
              case None => error == Some(KeyNotFound) && values == old(values)
              case Some(i) =>
                if noInternal && schema[i].attribute.Internal?
                then error == Some(InternalForbidden) && values == old(values)
                else error == None && values == old(values)[i := value]
    {
      var i := 0;
      while i < |schema|
        invariant 0 <= i <= |schema| && values == old(values)
        invariant forall j :: 0 <= j < i ==> schema[j].key != key
      {
        if schema[i].key == key {
          IndexOfIsFirst(schema, key, i);
          if noInternal && schema[i].attribute.Internal? {
            return Some(InternalForbidden);
          }
          values := values[i := value];
          return None;
        }
        i := i + 1;
      }
      return Some(KeyNotFound);
    }

    /** The listed fields, with what is shown of their values. */
    method ToAppConfigVariableSlice(showAll: bool, redact: bool, uiDisabled: bool) returns (res: seq<Variable>)
      requires Valid()
      ensures var from := ListedFields(schema, showAll, |schema|);
        && |res| == |from|
        && forall n :: 0 <= n < |res| ==>
             res[n] == Variable(schema[from[n]].key, Shown(schema[from[n]].attribute, values[from[n]], redact, uiDisabled))
    {
      res := [];
      for i := 0 to |schema|
        invariant var from := ListedFields(schema, showAll, i);
          && |res| == |from|
          && forall n :: 0 <= n < |res| ==>
               res[n] == Variable(schema[from[n]].key, Shown(schema[from[n]].attribute, values[from[n]], redact, uiDisabled))
      {
        var field, value := schema[i], values[i];
        if field.key == "" || (!showAll && !field.attribute.Public?) {
          continue;
        }
        if value != "" && uiDisabled && redact && field.attribute.Sensitive? {
          value := "XXXXXXXXXX";
        }
        res := res + [Variable(field.key, value)];
      }
    }
  }
}
