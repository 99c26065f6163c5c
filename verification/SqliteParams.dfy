/** The query parameters of a SQLite connection string: legacy arguments become pragmas, then defaults
    are added. A query is a map from keys to their values; Go walks it in any order. */
module SqliteParams {
  import opened Wrappers
  import opened Sequences
  import StringUtil

  type Query = map<string, seq<string>>

  const PRAGMA := "_pragma"

  /** A parsed query has at least one value for each key. */
  predicate Parsed(query: Query) {
    forall k :: k in query ==> query[k] != []
  }

  /** A walk over the keys of the query. */
  ghost predicate IsWalk(query: Query, order: seq<string>) {
    && (forall k :: k in query <==> k in order)
    && (forall i, j :: 0 <= i < j < |order| ==> order[i] != order[j])
  }

  /** The pragma that a legacy key stands for. */
  function PragmaFor(key: string): Option<string> {
    var k := StringUtil.ToLower(key);
    if k == "_auto_vacuum" || k == "_vacuum" then Some("auto_vacuum")
    else if k == "_busy_timeout" || k == "_timeout" then Some("busy_timeout")
    else if k == "_case_sensitive_like" || k == "_cslike" then Some("case_sensitive_like")
    else if k == "_foreign_keys" || k == "_fk" then Some("foreign_keys")
    else if k == "_locking_mode" || k == "_locking" then Some("locking_mode")
    else if k == "_secure_delete" then Some("secure_delete")
    else if k == "_synchronous" || k == "_sync" then Some("synchronous")
    else None
  }

  function PragmasOf(qs: Query): seq<string> {
    if PRAGMA in qs then qs[PRAGMA] else []
  }

  function PragmaText(name: string, value: string): string {
    name + "(" + value + ")"
  }

  /** The pragmas that legacy keys stand for; `PragmaFor` is the one in use. */
  type Legacy = string -> Option<string>

  lemma PragmaKeyStays()
    ensures PragmaFor(PRAGMA).None?
  {
    assert StringUtil.ToLower(PRAGMA) == PRAGMA;
    assert PRAGMA[1] == 'p';
  }

  function ConvertKey(legacy: Legacy, query: Query, qs: Query, k: string): Query
    requires Parsed(query) && k in query
  {
    if legacy(k).Some? then qs[PRAGMA := PragmasOf(qs) + [PragmaText(legacy(k).value, query[k][0])]]
    else qs[k := query[k]]
  }

  /** Every key of `order` is in the parsed query. */
  ghost predicate Walks(query: Query, order: seq<string>) {
    Parsed(query) && forall i :: 0 <= i < |order| ==> order[i] in query
  }

  /** The walk along `order`, from the result qs so far. */
  ghost function ConvertFrom(legacy: Legacy, query: Query, qs: Query, order: seq<string>): Query
    requires Walks(query, order)
    decreases |order|
  {
    if order == [] then qs
    else ConvertFrom(legacy, query, ConvertKey(legacy, query, qs, order[0]), order[1..])
  }

  ghost function Converted(query: Query, order: seq<string>): Query
    requires Walks(query, order)
  {
    ConvertFrom(PragmaFor, query, map[], order)
  }

  method ConvertSqlitePragmaArgs(query: Query, order: seq<string>) returns (qs: Query)
    requires Parsed(query) && IsWalk(query, order)
    ensures Walks(query, order) && qs == Converted(query, order)
    ensures if PRAGMA !in query then ListsConversions(query, query.Keys, PragmasOf(qs))
            else KeepsPragmasAndLists(query, order, PragmasOf(qs))
    ensures KeepsOthers(query, qs)
  {
    qs := map[];
    assert order[0..] == order;
    for i := 0 to |order|
      invariant Walks(query, order[i..]) && ConvertFrom(PragmaFor, query, qs, order[i..]) == Converted(query, order)
    {
      var k := order[i];
      var pragma := PragmaFor(k);
      assert order[i..][1..] == order[i + 1..];
      if pragma.Some? {
        qs := qs[PRAGMA := PragmasOf(qs) + [PragmaText(pragma.value, query[k][0])]];
      } else {
        qs := qs[k := query[k]];
      }
    }
    ConvertedMeans(query, order);
  }

  // What conversion keeps and what it loses.

  /** The pragma that one key of the query is converted to, if any. */
  function Conversion(legacy: Legacy, query: Query, k: string): seq<string>
    requires Parsed(query) && k in query
  {
    if legacy(k).Some? then [PragmaText(legacy(k).value, query[k][0])] else []
  }

  /** The pragmas that the keys in `order` are converted to. */
  ghost function Conversions(legacy: Legacy, query: Query, order: seq<string>): seq<string>
    requires Walks(query, order)
  {
    if order == [] then [] else Conversion(legacy, query, order[0]) + Conversions(legacy, query, order[1..])
  }

  /** All keys but the pragma list are kept, unless they are legacy keys. */
  lemma {:induction false} OtherKeysKept(legacy: Legacy, query: Query, qs: Query, order: seq<string>, k: string)
    requires Walks(query, order) && k != PRAGMA
    ensures var qs' := ConvertFrom(legacy, query, qs, order);
      && (k in qs' <==> k in qs || (k in order && legacy(k).None?))
      && (k in order && legacy(k).None? ==> qs'[k] == query[k])
      && (k in qs && k !in order ==> qs'[k] == qs[k])
    decreases |order|
  {
    if order != [] {
      OtherKeysKept(legacy, query, ConvertKey(legacy, query, qs, order[0]), order[1..], k);
    }
  }

  lemma ConvertKeyAppends(legacy: Legacy, query: Query, qs: Query, k: string)
    requires Parsed(query) && k in query && k != PRAGMA
    ensures PragmasOf(ConvertKey(legacy, query, qs, k)) == PragmasOf(qs) + Conversion(legacy, query, k)
  {
  }

  /** A walk that does not meet `_pragma` appends its conversions. */
  lemma {:induction false} ListGrows(legacy: Legacy, query: Query, qs: Query, order: seq<string>)
    requires Walks(query, order) && PRAGMA !in order
    ensures PragmasOf(ConvertFrom(legacy, query, qs, order)) == PragmasOf(qs) + Conversions(legacy, query, order)
    decreases |order|
  {
    if order != [] {
      var qs1 := ConvertKey(legacy, query, qs, order[0]);
      ListGrows(legacy, query, qs1, order[1..]);
      ConvertKeyAppends(legacy, query, qs, order[0]);
      Associative(PragmasOf(qs), Conversion(legacy, query, order[0]), Conversions(legacy, query, order[1..]));
    }
  }

  /** A walk that meets `_pragma` ends with the values of that key and the conversions visited after
      it: those visited before are overwritten. */
  lemma {:induction false} ListIsReset(legacy: Legacy, query: Query, qs: Query, order: seq<string>, p: nat)
    requires Walks(query, order) && legacy(PRAGMA).None?
    requires p < |order| && order[p] == PRAGMA && PRAGMA !in order[p + 1..]
    ensures PragmasOf(ConvertFrom(legacy, query, qs, order)) == query[PRAGMA] + Conversions(legacy, query, order[p + 1..])
    decreases |order|
  {
    var qs1 := ConvertKey(legacy, query, qs, order[0]);
    if p == 0 {
      ListGrows(legacy, query, qs1, order[1..]);
    } else {
      assert order[1..][p..] == order[p + 1..];
      ListIsReset(legacy, query, qs1, order[1..], p - 1);
    }
  }

  lemma {:induction false} ConversionsAppend(legacy: Legacy, query: Query, a: seq<string>, b: seq<string>)
    requires Walks(query, a) && Walks(query, b)
    ensures Walks(query, a + b)
    ensures Conversions(legacy, query, a + b) == Conversions(legacy, query, a) + Conversions(legacy, query, b)
    decreases |a|
  {
    if a == [] {
      assert a + b == b;
    } else {
      ConversionsAppend(legacy, query, a[1..], b);
      assert (a + b)[1..] == a[1..] + b;
      Associative(Conversion(legacy, query, a[0]), Conversions(legacy, query, a[1..]), Conversions(legacy, query, b));
    }
  }

  lemma ConversionsCons(legacy: Legacy, query: Query, k: string, order: seq<string>)
    requires Walks(query, order) && k in query
    ensures Walks(query, [k] + order)
    ensures Conversions(legacy, query, [k] + order) == Conversion(legacy, query, k) + Conversions(legacy, query, order)
  {
    assert ([k] + order)[1..] == order;
  }

  lemma MiddleInMultiset<T>(a: seq<T>, b: seq<T>, c: seq<T>)
    ensures multiset(a + (b + c)) == multiset(a + c) + multiset(b)
  {
  }

  lemma ConversionRemoved(legacy: Legacy, query: Query, before: seq<string>, k: string, after: seq<string>)
    requires Walks(query, before) && k in query && Walks(query, after)
    ensures Walks(query, before + ([k] + after)) && Walks(query, before + after)
    ensures multiset(Conversions(legacy, query, before + ([k] + after)))
         == multiset(Conversions(legacy, query, before + after)) + multiset(Conversion(legacy, query, k))
  {
    ConversionsAppend(legacy, query, before, after);
    ConversionsCons(legacy, query, k, after);
    ConversionsAppend(legacy, query, before, [k] + after);
    MiddleInMultiset(Conversions(legacy, query, before), Conversion(legacy, query, k), Conversions(legacy, query, after));
  }

  lemma Cancel<T>(m: multiset<T>, n: multiset<T>, x: multiset<T>)
    requires m + x == n + x
    ensures m == n
  {
    assert m == (m + x) - x && n == (n + x) - x;
  }

  lemma Occurs<T>(x: T, b: seq<T>) returns (before: seq<T>, after: seq<T>)
    requires x in multiset(b)
    ensures b == before + ([x] + after)
  {
    var i :| 0 <= i < |b| && b[i] == x;
    before, after := b[..i], b[i + 1..];
  }

  lemma FindFirst<T>(a: seq<T>, b: seq<T>) returns (before: seq<T>, after: seq<T>)
    requires multiset(a) == multiset(b) && a != []
    ensures b == before + ([a[0]] + after) && multiset(a[1..]) == multiset(before + after)
  {
    assert a == [a[0]] + a[1..];
    before, after := Occurs(a[0], b);
    MiddleInMultiset(before, [a[0]], after);
    Cancel(multiset(a[1..]), multiset(before + after), multiset([a[0]]));
  }

  lemma ConversionsStep(legacy: Legacy, query: Query, k: string, rest: seq<string>, before: seq<string>, after: seq<string>)
    requires Walks(query, rest) && Walks(query, before) && Walks(query, after) && k in query
    requires Walks(query, before + after)
    requires multiset(Conversions(legacy, query, rest)) == multiset(Conversions(legacy, query, before + after))
    ensures Walks(query, [k] + rest) && Walks(query, before + ([k] + after))
    ensures multiset(Conversions(legacy, query, [k] + rest)) == multiset(Conversions(legacy, query, before + ([k] + after)))
  {
    ConversionsCons(legacy, query, k, rest);
    ConversionRemoved(legacy, query, before, k, after);
  }

  lemma {:induction false} ConversionsPermute(legacy: Legacy, query: Query, a: seq<string>, b: seq<string>)
    requires Walks(query, a) && Walks(query, b) && multiset(a) == multiset(b)
    ensures multiset(Conversions(legacy, query, a)) == multiset(Conversions(legacy, query, b))
    decreases |a|
  {
    if a == [] {
      assert |multiset(b)| == |b|;
    } else {
      var before, after := FindFirst(a, b);
      assert forall i :: 0 <= i < |before| ==> before[i] == b[i];
      assert forall i :: 0 <= i < |after| ==> after[i] == b[|before| + 1 + i];
      ConversionsPermute(legacy, query, a[1..], before + after);
      ConversionsStep(legacy, query, a[0], a[1..], before, after);
      assert a == [a[0]] + a[1..];
    }
  }

  lemma {:induction false} DistinctCounts(a: seq<string>, x: string)
    requires forall i, j :: 0 <= i < j < |a| ==> a[i] != a[j]
    ensures multiset(a)[x] == if x in a then 1 else 0
    decreases |a|
  {
    if a != [] {
      var n := |a| - 1;
      DistinctCounts(a[..n], x);
      assert a == a[..n] + [a[n]];
    }
  }

  lemma WalksPermute(query: Query, a: seq<string>, b: seq<string>)
    requires IsWalk(query, a) && IsWalk(query, b)
    ensures multiset(a) == multiset(b)
  {
    forall x
      ensures multiset(a)[x] == multiset(b)[x]
    {
      DistinctCounts(a, x);
      DistinctCounts(b, x);
    }
  }

  /** Every other key is kept unless it is a legacy key, whatever the walk. */
  lemma OtherKeys(query: Query, order: seq<string>, k: string)
    requires Parsed(query) && IsWalk(query, order) && k != PRAGMA
    ensures k in Converted(query, order) <==> k in query && PragmaFor(k).None?
    ensures k in Converted(query, order) ==> Converted(query, order)[k] == query[k]
  {
    OtherKeysKept(PragmaFor, query, map[], order, k);
  }

  lemma ListWithoutPragmaKey(query: Query, order: seq<string>)
    requires Parsed(query) && IsWalk(query, order) && PRAGMA !in query
    ensures PragmasOf(Converted(query, order)) == Conversions(PragmaFor, query, order)
  {
    ListGrows(PragmaFor, query, map[], order);
    assert [] + Conversions(PragmaFor, query, order) == Conversions(PragmaFor, query, order);
  }

  /** Without a `_pragma` key the walk decides nothing but the order of the list. */
  lemma OrderOnlyPermutes(query: Query, order: seq<string>, order': seq<string>)
    requires Parsed(query) && IsWalk(query, order) && IsWalk(query, order') && PRAGMA !in query
    ensures multiset(PragmasOf(Converted(query, order))) == multiset(PragmasOf(Converted(query, order')))
  {
    ListWithoutPragmaKey(query, order);
    ListWithoutPragmaKey(query, order');
    WalksPermute(query, order, order');
    ConversionsPermute(PragmaFor, query, order, order');
  }

  /** With one, the list is that key's values and then the conversions visited after it. */
  lemma ConversionsBeforePragmaAreLost(query: Query, order: seq<string>, p: nat)
    requires Parsed(query) && IsWalk(query, order) && p < |order| && order[p] == PRAGMA
    ensures PragmasOf(Converted(query, order)) == query[PRAGMA] + Conversions(PragmaFor, query, order[p + 1..])
  {
    PragmaKeyStays();
    ListIsReset(PragmaFor, query, map[], order, p);
  }

  // What each legacy key becomes.

  predicate IsPragmaName(name: string) {
    || name == "auto_vacuum" || name == "busy_timeout" || name == "case_sensitive_like" || name == "foreign_keys"
    || name == "locking_mode" || name == "secure_delete" || name == "synchronous"
  }

  /** The short forms that some pragmas have. */
  predicate IsShortForm(lower: string, name: string) {
    || (name == "auto_vacuum" && lower == "_vacuum") || (name == "busy_timeout" && lower == "_timeout")
    || (name == "case_sensitive_like" && lower == "_cslike") || (name == "foreign_keys" && lower == "_fk")
    || (name == "locking_mode" && lower == "_locking") || (name == "synchronous" && lower == "_sync")
  }

  /** The key is an underscore and the name of a pragma, or its short form, in any case. */
  predicate StandsFor(key: string, name: string) {
    IsPragmaName(name) && (StringUtil.ToLower(key) == "_" + name || IsShortForm(StringUtil.ToLower(key), name))
  }

  lemma FirstLongKeys()
    ensures "_" + "auto_vacuum" == "_auto_vacuum" && "_" + "busy_timeout" == "_busy_timeout"
    ensures "_" + "case_sensitive_like" == "_case_sensitive_like" && "_" + "foreign_keys" == "_foreign_keys"
  {
  }

  lemma LastLongKeys()
    ensures "_" + "locking_mode" == "_locking_mode" && "_" + "secure_delete" == "_secure_delete"
    ensures "_" + "synchronous" == "_synchronous"
  {
  }

  /** Legacy keys of the same length differ in their second letter. */
  lemma SecondLetters()
    ensures "_auto_vacuum"[1] == 'a' && "_vacuum"[1] == 'v' && "_busy_timeout"[1] == 'b' && "_timeout"[1] == 't'
    ensures "_cslike"[1] == 'c' && "_foreign_keys"[1] == 'f' && "_locking_mode"[1] == 'l' && "_locking"[1] == 'l'
    ensures "_synchronous"[1] == 's'
  {
  }

  lemma StandingKeyIsConverted(key: string, name: string)
    requires StandsFor(key, name)
    ensures PragmaFor(key) == Some(name)
  {
    FirstLongKeys();
    LastLongKeys();
    SecondLetters();
  }

  lemma ConvertedKeyStands(key: string)
    requires PragmaFor(key).Some?
    ensures StandsFor(key, PragmaFor(key).value)
  {
    FirstLongKeys();
    LastLongKeys();
  }

  lemma PragmaForIff(key: string, name: string)
    ensures PragmaFor(key) == Some(name) <==> StandsFor(key, name)
  {
    if PragmaFor(key).Some? {
      ConvertedKeyStands(key);
    }
    if StandsFor(key, name) {
      StandingKeyIsConverted(key, name);
    }
  }

  ghost function KeysOf(order: seq<string>): set<string> {
    set k | k in order
  }

  /** The pragma p is what one of these keys stands for, with the key's first value. */
  ghost predicate IsConversion(query: Query, keys: set<string>, p: string)
    requires Parsed(query) && keys <= query.Keys
  {
    exists k, name :: k in keys && StandsFor(k, name) && p == name + "(" + query[k][0] + ")"
  }

  ghost predicate IsLegacy(k: string) {
    exists name :: StandsFor(k, name)
  }

  /** The list holds what each legacy key among these stands for, once for each, and nothing else. */
  ghost predicate ListsConversions(query: Query, keys: set<string>, list: seq<string>)
    requires Parsed(query) && keys <= query.Keys
  {
    && (forall p :: p in list <==> IsConversion(query, keys, p))
    && |list| == |set k | k in keys && IsLegacy(k)|
  }

  lemma {:induction false} InConversionsIff(query: Query, order: seq<string>, p: string)
    requires Walks(query, order)
    ensures p in Conversions(PragmaFor, query, order) <==>
      exists i :: 0 <= i < |order| && p in Conversion(PragmaFor, query, order[i])
    decreases |order|
  {
    if order != [] {
      InConversionsIff(query, order[1..], p);
      if i :| 0 <= i < |order| - 1 && p in Conversion(PragmaFor, query, order[1..][i]) {
        assert p in Conversion(PragmaFor, query, order[i + 1]);
      }
      if i :| 0 <= i < |order| && p in Conversion(PragmaFor, query, order[i]) {
        assert i == 0 || order[1..][i - 1] == order[i];
      }
    }
  }

  lemma OneConversion(query: Query, k: string, p: string)
    requires Parsed(query) && k in query
    ensures p in Conversion(PragmaFor, query, k) <==> exists name :: StandsFor(k, name) && p == name + "(" + query[k][0] + ")"
  {
    if PragmaFor(k).Some? {
      PragmaForIff(k, PragmaFor(k).value);
    }
    forall name | StandsFor(k, name)
      ensures PragmaFor(k) == Some(name)
    {
      PragmaForIff(k, name);
    }
  }

  lemma LegacyIff(k: string)
    ensures IsLegacy(k) <==> PragmaFor(k).Some?
  {
    if PragmaFor(k).Some? {
      ConvertedKeyStands(k);
    }
    forall name | StandsFor(k, name)
      ensures PragmaFor(k).Some?
    {
      StandingKeyIsConverted(k, name);
    }
  }

  lemma LegacyKeysNext(k: string, rest: seq<string>)
    requires k !in rest
    ensures |set x | x in KeysOf([k] + rest) && IsLegacy(x)|
         == |set x | x in KeysOf(rest) && IsLegacy(x)| + if IsLegacy(k) then 1 else 0
  {
    var before := set x | x in KeysOf(rest) && IsLegacy(x);
    assert (set x | x in KeysOf([k] + rest) && IsLegacy(x)) == if IsLegacy(k) then before + {k} else before;
  }

  lemma {:induction false} CountConversions(query: Query, order: seq<string>)
    requires Walks(query, order) && forall i, j :: 0 <= i < j < |order| ==> order[i] != order[j]
    ensures |Conversions(PragmaFor, query, order)| == |set k | k in KeysOf(order) && IsLegacy(k)|
    decreases |order|
  {
    if order == [] {
      assert (set k | k in KeysOf(order) && IsLegacy(k)) == {};
    } else {
      CountConversions(query, order[1..]);
      LegacyIff(order[0]);
      LegacyKeysNext(order[0], order[1..]);
      assert order == [order[0]] + order[1..];
    }
  }

  lemma ConversionsAreListed(query: Query, order: seq<string>)
    requires Walks(query, order) && forall i, j :: 0 <= i < j < |order| ==> order[i] != order[j]
    ensures KeysOf(order) <= query.Keys
    ensures ListsConversions(query, KeysOf(order), Conversions(PragmaFor, query, order))
  {
    CountConversions(query, order);
    forall p
      ensures p in Conversions(PragmaFor, query, order) <==> IsConversion(query, KeysOf(order), p)
    {
      InConversionsIff(query, order, p);
      if i :| 0 <= i < |order| && p in Conversion(PragmaFor, query, order[i]) {
        OneConversion(query, order[i], p);
      }
      if k, name :| k in KeysOf(order) && StandsFor(k, name) && p == name + "(" + query[k][0] + ")" {
        OneConversion(query, k, p);
        var i :| 0 <= i < |order| && order[i] == k;
      }
    }
  }

  /** Without a `_pragma` key the list is what all legacy keys stand for. */
  lemma ListIsConversions(query: Query, order: seq<string>)
    requires Parsed(query) && IsWalk(query, order) && PRAGMA !in query
    ensures ListsConversions(query, query.Keys, PragmasOf(Converted(query, order)))
  {
    ListWithoutPragmaKey(query, order);
    ConversionsAreListed(query, order);
    assert KeysOf(order) == query.Keys;
  }

  /** With one, it is the key's values and then what the legacy keys visited after it stand for. */
  lemma LaterKeysAreListed(query: Query, order: seq<string>, p: nat)
    requires Parsed(query) && IsWalk(query, order) && p < |order| && order[p] == PRAGMA
    ensures KeysOf(order[p + 1..]) <= query.Keys && query[PRAGMA] <= PragmasOf(Converted(query, order))
    ensures ListsConversions(query, KeysOf(order[p + 1..]), PragmasOf(Converted(query, order))[|query[PRAGMA]|..])
  {
    var list := PragmasOf(Converted(query, order));
    ConversionsBeforePragmaAreLost(query, order, p);
    ConversionsAreListed(query, order[p + 1..]);
    assert list[|query[PRAGMA]|..] == Conversions(PragmaFor, query, order[p + 1..]);
  }

  /** All other keys stay, with all their values. */
  lemma OtherKeysStay(query: Query, order: seq<string>, k: string)
    requires Parsed(query) && IsWalk(query, order) && k != PRAGMA
    ensures k in Converted(query, order) <==> k in query && forall name :: !StandsFor(k, name)
    ensures k in Converted(query, order) ==> Converted(query, order)[k] == query[k]
  {
    OtherKeys(query, order, k);
    if PragmaFor(k).Some? {
      ConvertedKeyStands(k);
    }
    forall name | StandsFor(k, name)
      ensures PragmaFor(k).Some?
    {
      StandingKeyIsConverted(k, name);
    }
  }

  lemma PragmasAndLaterKeys(query: Query, order: seq<string>)
    requires Parsed(query) && IsWalk(query, order) && PRAGMA in query
    ensures KeepsPragmasAndLists(query, order, PragmasOf(Converted(query, order)))
  {
    var list := PragmasOf(Converted(query, order));
    var at :| 0 <= at < |order| && order[at] == PRAGMA;
    LaterKeysAreListed(query, order, at);
    forall p | 0 <= p < |order| && order[p] == PRAGMA
      ensures KeysOf(order[p + 1..]) <= query.Keys
      ensures ListsConversions(query, KeysOf(order[p + 1..]), list[|query[PRAGMA]|..])
    {
      LaterKeysAreListed(query, order, p);
    }
  }

  /** The list is the values of `_pragma` and then what the legacy keys visited after it stand for. */
  ghost predicate KeepsPragmasAndLists(query: Query, order: seq<string>, list: seq<string>)
    requires Parsed(query) && IsWalk(query, order) && PRAGMA in query
  {
    query[PRAGMA] <= list && forall p :: 0 <= p < |order| && order[p] == PRAGMA ==>
      && KeysOf(order[p + 1..]) <= query.Keys
      && ListsConversions(query, KeysOf(order[p + 1..]), list[|query[PRAGMA]|..])
  }

  ghost predicate KeepsOthers(query: Query, qs: Query) {
    && (forall k :: k != PRAGMA ==> (k in qs <==> k in query && forall name :: !StandsFor(k, name)))
    && (forall k :: k != PRAGMA && k in qs && k in query ==> qs[k] == query[k])
  }

  lemma ConvertedMeans(query: Query, order: seq<string>)
    requires Parsed(query) && IsWalk(query, order)
    ensures KeepsOthers(query, Converted(query, order))
    ensures if PRAGMA !in query then ListsConversions(query, query.Keys, PragmasOf(Converted(query, order)))
            else KeepsPragmasAndLists(query, order, PragmasOf(Converted(query, order)))
  {
    if PRAGMA !in query {
      ListIsConversions(query, order);
    } else {
      PragmasAndLaterKeys(query, order);
    }
    forall k | k != PRAGMA
      ensures k in Converted(query, order) <==> k in query && forall name :: !StandsFor(k, name)
      ensures k in Converted(query, order) ==> Converted(query, order)[k] == query[k]
    {
      OtherKeysStay(query, order, k);
    }
  }

  // Defaults.

  datatype Kind = BusyTimeout | JournalMode | ForeignKeys | Other

  predicate HasPrefix(s: string, prefix: string) {
    prefix <= s
  }

  function KindOfLower(lower: string): Kind {
    if HasPrefix(lower, "busy_timeout") then BusyTimeout
    else if HasPrefix(lower, "journal_mode") then JournalMode
    else if HasPrefix(lower, "foreign_keys") then ForeignKeys
    else Other
  }

  /** What the start of a pragma says, in any case. */
  function KindOf(p: string): Kind {
    KindOfLower(StringUtil.ToLower(p))
  }

  function Map<A, B>(f: A -> B, s: seq<A>): (r: seq<B>)
    ensures |r| == |s|
  {
    if s == [] then [] else [f(s[0])] + Map(f, s[1..])
  }

  lemma {:induction false} MapOfJoin<A, B>(f: A -> B, a: seq<A>, b: seq<A>)
    ensures Map(f, a + b) == Map(f, a) + Map(f, b)
  {
    if a == [] {
      assert a + b == b;
    } else {
      MapOfJoin(f, a[1..], b);
      assert (a + b)[1..] == a[1..] + b;
      Associative([f(a[0])], Map(f, a[1..]), Map(f, b));
    }
  }

  function Kinds(list: seq<string>): seq<Kind> {
    Map(KindOf, list)
  }

  predicate HasKind(list: seq<string>, kind: Kind) {
    kind in Kinds(list)
  }

  lemma KindsOfJoin(a: seq<string>, b: seq<string>)
    ensures Kinds(a + b) == Kinds(a) + Kinds(b)
  {
    MapOfJoin(KindOf, a, b);
  }

  /** Some pragma of the list starts with this, in any case. */
  ghost predicate Sets(list: seq<string>, start: string) {
    exists i :: 0 <= i < |list| && start <= StringUtil.ToLower(list[i])
  }

  lemma KindOfLowerIs(lower: string)
    ensures KindOfLower(lower) == BusyTimeout <==> "busy_timeout" <= lower
    ensures KindOfLower(lower) == JournalMode <==> "journal_mode" <= lower
    ensures KindOfLower(lower) == ForeignKeys <==> "foreign_keys" <= lower
  {
    assert "busy_timeout" <= lower ==> lower[0] == 'b';
    assert "journal_mode" <= lower ==> lower[0] == 'j';
    assert "foreign_keys" <= lower ==> lower[0] == 'f';
  }

  lemma {:induction false} MapAt<A, B>(f: A -> B, s: seq<A>, i: nat)
    requires i < |s|
    ensures Map(f, s)[i] == f(s[i])
  {
    if i > 0 {
      MapAt(f, s[1..], i - 1);
    }
  }

  lemma HasKindIs(list: seq<string>, kind: Kind)
    ensures HasKind(list, kind) <==> exists i :: 0 <= i < |list| && KindOf(list[i]) == kind
  {
    forall i | 0 <= i < |list|
      ensures Kinds(list)[i] == KindOf(list[i])
    {
      MapAt(KindOf, list, i);
    }
  }

  lemma SetsIsKind(list: seq<string>)
    ensures HasKind(list, BusyTimeout) <==> Sets(list, "busy_timeout")
    ensures HasKind(list, JournalMode) <==> Sets(list, "journal_mode")
    ensures HasKind(list, ForeignKeys) <==> Sets(list, "foreign_keys")
  {
    HasKindIs(list, BusyTimeout);
    HasKindIs(list, JournalMode);
    HasKindIs(list, ForeignKeys);
    forall i | 0 <= i < |list|
      ensures KindOf(list[i]) == BusyTimeout <==> "busy_timeout" <= StringUtil.ToLower(list[i])
      ensures KindOf(list[i]) == JournalMode <==> "journal_mode" <= StringUtil.ToLower(list[i])
      ensures KindOf(list[i]) == ForeignKeys <==> "foreign_keys" <= StringUtil.ToLower(list[i])
    {
      KindOfLowerIs(StringUtil.ToLower(list[i]));
    }
  }

  function FirstLower(qs: Query, k: string): Query {
    if k in qs && qs[k] != [] then qs[k := [StringUtil.ToLower(qs[k][0])]] else qs
  }

  predicate IsReadOnly(qs: Query) {
    || (PresentAs(qs, "mode", "ro"))
    || (PresentAs(qs, "immutable", "1"))
  }

  predicate PresentAs(qs: Query, k: string, value: string) {
    k in qs && qs[k] != [] && StringUtil.ToLower(qs[k][0]) == value
  }

  function JournalDefault(isMemoryDB: bool, isReadOnly: bool): string {
    if isMemoryDB then "journal_mode(MEMORY)" else if isReadOnly then "journal_mode(DELETE)" else "journal_mode(WAL)"
  }

  datatype ParamError = ForbiddenForeignKeys

  /** A default, unless the user has set that kind. */
  function Unless(user: seq<string>, kind: Kind, default: string): seq<string> {
    if HasKind(user, kind) then [] else [default]
  }

  /** The pragmas added behind those of the user. */
  function Added(user: seq<string>, isMemoryDB: bool, isReadOnly: bool): seq<string> {
    Unless(user, BusyTimeout, "busy_timeout(2500)")
      + Unless(user, JournalMode, JournalDefault(isMemoryDB, isReadOnly))
      + ["foreign_keys(1)"]
  }

  /** The three keys of which only the first value is kept, in lower case; `_txlock` has a default. */
  function SingleValues(qs: Query): Query {
    var qs1 := FirstLower(FirstLower(qs, "mode"), "immutable");
    if "_txlock" in qs1 && qs1["_txlock"] != [] then FirstLower(qs1, "_txlock") else qs1["_txlock" := ["immediate"]]
  }

  function WithDefaults(qs: Query, isMemoryDB: bool): Result<Query, ParamError> {
    var user := PragmasOf(qs);
    if HasKind(user, ForeignKeys) then Err(ForbiddenForeignKeys)
    else Ok(SingleValues(qs)[PRAGMA := user + Added(user, isMemoryDB, IsReadOnly(qs))])
  }

  /** The loop over the pragmas: which kinds of interest there are, unless one is forbidden. */
  method ScanPragmas(list: seq<string>) returns (allowed: bool, hasBusyTimeout: bool, hasJournalMode: bool)
    ensures allowed <==> !HasKind(list, ForeignKeys)
    ensures allowed ==> hasBusyTimeout == HasKind(list, BusyTimeout) && hasJournalMode == HasKind(list, JournalMode)
    ensures allowed <==> !Sets(list, "foreign_keys")
    ensures allowed ==> hasBusyTimeout == Sets(list, "busy_timeout") && hasJournalMode == Sets(list, "journal_mode")
  {
    SetsIsKind(list);
    hasBusyTimeout, hasJournalMode := false, false;
    for i := 0 to |list|
      invariant hasBusyTimeout == HasKind(list[..i], BusyTimeout)
      invariant hasJournalMode == HasKind(list[..i], JournalMode)
      invariant !HasKind(list[..i], ForeignKeys)
    {
      var kind := KindOf(list[i]);
      KindsNext(list, i);
      match kind
      case BusyTimeout => hasBusyTimeout := true;
      case JournalMode => hasJournalMode := true;
      case ForeignKeys => return false, hasBusyTimeout, hasJournalMode;
      case Other =>
    }
    assert list[..|list|] == list;
    allowed := true;
  }

  /** The keys of which only the first value is kept. */
  method KeepFirstValues(query: Query) returns (qs: Query, isReadOnly: bool)
    ensures qs == SingleValues(query) && isReadOnly == IsReadOnly(query)
  {
    KeysDiffer();
    qs, isReadOnly := query, false;
    if "mode" in qs && qs["mode"] != [] {
      qs := qs["mode" := [StringUtil.ToLower(qs["mode"][0])]];
      isReadOnly := qs["mode"][0] == "ro";
    }
    if "immutable" in qs && qs["immutable"] != [] {
      qs := qs["immutable" := [StringUtil.ToLower(qs["immutable"][0])]];
      if qs["immutable"][0] == "1" {
        isReadOnly := true;
      }
    }
    if "_txlock" in qs && qs["_txlock"] != [] {
      qs := qs["_txlock" := [StringUtil.ToLower(qs["_txlock"][0])]];
    } else {
      qs := qs["_txlock" := ["immediate"]];
    }
  }

  /** The journal mode for a database that the user has set none for. */
  predicate IsJournalDefault(query: Query, isMemoryDB: bool, p: string) {
    var readOnly :=
      || ("mode" in query && query["mode"] != [] && StringUtil.ToLower(query["mode"][0]) == "ro")
      || ("immutable" in query && query["immutable"] != [] && StringUtil.ToLower(query["immutable"][0]) == "1");
    && (isMemoryDB ==> p == "journal_mode(MEMORY)")
    && (!isMemoryDB && readOnly ==> p == "journal_mode(DELETE)")
    && (!isMemoryDB && !readOnly ==> p == "journal_mode(WAL)")
  }

  /** The whole list of an accepted query: the user's pragmas, those of three that are missing, in order. */
  ghost predicate IsCompleted(query: Query, isMemoryDB: bool, list: seq<string>) {
    var user := PragmasOf(query);
    exists busy: seq<string>, journal: seq<string> ::
      && list == user + (busy + journal + ["foreign_keys(1)"])
      && (if Sets(user, "busy_timeout") then busy == [] else busy == ["busy_timeout(2500)"])
      && (if Sets(user, "journal_mode") then journal == [] else |journal| == 1 && IsJournalDefault(query, isMemoryDB, journal[0]))
  }

  lemma AcceptedIsCompleted(query: Query, isMemoryDB: bool)
    ensures WithDefaults(query, isMemoryDB).Err? <==> Sets(PragmasOf(query), "foreign_keys")
    ensures WithDefaults(query, isMemoryDB).Ok? ==>
      && PRAGMA in WithDefaults(query, isMemoryDB).value
      && IsCompleted(query, isMemoryDB, WithDefaults(query, isMemoryDB).value[PRAGMA])
  {
    var user := PragmasOf(query);
    SetsIsKind(user);
    var busy := Unless(user, BusyTimeout, "busy_timeout(2500)");
    var journal := Unless(user, JournalMode, JournalDefault(isMemoryDB, IsReadOnly(query)));
    assert Added(user, isMemoryDB, IsReadOnly(query)) == busy + journal + ["foreign_keys(1)"];
  }

  lemma SingleValuesKeepPragmas(query: Query)
    ensures PragmasOf(SingleValues(query)) == PragmasOf(query)
  {
    KeysDiffer();
  }

  method AddSqliteDefaultParameters(query: Query, isMemoryDB: bool) returns (r: Result<Query, ParamError>)
    ensures r == WithDefaults(query, isMemoryDB)
    ensures r.Err? <==> Sets(PragmasOf(query), "foreign_keys")
    ensures r.Ok? ==> PRAGMA in r.value && IsCompleted(query, isMemoryDB, r.value[PRAGMA])
  {
    AcceptedIsCompleted(query, isMemoryDB);
    var qs, isReadOnly := KeepFirstValues(query);
    SingleValuesKeepPragmas(query);
    var user := PragmasOf(qs);
    var allowed, hasBusyTimeout, hasJournalMode := ScanPragmas(user);
    if !allowed {
      return Err(ForbiddenForeignKeys);
    }
    var added := [];
    if !hasBusyTimeout {
      added := added + ["busy_timeout(2500)"];
    }
    if !hasJournalMode {
      added := added + [JournalDefault(isMemoryDB, isReadOnly)];
    }
    added := added + ["foreign_keys(1)"];
    assert added == Added(user, isMemoryDB, isReadOnly);
    r := Ok(qs[PRAGMA := user + added]);
  }

  lemma KeysDiffer()
    ensures "mode" != "immutable" && "mode" != "_txlock" && "immutable" != "_txlock"
    ensures PRAGMA != "mode" && PRAGMA != "immutable" && PRAGMA != "_txlock"
  {
    assert PRAGMA[1] == 'p' && "_txlock"[1] == 't';
  }

  lemma KindsNext(list: seq<string>, i: nat)
    requires i < |list|
    ensures Kinds(list[..i + 1]) == Kinds(list[..i]) + [KindOf(list[i])]
    ensures HasKind(list, KindOf(list[i]))
  {
    KindsOfJoin(list[..i], [list[i]]);
    KindsOfJoin(list[..i + 1], list[i + 1..]);
    assert list[..i + 1] == list[..i] + [list[i]] && list == list[..i + 1] + list[i + 1..];
    assert Kinds([list[i]]) == [KindOf(list[i])];
    assert Kinds(list[..i + 1])[i] == KindOf(list[i]);
  }

  // Both steps.

  ghost function Composed(query: Query, order: seq<string>, isMemoryDB: bool): Result<Query, ParamError>
    requires Walks(query, order)
  {
    WithDefaults(Converted(query, order), isMemoryDB)
  }

  method ParseSqliteQuery(query: Query, order: seq<string>, isMemoryDB: bool) returns (r: Result<Query, ParamError>)
    requires Parsed(query) && IsWalk(query, order)
    ensures Walks(query, order) && r == Composed(query, order, isMemoryDB)
    ensures r.Ok? && PRAGMA !in query ==> PRAGMA in r.value && forall k :: k in query && StandsFor(k, "busy_timeout") ==>
      && "busy_timeout(" + query[k][0] + ")" in r.value[PRAGMA]
      && ("busy_timeout(2500)" in r.value[PRAGMA] ==> IsConversion(query, query.Keys, "busy_timeout(2500)"))
  {
    var qs := ConvertSqlitePragmaArgs(query, order);
    r := AddSqliteDefaultParameters(qs, isMemoryDB);
    if r.Ok? && PRAGMA !in query {
      forall k | k in query && StandsFor(k, "busy_timeout")
        ensures TimeoutText(query[k][0]) in r.value[PRAGMA]
        ensures "busy_timeout(2500)" in r.value[PRAGMA] ==> IsConversion(query, query.Keys, "busy_timeout(2500)")
      {
        UserTimeoutStays(query, order, isMemoryDB, k);
      }
    }
  }

  lemma {:induction false} LowerOfJoin(a: string, b: string)
    ensures StringUtil.ToLower(a + b) == StringUtil.ToLower(a) + StringUtil.ToLower(b)
  {
    if a == "" {
      assert a + b == b;
    } else {
      var c, rest := a[0], a[1..];
      LowerOfJoin(rest, b);
      assert a == [c] + rest;
      Associative([c], rest, b);
      StringUtil.LowerCons(c, rest + b);
      StringUtil.LowerCons(c, rest);
      Associative([StringUtil.Lower(c)], StringUtil.ToLower(rest), StringUtil.ToLower(b));
    }
  }

  lemma PrefixOfJoin(a: string, b: string)
    ensures HasPrefix(a + b, a)
  {
  }

  lemma OtherFirstLetter(s: string, prefix: string)
    requires s != "" && prefix != "" && s[0] != prefix[0]
    ensures !HasPrefix(s, prefix)
  {
  }

  lemma LowerKeepsStart(name: string, rest: string)
    requires StringUtil.NoUpper(name)
    ensures StringUtil.ToLower(name + rest) == name + StringUtil.ToLower(rest)
  {
    LowerOfJoin(name, rest);
    StringUtil.LowerFixed(name);
  }

  lemma KindsOfLower(rest: string)
    ensures KindOfLower("busy_timeout" + rest) == BusyTimeout
    ensures KindOfLower("journal_mode" + rest) == JournalMode
    ensures KindOfLower("foreign_keys" + rest) == ForeignKeys
  {
    PrefixOfJoin("busy_timeout", rest);
    PrefixOfJoin("journal_mode", rest);
    PrefixOfJoin("foreign_keys", rest);
    OtherFirstLetter("journal_mode" + rest, "busy_timeout");
    OtherFirstLetter("foreign_keys" + rest, "busy_timeout");
    OtherFirstLetter("foreign_keys" + rest, "journal_mode");
  }

  lemma NamesAreLower()
    ensures StringUtil.NoUpper("busy_timeout") && StringUtil.NoUpper("journal_mode") && StringUtil.NoUpper("foreign_keys")
  {
  }

  lemma StartDecidesKind(rest: string)
    ensures KindOf("busy_timeout" + rest) == BusyTimeout
    ensures KindOf("journal_mode" + rest) == JournalMode
    ensures KindOf("foreign_keys" + rest) == ForeignKeys
  {
    NamesAreLower();
    LowerKeepsStart("busy_timeout", rest);
    LowerKeepsStart("journal_mode", rest);
    LowerKeepsStart("foreign_keys", rest);
    KindsOfLower(StringUtil.ToLower(rest));
  }

  lemma OtherStartKind(p: string)
    requires p != "" && StringUtil.Lower(p[0]) != 'f'
    ensures KindOf(p) != ForeignKeys
  {
    OtherFirstLetter(StringUtil.ToLower(p), "foreign_keys");
  }

  lemma AddedKinds(isMemoryDB: bool, isReadOnly: bool)
    ensures KindOf("busy_timeout(2500)") == BusyTimeout
    ensures KindOf(JournalDefault(isMemoryDB, isReadOnly)) == JournalMode
    ensures KindOf("foreign_keys(1)") == ForeignKeys
  {
    StartDecidesKind("(2500)");
    assert "busy_timeout" + "(2500)" == "busy_timeout(2500)";
    var mode := if isMemoryDB then "(MEMORY)" else if isReadOnly then "(DELETE)" else "(WAL)";
    StartDecidesKind(mode);
    assert JournalDefault(isMemoryDB, isReadOnly) == "journal_mode" + mode;
    StartDecidesKind("(1)");
    assert "foreign_keys" + "(1)" == "foreign_keys(1)";
  }

  lemma PragmaNames(k: string)
    requires PragmaFor(k).Some?
    ensures PragmaFor(k).value == "foreign_keys" || (PragmaFor(k).value != "" && StringUtil.Lower(PragmaFor(k).value[0]) != 'f')
  {
  }

  /** The pragma made of a legacy key is forbidden exactly if the key is an alias of foreign_keys. */
  lemma ConversionKind(k: string, value: string)
    requires PragmaFor(k).Some?
    ensures KindOf(PragmaText(PragmaFor(k).value, value)) == ForeignKeys <==> PragmaFor(k) == Some("foreign_keys")
  {
    var name := PragmaFor(k).value;
    PragmaNames(k);
    if name == "foreign_keys" {
      StartDecidesKind("(" + value + ")");
      assert PragmaText(name, value) == "foreign_keys" + ("(" + value + ")");
    } else {
      OtherStartKind(PragmaText(name, value));
    }
  }

  predicate IsForeignKeysAlias(k: string) {
    PragmaFor(k) == Some("foreign_keys")
  }

  lemma {:induction false} ConversionsForbidden(query: Query, order: seq<string>)
    requires Walks(query, order)
    ensures HasKind(Conversions(PragmaFor, query, order), ForeignKeys) <==>
      exists i :: 0 <= i < |order| && IsForeignKeysAlias(order[i])
    decreases |order|
  {
    if order != [] {
      var k, rest := order[0], order[1..];
      ConversionsForbidden(query, rest);
      KindsOfJoin(Conversion(PragmaFor, query, k), Conversions(PragmaFor, query, rest));
      FirstConversionForbidden(query, k);
      if i :| 0 <= i < |rest| && IsForeignKeysAlias(rest[i]) {
        assert IsForeignKeysAlias(order[i + 1]);
      }
    }
  }

  lemma FirstConversionForbidden(query: Query, k: string)
    requires Parsed(query) && k in query
    ensures HasKind(Conversion(PragmaFor, query, k), ForeignKeys) <==> IsForeignKeysAlias(k)
  {
    if PragmaFor(k).Some? {
      var p := PragmaText(PragmaFor(k).value, query[k][0]);
      ConversionKind(k, query[k][0]);
      assert Kinds([p]) == [KindOf(p)];
    }
  }

  /** Without a `_pragma` key, whatever the walk, a query is rejected exactly if it has an alias of
      foreign_keys. */
  lemma RejectedWithoutPragmaKey(query: Query, order: seq<string>, isMemoryDB: bool)
    requires Parsed(query) && IsWalk(query, order) && PRAGMA !in query
    ensures Composed(query, order, isMemoryDB).Err? <==> exists k :: k in query && IsForeignKeysAlias(k)
  {
    ListWithoutPragmaKey(query, order);
    ConversionsForbidden(query, order);
    if k :| k in query && IsForeignKeysAlias(k) {
      assert k in order;
    }
  }

  /** With one, it is rejected exactly if one of that key's values is a foreign_keys pragma or an alias
      is visited after the key. */
  lemma RejectedWithPragmaKey(query: Query, order: seq<string>, p: nat, isMemoryDB: bool)
    requires Parsed(query) && IsWalk(query, order) && p < |order| && order[p] == PRAGMA
    ensures Composed(query, order, isMemoryDB).Err? <==>
      HasKind(query[PRAGMA], ForeignKeys) || exists i :: p < i < |order| && IsForeignKeysAlias(order[i])
  {
    var after := order[p + 1..];
    ConversionsBeforePragmaAreLost(query, order, p);
    ConversionsForbidden(query, after);
    KindsOfJoin(query[PRAGMA], Conversions(PragmaFor, query, after));
    if i :| p < i < |order| && IsForeignKeysAlias(order[i]) {
      assert after[i - p - 1] == order[i];
    }
  }

  lemma PragmaKeyMoved(query: Query, order: seq<string>, p: nat)
    requires IsWalk(query, order) && p < |order| && order[p] == PRAGMA
    ensures var rest := order[..p] + order[p + 1..];
      && IsWalk(query, [PRAGMA] + rest) && IsWalk(query, rest + [PRAGMA])
      && (forall k :: k in query && k != PRAGMA ==> k in rest)
  {
    var rest := order[..p] + order[p + 1..];
    forall k
      ensures k in rest <==> k in query && k != PRAGMA
    {
      if k in query && k != PRAGMA {
        var i :| 0 <= i < |order| && order[i] == k;
        assert k == if i < p then rest[i] else rest[i - 1];
      }
    }
    assert forall i :: 0 <= i < |rest| ==> rest[i] == if i < p then order[i] else order[i + 1];
  }

  lemma AliasAfterPragma(query: Query, order: seq<string>, k: string, isMemoryDB: bool)
    requires Parsed(query) && IsWalk(query, order) && order != [] && order[0] == PRAGMA
    requires k in query && IsForeignKeysAlias(k)
    ensures Composed(query, order, isMemoryDB).Err?
  {
    PragmaKeyStays();
    var i :| 0 <= i < |order| && order[i] == k;
    RejectedWithPragmaKey(query, order, 0, isMemoryDB);
  }

  /** So one and the same query can be accepted and rejected, by the order in which Go walks its map. */
  lemma WalkDecides(query: Query, order: seq<string>, p: nat, isMemoryDB: bool) returns (first: seq<string>, last: seq<string>)
    requires Parsed(query) && IsWalk(query, order) && p < |order| && order[p] == PRAGMA
    requires !HasKind(query[PRAGMA], ForeignKeys) && exists k :: k in query && IsForeignKeysAlias(k)
    ensures IsWalk(query, first) && Composed(query, first, isMemoryDB).Err?
    ensures IsWalk(query, last) && Composed(query, last, isMemoryDB).Ok?
  {
    var rest := order[..p] + order[p + 1..];
    first, last := [PRAGMA] + rest, rest + [PRAGMA];
    PragmaKeyStays();
    PragmaKeyMoved(query, order, p);
    var k :| k in query && IsForeignKeysAlias(k);
    AliasAfterPragma(query, first, k, isMemoryDB);
    RejectedWithPragmaKey(query, last, |rest|, isMemoryDB);
  }

  // What an accepted query becomes.

  /** With its default the list has an entry of the kind, and the default is of no other kind. */
  lemma UnlessCompletes(user: seq<string>, kind: Kind, default: string)
    requires KindOf(default) == kind
    ensures kind in Kinds(user) + Kinds(Unless(user, kind, default))
    ensures forall other :: other in Kinds(Unless(user, kind, default)) ==> other == kind
  {
    if !HasKind(user, kind) {
      assert Kinds([default])[0] == kind;
    }
  }

  lemma AddedEndsWithForeignKeys(user: seq<string>, isMemoryDB: bool, isReadOnly: bool)
    ensures var added := Added(user, isMemoryDB, isReadOnly);
      1 <= |added| <= 3 && added[|added| - 1] == "foreign_keys(1)"
  {
  }

  lemma KindsOfParts(user: seq<string>, busy: seq<string>, journal: seq<string>, last: string)
    ensures Kinds(user + (busy + journal + [last])) == Kinds(user) + Kinds(busy) + Kinds(journal) + [KindOf(last)]
  {
    KindsOfJoin(user, busy + journal + [last]);
    KindsOfJoin(busy + journal, [last]);
    KindsOfJoin(busy, journal);
  }

  /** Both settings are there, and the last entry is the only foreign_keys entry. */
  predicate Complete(kinds: seq<Kind>) {
    && kinds != [] && BusyTimeout in kinds && JournalMode in kinds
    && kinds[|kinds| - 1] == ForeignKeys && ForeignKeys !in kinds[..|kinds| - 1]
  }

  lemma PartsComplete(user: seq<Kind>, busy: seq<Kind>, journal: seq<Kind>)
    requires ForeignKeys !in user && ForeignKeys !in busy && ForeignKeys !in journal
    requires BusyTimeout in user + busy && JournalMode in user + journal
    ensures Complete(user + busy + journal + [ForeignKeys])
  {
    var kinds := user + busy + journal + [ForeignKeys];
    assert kinds[..|kinds| - 1] == user + busy + journal;
  }

  lemma AddedCompletes(user: seq<string>, isMemoryDB: bool, isReadOnly: bool)
    requires !HasKind(user, ForeignKeys)
    ensures Complete(Kinds(user + Added(user, isMemoryDB, isReadOnly)))
  {
    var busy := Unless(user, BusyTimeout, "busy_timeout(2500)");
    var journal := Unless(user, JournalMode, JournalDefault(isMemoryDB, isReadOnly));
    AddedKinds(isMemoryDB, isReadOnly);
    UnlessCompletes(user, BusyTimeout, "busy_timeout(2500)");
    UnlessCompletes(user, JournalMode, JournalDefault(isMemoryDB, isReadOnly));
    KindsOfParts(user, busy, journal, "foreign_keys(1)");
    PartsComplete(Kinds(user), Kinds(busy), Kinds(journal));
  }

  lemma AcceptedList(qs: Query, isMemoryDB: bool)
    requires WithDefaults(qs, isMemoryDB).Ok?
    ensures !HasKind(PragmasOf(qs), ForeignKeys) && PRAGMA in WithDefaults(qs, isMemoryDB).value
    ensures WithDefaults(qs, isMemoryDB).value[PRAGMA]
         == PragmasOf(qs) + Added(PragmasOf(qs), isMemoryDB, IsReadOnly(qs))
  {
  }

  /** The list keeps the user's pragmas as a prefix, in order, gets at most three more, sets a busy
      timeout and a journal mode, and ends with its only foreign_keys entry. */
  lemma AcceptedPragmas(qs: Query, isMemoryDB: bool) returns (list: seq<string>)
    requires WithDefaults(qs, isMemoryDB).Ok?
    ensures PRAGMA in WithDefaults(qs, isMemoryDB).value
    ensures list == WithDefaults(qs, isMemoryDB).value[PRAGMA]
    ensures |PragmasOf(qs)| < |list| <= |PragmasOf(qs)| + 3 && PragmasOf(qs) <= list
    ensures list[|list| - 1] == "foreign_keys(1)"
    ensures Complete(Kinds(list))
  {
    var user, isReadOnly := PragmasOf(qs), IsReadOnly(qs);
    AcceptedList(qs, isMemoryDB);
    list := user + Added(user, isMemoryDB, isReadOnly);
    AddedEndsWithForeignKeys(user, isMemoryDB, isReadOnly);
    AddedCompletes(user, isMemoryDB, isReadOnly);
  }

  /** The three special keys have one value each, in lower case; the others are the user's. */
  lemma AcceptedKeys(qs: Query, isMemoryDB: bool, k: string)
    requires WithDefaults(qs, isMemoryDB).Ok? && Parsed(qs) && k != PRAGMA
    ensures var out := WithDefaults(qs, isMemoryDB).value; var special := k == "mode" || k == "immutable" || k == "_txlock";
      && (k in out <==> k in qs || k == "_txlock")
      && (k in out && special ==> |out[k]| == 1 && StringUtil.NoUpper(out[k][0]))
      && (k in qs && special ==> out[k][0] == StringUtil.ToLower(qs[k][0]))
      && (k !in qs && k == "_txlock" ==> out[k] == ["immediate"])
      && (k in qs && !special ==> out[k] == qs[k])
  {
    KeysDiffer();
    if k in qs {
      StringUtil.LowerHasNoUpper(qs[k][0]);
    }
    assert "immediate"[0] == 'i';
    assert StringUtil.NoUpper("immediate");
  }

  function TimeoutText(value: string): string {
    "busy_timeout(" + value + ")"
  }

  lemma TimeoutIsConverted(query: Query, order: seq<string>, k: string)
    requires Parsed(query) && IsWalk(query, order) && PRAGMA !in query && k in query && StandsFor(k, "busy_timeout")
    ensures TimeoutText(query[k][0]) in PragmasOf(Converted(query, order))
  {
    var v := query[k][0];
    assert TimeoutText(v) == "busy_timeout" + "(" + v + ")";
    ListIsConversions(query, order);
    assert IsConversion(query, query.Keys, TimeoutText(v));
  }

  lemma TimeoutHasKind(list: seq<string>, value: string)
    requires TimeoutText(value) in list
    ensures HasKind(list, BusyTimeout)
  {
    StartDecidesKind("(" + value + ")");
    assert TimeoutText(value) == "busy_timeout" + ("(" + value + ")");
    HasKindIs(list, BusyTimeout);
  }

  lemma NoTimeoutAdded(user: seq<string>, isMemoryDB: bool, isReadOnly: bool)
    requires HasKind(user, BusyTimeout)
    ensures "busy_timeout(2500)" !in Added(user, isMemoryDB, isReadOnly)
  {
    assert JournalDefault(isMemoryDB, isReadOnly)[0] == 'j' && "foreign_keys(1)"[0] == 'f' && "busy_timeout(2500)"[0] == 'b';
  }

  /** A busy timeout that the user has set under a legacy key stays, and the default is not added to it: it is
      there only if the user has asked for it. */
  lemma UserTimeoutStays(query: Query, order: seq<string>, isMemoryDB: bool, k: string)
    requires Parsed(query) && IsWalk(query, order) && PRAGMA !in query
    requires k in query && StandsFor(k, "busy_timeout") && Composed(query, order, isMemoryDB).Ok?
    ensures PRAGMA in Composed(query, order, isMemoryDB).value
    ensures var list := Composed(query, order, isMemoryDB).value[PRAGMA];
      && TimeoutText(query[k][0]) in list
      && ("busy_timeout(2500)" in list ==> IsConversion(query, query.Keys, "busy_timeout(2500)"))
  {
    var qs := Converted(query, order);
    AcceptedList(qs, isMemoryDB);
    TimeoutIsConverted(query, order, k);
    TimeoutHasKind(PragmasOf(qs), query[k][0]);
    NoTimeoutAdded(PragmasOf(qs), isMemoryDB, IsReadOnly(qs));
    ListIsConversions(query, order);
  }

  lemma ConvertedIsParsed(query: Query, order: seq<string>)
    requires Parsed(query) && IsWalk(query, order)
    ensures Parsed(Converted(query, order))
  {
    var qs := Converted(query, order);
    forall k | k in qs
      ensures qs[k] != []
    {
      if k != PRAGMA {
        OtherKeys(query, order, k);
      } else {
        ListNotEmpty(query, map[], order);
      }
    }
  }

  lemma {:induction false} ListNotEmpty(query: Query, qs: Query, order: seq<string>)
    requires Walks(query, order) && (PRAGMA in qs ==> qs[PRAGMA] != [])
    ensures var qs' := ConvertFrom(PragmaFor, query, qs, order); PRAGMA in qs' ==> qs'[PRAGMA] != []
    decreases |order|
  {
    if order != [] {
      ListNotEmpty(query, ConvertKey(PragmaFor, query, qs, order[0]), order[1..]);
    }
  }

  /** The output is a query that would be rejected, whatever the walk: the rewriting cannot be repeated. */
  lemma OutputIsRejected(query: Query, order: seq<string>, isMemoryDB: bool, order': seq<string>, isMemoryDB': bool)
    requires Parsed(query) && IsWalk(query, order) && Composed(query, order, isMemoryDB).Ok?
    requires IsWalk(Composed(query, order, isMemoryDB).value, order')
    ensures var out := Composed(query, order, isMemoryDB).value;
      Parsed(out) && Composed(out, order', isMemoryDB').Err?
  {
    var qs, out := Converted(query, order), Composed(query, order, isMemoryDB).value;
    ConvertedIsParsed(query, order);
    var list := AcceptedPragmas(qs, isMemoryDB);
    forall k | k in out
      ensures out[k] != []
    {
      if k != PRAGMA {
        AcceptedKeys(qs, isMemoryDB, k);
      }
    }
    var p :| 0 <= p < |order'| && order'[p] == PRAGMA;
    RejectedWithPragmaKey(out, order', p, isMemoryDB');
  }
}
