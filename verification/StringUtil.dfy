/** Camel case to snake case, as two regular-expression passes and a change of case.

    Case changes are those of ASCII letters. */
module StringUtil {
  import opened Wrappers
  import opened Sequences

  predicate IsUpper(c: char) {
    'A' <= c <= 'Z'
  }

  predicate IsLower(c: char) {
    'a' <= c <= 'z'
  }

  predicate IsDigit(c: char) {
    '0' <= c <= '9'
  }

  // The first pass: ([A-Z]+)([A-Z][a-z]) becomes ${1}_${2}.

  /** The expression matches at i, its second group starting at j. */
  ghost predicate AcronymMatches(s: string, i: nat, j: nat) {
    && i < j && j + 1 < |s|
    && (forall k :: i <= k < j ==> IsUpper(s[k]))
    && IsUpper(s[j]) && IsLower(s[j + 1])
  }

  /** The end of the run of capitals that starts at i. */
  function RunEnd(s: string, i: nat): (n: nat)
    requires i <= |s|
    ensures i <= n <= |s| && (forall k :: i <= k < n ==> IsUpper(s[k])) && (n < |s| ==> !IsUpper(s[n]))
    decreases |s| - i
  {
    if i < |s| && IsUpper(s[i]) then RunEnd(s, i + 1) else i
  }

  /** The greedy match at i: the longest first group that lets the rest match. */
  function MatchAcronym(s: string, i: nat): (r: Option<nat>)
    requires i <= |s|
    ensures r.Some? ==> AcronymMatches(s, i, r.value) && forall j: nat :: AcronymMatches(s, i, j) ==> j <= r.value
    ensures r.None? ==> forall j: nat :: !AcronymMatches(s, i, j)
  {
    var n := RunEnd(s, i);
    assert forall j: nat :: AcronymMatches(s, i, j) ==> j + 1 == n;
    if i + 2 <= n && n < |s| && IsLower(s[n]) then Some(n - 1) else None
  }

  /** What a match is replaced by. */
  function Replacement(s: string, i: nat, j: nat): string
    requires i <= j && j + 1 < |s|
  {
    s[i..j] + ['_', s[j], s[j + 1]]
  }

  /** Leftmost, non-overlapping replacement from i on. */
  function ReplaceAcronyms(s: string, i: nat): string
    requires i <= |s|
    decreases |s| - i
  {
    if i == |s| then ""
    else match MatchAcronym(s, i)
      case Some(j) => Replacement(s, i, j) + ReplaceAcronyms(s, j + 2)
      case None => [s[i]] + ReplaceAcronyms(s, i + 1)
  }

  // The second pass: ([a-z0-9])([A-Z]) becomes ${1}_${2}.

  predicate LowerOrDigit(c: char) {
    IsLower(c) || IsDigit(c)
  }

  function ReplaceLowerToUpper(s: string): string
    decreases |s|
  {
    if s == "" then ""
    else if |s| >= 2 && LowerOrDigit(s[0]) && IsUpper(s[1]) then [s[0], '_', s[1]] + ReplaceLowerToUpper(s[2..])
    else [s[0]] + ReplaceLowerToUpper(s[1..])
  }

  function Lower(c: char): char {
    if IsUpper(c) then (c as int + 32) as char else c
  }

  function Upper(c: char): char {
    if IsLower(c) then (c as int - 32) as char else c
  }

  function ToLower(s: string): string {
    if s == "" then "" else [Lower(s[0])] + ToLower(s[1..])
  }

  function ToUpper(s: string): string {
    if s == "" then "" else [Upper(s[0])] + ToUpper(s[1..])
  }

  function CamelCaseToSnakeCase(s: string): string {
    ToLower(ReplaceLowerToUpper(ReplaceAcronyms(s, 0)))
  }

  function CamelCaseToScreamingSnakeCase(s: string): string {
    ToUpper(ReplaceLowerToUpper(ReplaceAcronyms(s, 0)))
  }

  // The one-pass rule.

  predicate AcronymStart(s: string, i: nat)
    requires i < |s|
  {
    0 < i && i + 1 < |s| && IsUpper(s[i - 1]) && IsUpper(s[i]) && IsLower(s[i + 1])
  }

  predicate HumpStart(s: string, i: nat)
    requires i < |s|
  {
    0 < i && LowerOrDigit(s[i - 1]) && IsUpper(s[i])
  }

  predicate Boundary(s: string, i: nat)
    requires i < |s|
  {
    AcronymStart(s, i) || HumpStart(s, i)
  }

  /** A boundary is before a capital after a small letter or a digit, and before the last capital of a run if
      a small letter follows. */
  lemma BoundaryMeans(s: string, i: nat)
    requires i < |s|
    ensures Boundary(s, i) <==>
      && i > 0 && 'A' <= s[i] <= 'Z'
      && (|| 'a' <= s[i - 1] <= 'z' || '0' <= s[i - 1] <= '9'
          || ('A' <= s[i - 1] <= 'Z' && i + 1 < |s| && 'a' <= s[i + 1] <= 'z'))
  {
  }

  /** The part of s from i on, with "_" before every boundary. */
  function OnePass(s: string, i: nat): string
    requires i <= |s|
    decreases |s| - i
  {
    if i == |s| then ""
    else if Boundary(s, i) then ['_', s[i]] + OnePass(s, i + 1)
    else [s[i]] + OnePass(s, i + 1)
  }

  // Each pass inserts by a local rule.

  function InsertAcronyms(s: string, i: nat): string
    requires i <= |s|
    decreases |s| - i
  {
    if i == |s| then ""
    else if AcronymStart(s, i) then ['_', s[i]] + InsertAcronyms(s, i + 1)
    else [s[i]] + InsertAcronyms(s, i + 1)
  }

  predicate HumpAfter(prev: Option<char>, c: char) {
    prev.Some? && LowerOrDigit(prev.value) && IsUpper(c)
  }

  function InsertHumps(prev: Option<char>, s: string): string
    decreases |s|
  {
    if s == "" then ""
    else if HumpAfter(prev, s[0]) then ['_', s[0]] + InsertHumps(Some(s[0]), s[1..])
    else [s[0]] + InsertHumps(Some(s[0]), s[1..])
  }

  lemma {:induction false} NothingInserted(s: string, i: nat, m: nat)
    requires i <= m <= |s| && forall k :: i <= k < m ==> !AcronymStart(s, k)
    ensures InsertAcronyms(s, i) == s[i..m] + InsertAcronyms(s, m)
    decreases m - i
  {
    if i < m {
      NothingInserted(s, i + 1, m);
      assert s[i..m] == [s[i]] + s[i + 1..m];
      Associative([s[i]], s[i + 1..m], InsertAcronyms(s, m));
    }
  }

  lemma MatchIsInserted(s: string, i: nat, j: nat)
    requires AcronymMatches(s, i, j) && !AcronymStart(s, i)
    ensures InsertAcronyms(s, i) == Replacement(s, i, j) + InsertAcronyms(s, j + 2)
  {
    var word, rest := ['_', s[j]], InsertAcronyms(s, j + 2);
    NothingInserted(s, i, j);
    assert InsertAcronyms(s, j) == word + ([s[j + 1]] + rest);
    Associative(word, [s[j + 1]], rest);
    assert word + [s[j + 1]] == ['_', s[j], s[j + 1]];
    Associative(s[i..j], ['_', s[j], s[j + 1]], rest);
  }

  function NextScan(s: string, i: nat): nat
    requires i < |s|
  {
    if MatchAcronym(s, i).Some? then MatchAcronym(s, i).value + 2 else i + 1
  }

  /** One step of the scan emits what the local rule emits for the same characters. */
  lemma SkipStep(s: string, i: nat)
    requires i < |s| && !AcronymStart(s, i) && MatchAcronym(s, i).None?
    requires ReplaceAcronyms(s, i + 1) == InsertAcronyms(s, i + 1)
    ensures ReplaceAcronyms(s, i) == InsertAcronyms(s, i)
  {
  }

  lemma ReplaceAtMatch(s: string, i: nat, j: nat)
    requires i < |s| && MatchAcronym(s, i) == Some(j)
    ensures ReplaceAcronyms(s, i) == Replacement(s, i, j) + ReplaceAcronyms(s, j + 2)
  {
  }

  lemma MatchStep(s: string, i: nat, j: nat)
    requires AcronymMatches(s, i, j) && !AcronymStart(s, i)
    requires ReplaceAcronyms(s, i) == Replacement(s, i, j) + ReplaceAcronyms(s, j + 2)
    requires ReplaceAcronyms(s, j + 2) == InsertAcronyms(s, j + 2)
    ensures ReplaceAcronyms(s, i) == InsertAcronyms(s, i)
  {
    MatchIsInserted(s, i, j);
  }

  /** Neither after a match nor one character on can the scan stand on the start of an acronym's last word. */
  lemma ScanSkipsStarts(s: string, i: nat)
    requires i < |s| && !AcronymStart(s, i)
    ensures var next := NextScan(s, i); i < next <= |s| && (next < |s| ==> !AcronymStart(s, next))
  {
    if MatchAcronym(s, i).None? {
      assert !AcronymMatches(s, i, i + 1);
    }
  }

  lemma MatchScan(s: string, i: nat, j: nat)
    requires i < |s| && !AcronymStart(s, i) && MatchAcronym(s, i) == Some(j)
    requires ReplaceAcronyms(s, j + 2) == InsertAcronyms(s, j + 2)
    ensures ReplaceAcronyms(s, i) == InsertAcronyms(s, i)
  {
    ReplaceAtMatch(s, i, j);
    MatchStep(s, i, j);
  }

  lemma ScanStep(s: string, i: nat)
    requires i < |s| && !AcronymStart(s, i) && NextScan(s, i) <= |s|
    requires ReplaceAcronyms(s, NextScan(s, i)) == InsertAcronyms(s, NextScan(s, i))
    ensures ReplaceAcronyms(s, i) == InsertAcronyms(s, i)
  {
    var m := MatchAcronym(s, i);
    if m.Some? {
      MatchScan(s, i, m.value);
    } else {
      SkipStep(s, i);
    }
  }

  lemma {:induction false} AcronymsAreInserted(s: string, i: nat)
    requires i <= |s| && (i < |s| ==> !AcronymStart(s, i))
    ensures ReplaceAcronyms(s, i) == InsertAcronyms(s, i)
    decreases |s| - i
  {
    if i < |s| {
      ScanSkipsStarts(s, i);
      AcronymsAreInserted(s, NextScan(s, i));
      ScanStep(s, i);
    }
  }

  lemma SameBefore(c: char, s: string)
    requires !LowerOrDigit(c) || s == "" || !IsUpper(s[0])
    ensures InsertHumps(Some(c), s) == InsertHumps(None, s)
  {
  }

  lemma InsertIntoCons(prev: Option<char>, c: char, rest: string)
    ensures InsertHumps(prev, [c] + rest)
         == (if HumpAfter(prev, c) then ['_', c] else [c]) + InsertHumps(Some(c), rest)
  {
    assert ([c] + rest)[1..] == rest;
  }

  lemma HumpMatchIsInserted(a: char, b: char, rest: string)
    requires LowerOrDigit(a) && IsUpper(b)
    ensures InsertHumps(None, [a] + ([b] + rest)) == [a, '_', b] + InsertHumps(None, rest)
  {
    InsertIntoCons(None, a, [b] + rest);
    InsertIntoCons(Some(a), b, rest);
    SameBefore(b, rest);
    assert [a] + (['_', b] + InsertHumps(None, rest)) == [a, '_', b] + InsertHumps(None, rest);
  }

  lemma {:induction false} HumpsAreInserted(s: string)
    ensures ReplaceLowerToUpper(s) == InsertHumps(None, s)
    decreases |s|
  {
    if |s| >= 2 && LowerOrDigit(s[0]) && IsUpper(s[1]) {
      HumpsAreInserted(s[2..]);
      HumpMatchIsInserted(s[0], s[1], s[2..]);
      assert s == [s[0]] + ([s[1]] + s[2..]);
    } else if s != "" {
      HumpsAreInserted(s[1..]);
      SameBefore(s[0], s[1..]);
    }
  }

  function Before(s: string, i: nat): Option<char>
    requires i <= |s|
  {
    if i == 0 then None else Some(s[i - 1])
  }

  lemma InsertIntoWord(prev: Option<char>, c: char, rest: string)
    ensures InsertHumps(prev, ['_', c] + rest) == ['_', c] + InsertHumps(Some(c), rest)
  {
    assert ['_', c] + rest == ['_'] + ([c] + rest);
    InsertIntoCons(prev, '_', [c] + rest);
    InsertIntoCons(Some('_'), c, rest);
  }

  /** The underscores of the first pass do not disturb the second. */
  lemma {:induction false} InsertionsCompose(s: string, i: nat)
    requires i <= |s|
    ensures InsertHumps(Before(s, i), InsertAcronyms(s, i)) == OnePass(s, i)
    decreases |s| - i
  {
    if i < |s| {
      InsertionsCompose(s, i + 1);
      if AcronymStart(s, i) {
        InsertIntoWord(Before(s, i), s[i], InsertAcronyms(s, i + 1));
      } else {
        InsertIntoCons(Before(s, i), s[i], InsertAcronyms(s, i + 1));
      }
    }
  }

  /** The two passes of leftmost-greedy replacement put "_" before every boundary and nothing else. */
  lemma TwoPassesAreOne(s: string)
    ensures ReplaceLowerToUpper(ReplaceAcronyms(s, 0)) == OnePass(s, 0)
  {
    AcronymsAreInserted(s, 0);
    HumpsAreInserted(ReplaceAcronyms(s, 0));
    InsertionsCompose(s, 0);
  }

  // Consequences, by the one-pass rule given the character before.

  /** The one-pass rule on a suffix, given the character before it. */
  function Split(prev: Option<char>, s: string): string
    decreases |s|
  {
    if s == "" then ""
    else if StartsWord(prev, s) then ['_', s[0]] + Split(Some(s[0]), s[1..])
    else [s[0]] + Split(Some(s[0]), s[1..])
  }

  predicate StartsWord(prev: Option<char>, s: string)
    requires s != ""
  {
    && prev.Some? && IsUpper(s[0])
    && (LowerOrDigit(prev.value) || (IsUpper(prev.value) && |s| >= 2 && IsLower(s[1])))
  }

  lemma {:induction false} SplitIsOnePass(s: string, i: nat)
    requires i <= |s|
    ensures Split(Before(s, i), s[i..]) == OnePass(s, i)
    decreases |s| - i
  {
    if i < |s| {
      SplitIsOnePass(s, i + 1);
      assert s[i..][1..] == s[i + 1..];
    }
  }

  lemma SnakeIsSplit(s: string)
    ensures CamelCaseToSnakeCase(s) == ToLower(Split(None, s))
    ensures CamelCaseToScreamingSnakeCase(s) == ToUpper(Split(None, s))
  {
    TwoPassesAreOne(s);
    SplitIsOnePass(s, 0);
    assert s[0..] == s;
  }

  const GROUPS_KEY := "signupDefaultUserGroupIDs"

  /** The words of this key are signup, Default, User, Group, I and Ds: its acronym is cut in two. */
  lemma GroupsKeyWords(i: nat)
    requires i < |GROUPS_KEY|
    ensures Boundary(GROUPS_KEY, i) <==> i == 6 || i == 13 || i == 17 || i == 22 || i == 23
  {
    var s := GROUPS_KEY;
    assert s[6] == 'D' && s[13] == 'U' && s[17] == 'G' && s[22] == 'I' && s[23] == 'D' && s[24] == 's';
  }

  lemma {:induction false} OnePassWord(s: string, i: nat, m: nat)
    requires i <= m <= |s| && forall k :: i <= k < m ==> !Boundary(s, k)
    ensures OnePass(s, i) == s[i..m] + OnePass(s, m)
    decreases m - i
  {
    if i < m {
      OnePassWord(s, i + 1, m);
      assert s[i..m] == [s[i]] + s[i + 1..m];
      Associative([s[i]], s[i + 1..m], OnePass(s, m));
    } else {
      assert s[i..m] + OnePass(s, m) == OnePass(s, m);
    }
  }

  /** From the boundary i on, with no other up to m. */
  lemma OnePassFromBoundary(s: string, i: nat, m: nat)
    requires i < m <= |s| && Boundary(s, i) && forall k :: i < k < m ==> !Boundary(s, k)
    ensures OnePass(s, i) == ['_'] + s[i..m] + OnePass(s, m)
  {
    OnePassWord(s, i + 1, m);
    Associative(['_', s[i]], s[i + 1..m], OnePass(s, m));
    assert ['_', s[i]] + s[i + 1..m] == ['_'] + s[i..m];
  }

  lemma {:induction false} UpperOfJoin(a: string, b: string)
    ensures ToUpper(a + b) == ToUpper(a) + ToUpper(b)
  {
    if a == "" {
      assert a + b == b;
    } else {
      UpperOfJoin(a[1..], b);
      assert (a + b)[1..] == a[1..] + b;
      Associative([Upper(a[0])], ToUpper(a[1..]), ToUpper(b));
    }
  }

  lemma {:induction false} UpperIs(s: string, t: string)
    requires |s| == |t| && forall i :: 0 <= i < |s| ==> t[i] == Upper(s[i])
    ensures ToUpper(s) == t
  {
    if s != "" {
      UpperIs(s[1..], t[1..]);
    }
  }

  lemma UpperWord(s: string, i: nat, m: nat, rest: string)
    requires i < m <= |s| && Boundary(s, i) && forall k :: i < k < m ==> !Boundary(s, k)
    requires ToUpper(OnePass(s, m)) == rest
    ensures ToUpper(OnePass(s, i)) == ['_'] + ToUpper(s[i..m]) + rest
  {
    OnePassFromBoundary(s, i, m);
    UpperOfJoin(['_'] + s[i..m], OnePass(s, m));
    UpperOfJoin(['_'], s[i..m]);
  }

  /** A string of 25 characters with these boundaries, its words in upper case. */
  lemma WordsInUpperCase(s: string)
    requires |s| == 25
    requires forall i :: 0 <= i < |s| ==> (Boundary(s, i) <==> i == 6 || i == 13 || i == 17 || i == 22 || i == 23)
    ensures CamelCaseToScreamingSnakeCase(s)
         == ToUpper(s[0..6]) + (['_'] + ToUpper(s[6..13]) + (['_'] + ToUpper(s[13..17])
            + (['_'] + ToUpper(s[17..22]) + (['_'] + ToUpper(s[22..23]) + (['_'] + ToUpper(s[23..25]) + [])))))
  {
    UpperWord(s, 23, 25, []);
    UpperWord(s, 22, 23, ToUpper(OnePass(s, 23)));
    UpperWord(s, 17, 22, ToUpper(OnePass(s, 22)));
    UpperWord(s, 13, 17, ToUpper(OnePass(s, 17)));
    UpperWord(s, 6, 13, ToUpper(OnePass(s, 13)));
    OnePassWord(s, 0, 6);
    UpperOfJoin(s[0..6], OnePass(s, 6));
    TwoPassesAreOne(s);
  }

  lemma AllBoundaries()
    ensures forall i :: 0 <= i < |GROUPS_KEY| ==> (Boundary(GROUPS_KEY, i) <==> i == 6 || i == 13 || i == 17 || i == 22 || i == 23)
  {
    forall i | 0 <= i < |GROUPS_KEY|
      ensures Boundary(GROUPS_KEY, i) <==> i == 6 || i == 13 || i == 17 || i == 22 || i == 23
    {
      GroupsKeyWords(i);
    }
  }

  lemma FirstWords()
    ensures ToUpper(GROUPS_KEY[0..6]) == "SIGNUP" && ToUpper(GROUPS_KEY[6..13]) == "DEFAULT"
  {
    UpperIs(GROUPS_KEY[0..6], "SIGNUP");
    UpperIs(GROUPS_KEY[6..13], "DEFAULT");
  }

  lemma MiddleWords()
    ensures ToUpper(GROUPS_KEY[13..17]) == "USER" && ToUpper(GROUPS_KEY[17..22]) == "GROUP"
  {
    UpperIs(GROUPS_KEY[13..17], "USER");
    UpperIs(GROUPS_KEY[17..22], "GROUP");
  }

  lemma LastWords()
    ensures ToUpper(GROUPS_KEY[22..23]) == "I" && ToUpper(GROUPS_KEY[23..25]) == "DS"
  {
    UpperIs(GROUPS_KEY[22..23], "I");
    UpperIs(GROUPS_KEY[23..25], "DS");
  }

  lemma WordsJoined()
    ensures "SIGNUP" + (['_'] + "DEFAULT" + (['_'] + "USER" + (['_'] + "GROUP" + (['_'] + "I" + (['_'] + "DS" + [])))))
         == "SIGNUP_DEFAULT_USER_GROUP_I_DS"
  {
  }

  /** The environment variable of this key. */
  lemma GroupsKeyForm()
    ensures CamelCaseToScreamingSnakeCase(GROUPS_KEY) == "SIGNUP_DEFAULT_USER_GROUP_I_DS"
  {
    AllBoundaries();
    WordsInUpperCase(GROUPS_KEY);
    FirstWords();
    MiddleWords();
    LastWords();
    WordsJoined();
  }

  // Stability.

  predicate NoUpper(s: string) {
    forall i :: 0 <= i < |s| ==> !IsUpper(s[i])
  }

  lemma {:induction false} SplitWithoutUpper(prev: Option<char>, s: string)
    requires NoUpper(s)
    ensures Split(prev, s) == s && ToLower(s) == s
    decreases |s|
  {
    if s != "" {
      SplitWithoutUpper(Some(s[0]), s[1..]);
    }
  }

  lemma LowerFixed(s: string)
    requires NoUpper(s)
    ensures ToLower(s) == s
  {
    SplitWithoutUpper(None, s);
  }

  lemma {:induction false} LowerHasNoUpper(s: string)
    ensures |ToLower(s)| == |s| && NoUpper(ToLower(s))
  {
    if s != "" {
      LowerHasNoUpper(s[1..]);
    }
  }

  /** Snake case is a fixed point of itself. */
  lemma SnakeIsIdempotent(s: string)
    ensures CamelCaseToSnakeCase(CamelCaseToSnakeCase(s)) == CamelCaseToSnakeCase(s)
  {
    var t := CamelCaseToSnakeCase(s);
    SnakeIsSplit(s);
    LowerHasNoUpper(Split(None, s));
    SnakeIsSplit(t);
    SplitWithoutUpper(None, t);
  }

  /** Somewhere in s a digit is followed by a character in the given case; prev comes before s. */
  predicate DigitThen(prev: Option<char>, s: string, upper: bool)
    decreases |s|
  {
    s != "" &&
    ((prev.Some? && IsDigit(prev.value) && (if upper then IsUpper(s[0]) else IsLower(s[0])))
     || DigitThen(Some(s[0]), s[1..], upper))
  }

  predicate NoLower(s: string) {
    forall i :: 0 <= i < |s| ==> !IsLower(s[i])
  }

  lemma {:induction false} UpperHasNoLower(s: string)
    ensures |ToUpper(s)| == |s| && NoLower(ToUpper(s))
    ensures NoLower(s) ==> ToUpper(s) == s
  {
    if s != "" {
      UpperHasNoLower(s[1..]);
    }
  }

  function UpperBefore(prev: Option<char>): Option<char> {
    if prev.Some? then Some(Upper(prev.value)) else None
  }

  lemma SplitCons(prev: Option<char>, s: string)
    requires s != ""
    ensures var tail := [s[0]] + Split(Some(s[0]), s[1..]);
      && tail[1..] == Split(Some(s[0]), s[1..])
      && Split(prev, s) == (if StartsWord(prev, s) then ['_'] + tail else tail)
      && (['_'] + tail)[1..] == tail
  {
  }

  lemma UpperCons(c: char, t: string)
    ensures ToUpper([c] + t) == [Upper(c)] + ToUpper(t)
  {
    assert ([c] + t)[1..] == t;
  }

  lemma DigitCons(prev: Option<char>, c: char, t: string, upper: bool)
    ensures DigitThen(prev, [c] + t, upper)
         == (|| (prev.Some? && IsDigit(prev.value) && (if upper then IsUpper(c) else IsLower(c)))
             || DigitThen(Some(c), t, upper))
  {
    assert ([c] + t)[1..] == t;
  }

  /** In the screaming form a digit is followed by a capital just where it was followed by a lower-case letter. */
  lemma {:induction false} DigitsInScreaming(prev: Option<char>, s: string)
    ensures DigitThen(UpperBefore(prev), ToUpper(Split(prev, s)), true) <==> DigitThen(prev, s, false)
    decreases |s|
  {
    if s != "" {
      DigitsInScreaming(Some(s[0]), s[1..]);
      var rest := Split(Some(s[0]), s[1..]);
      UpperCons(s[0], rest);
      if StartsWord(prev, s) {
        Associative(['_'], [s[0]], rest);
        UpperCons('_', [s[0]] + rest);
        DigitCons(UpperBefore(prev), '_', [Upper(s[0])] + ToUpper(rest), true);
        DigitCons(Some('_'), Upper(s[0]), ToUpper(rest), true);
      } else {
        DigitCons(UpperBefore(prev), Upper(s[0]), ToUpper(rest), true);
      }
    }
  }

  /** On a string without lower-case letters only capitals after digits start words. */
  lemma {:induction false} SplitWithoutLower(prev: Option<char>, s: string)
    requires NoLower(s) && (prev.Some? ==> !IsLower(prev.value))
    ensures |Split(prev, s)| >= |s| && (|Split(prev, s)| == |s| ==> Split(prev, s) == s)
    ensures |Split(prev, s)| == |s| <==> !DigitThen(prev, s, true)
    decreases |s|
  {
    if s != "" {
      SplitWithoutLower(Some(s[0]), s[1..]);
      SplitCons(prev, s);
    }
  }

  /** What a string without lower-case letters becomes has no digit before a capital. */
  lemma {:induction false} SplitIsDigitFree(prev: Option<char>, s: string)
    requires NoLower(s) && (prev.Some? ==> !IsLower(prev.value))
    ensures NoLower(Split(prev, s)) && !DigitThen(prev, Split(prev, s), true)
    decreases |s|
  {
    if s != "" {
      SplitIsDigitFree(Some(s[0]), s[1..]);
      SplitCons(prev, s);
    }
  }

  /** Screaming case is stable after two applications, and after one exactly when no digit is followed
      by a lower-case letter. */
  lemma ScreamingStability(s: string)
    ensures var once := CamelCaseToScreamingSnakeCase(s); var twice := CamelCaseToScreamingSnakeCase(once);
      && CamelCaseToScreamingSnakeCase(twice) == twice
      && (twice == once <==> !DigitThen(None, s, false))
  {
    var once := ToUpper(Split(None, s));
    SnakeIsSplit(s);
    UpperHasNoLower(Split(None, s));
    DigitsInScreaming(None, s);
    SnakeIsSplit(once);
    SplitWithoutLower(None, once);
    SplitIsDigitFree(None, once);
    var twice := Split(None, once);
    UpperHasNoLower(twice);
    SnakeIsSplit(twice);
    SplitWithoutLower(None, twice);
  }

  // Left inverse.

  function FromSnakeCase(t: string): string
    decreases |t|
  {
    if t == "" then ""
    else if t[0] == '_' && |t| >= 2 then [Upper(t[1])] + FromSnakeCase(t[2..])
    else [t[0]] + FromSnakeCase(t[1..])
  }

  predicate Alphanumeric(s: string) {
    forall i :: 0 <= i < |s| ==> IsUpper(s[i]) || LowerOrDigit(s[i])
  }

  /** Every capital of s starts a word. */
  predicate CapitalsStartWords(prev: Option<char>, s: string)
    decreases |s|
  {
    s != "" ==> (IsUpper(s[0]) ==> StartsWord(prev, s)) && CapitalsStartWords(Some(s[0]), s[1..])
  }

  lemma FromWord(c: char, t: string)
    ensures FromSnakeCase(['_', c] + t) == [Upper(c)] + FromSnakeCase(t)
  {
    assert (['_', c] + t)[2..] == t;
  }

  lemma FromLetter(c: char, t: string)
    requires c != '_'
    ensures FromSnakeCase([c] + t) == [c] + FromSnakeCase(t)
  {
    assert ([c] + t)[1..] == t;
  }

  lemma LowerCons(c: char, t: string)
    ensures ToLower([c] + t) == [Lower(c)] + ToLower(t)
  {
    assert ([c] + t)[1..] == t;
  }

  lemma ConsEqual(a: char, x: string, s: string)
    requires s != ""
    ensures [a] + x == s <==> a == s[0] && x == s[1..]
  {
    assert ([a] + x)[0] == a && ([a] + x)[1..] == x;
    assert s == [s[0]] + s[1..];
  }

  lemma FromLowerWord(c: char, rest: string)
    ensures FromSnakeCase(ToLower(['_', c] + rest)) == [Upper(Lower(c))] + FromSnakeCase(ToLower(rest))
  {
    Associative(['_'], [c], rest);
    LowerCons('_', [c] + rest);
    LowerCons(c, rest);
    Associative(['_'], [Lower(c)], ToLower(rest));
    FromWord(Lower(c), ToLower(rest));
  }

  lemma FromLowerLetter(c: char, rest: string)
    requires c != '_'
    ensures FromSnakeCase(ToLower([c] + rest)) == [Lower(c)] + FromSnakeCase(ToLower(rest))
  {
    LowerCons(c, rest);
    FromLetter(Lower(c), ToLower(rest));
  }

  lemma {:induction false} FromSplit(prev: Option<char>, s: string)
    requires Alphanumeric(s)
    ensures FromSnakeCase(ToLower(Split(prev, s))) == s <==> CapitalsStartWords(prev, s)
    decreases |s|
  {
    if s != "" {
      var rest := Split(Some(s[0]), s[1..]);
      var text := FromSnakeCase(ToLower(rest));
      FromSplit(Some(s[0]), s[1..]);
      if StartsWord(prev, s) {
        FromLowerWord(s[0], rest);
        ConsEqual(Upper(Lower(s[0])), text, s);
      } else {
        FromLowerLetter(s[0], rest);
        ConsEqual(Lower(s[0]), text, s);
      }
    }
  }

  lemma {:induction false} LowerOfUpper(s: string)
    ensures ToLower(ToUpper(s)) == ToLower(s)
  {
    if s != "" {
      LowerOfUpper(s[1..]);
    }
  }

  // The two forms.

  lemma {:induction false} LowerAt(s: string, i: nat)
    requires i < |s|
    ensures |ToLower(s)| == |s|
    ensures ToLower(s)[i] == if 'A' <= s[i] <= 'Z' then (s[i] as int - 'A' as int + 'a' as int) as char else s[i]
  {
    if i > 0 {
      LowerAt(s[1..], i - 1);
    } else {
      LowerHasNoUpper(s);
    }
  }

  lemma {:induction false} UpperAt(s: string, i: nat)
    requires i < |s|
    ensures |ToUpper(s)| == |s|
    ensures ToUpper(s)[i] == if 'a' <= s[i] <= 'z' then (s[i] as int - 'a' as int + 'A' as int) as char else s[i]
  {
    if i > 0 {
      UpperAt(s[1..], i - 1);
    } else {
      UpperHasNoLower(s);
    }
  }

  /** Both forms are the words with "_" before each boundary; one has no capitals, the other no small letters,
      and they differ in nothing else. */
  lemma FormsAreWords(s: string)
    ensures CamelCaseToSnakeCase(s) == ToLower(OnePass(s, 0)) && NoUpper(CamelCaseToSnakeCase(s))
    ensures CamelCaseToScreamingSnakeCase(s) == ToUpper(OnePass(s, 0)) && NoLower(CamelCaseToScreamingSnakeCase(s))
    ensures ToLower(CamelCaseToScreamingSnakeCase(s)) == CamelCaseToSnakeCase(s)
  {
    TwoPassesAreOne(s);
    LowerHasNoUpper(OnePass(s, 0));
    UpperHasNoLower(OnePass(s, 0));
    LowerOfUpper(OnePass(s, 0));
  }

  /** On alphanumeric strings both forms can be undone exactly when every capital starts a word. */
  lemma RoundTrip(s: string)
    requires Alphanumeric(s)
    ensures FromSnakeCase(CamelCaseToSnakeCase(s)) == s <==> CapitalsStartWords(None, s)
    ensures FromSnakeCase(ToLower(CamelCaseToScreamingSnakeCase(s))) == s <==> CapitalsStartWords(None, s)
  {
    SnakeIsSplit(s);
    FromSplit(None, s);
    LowerOfUpper(Split(None, s));
  }

  /** The usual shape of a key: no capital at the front, no two capitals in a row. */
  predicate PlainKey(s: string) {
    && Alphanumeric(s)
    && (forall i :: 0 <= i < |s| && IsUpper(s[i]) ==> i > 0 && !IsUpper(s[i - 1]))
  }

  lemma {:induction false} PlainCapitalsStartWords(s: string, i: nat)
    requires PlainKey(s) && i <= |s|
    ensures CapitalsStartWords(Before(s, i), s[i..])
    decreases |s| - i
  {
    if i < |s| {
      assert s[i..][1..] == s[i + 1..];
      PlainCapitalsStartWords(s, i + 1);
    }
  }

  lemma {:induction false} BoundariesStartWords(s: string, i: nat)
    requires i <= |s| && forall k :: i <= k < |s| && IsUpper(s[k]) ==> Boundary(s, k)
    ensures CapitalsStartWords(Before(s, i), s[i..])
    decreases |s| - i
  {
    if i < |s| {
      assert s[i..][1..] == s[i + 1..];
      BoundariesStartWords(s, i + 1);
    }
  }

  lemma GroupsKeyCapital(k: nat)
    requires k < |GROUPS_KEY|
    ensures IsUpper(GROUPS_KEY[k]) ==> Boundary(GROUPS_KEY, k)
    ensures IsUpper(GROUPS_KEY[k]) || IsLower(GROUPS_KEY[k])
  {
    GroupsKeyWords(k);
  }

  lemma BoundariesDecide(s: string)
    requires forall k :: 0 <= k < |s| && IsUpper(s[k]) ==> Boundary(s, k)
    ensures CapitalsStartWords(None, s)
  {
    BoundariesStartWords(s, 0);
    assert s[0..] == s;
  }

  /** Although its acronym is cut, every capital of this key starts a word, so the key can be recovered. */
  lemma GroupsKeyIsDistinct()
    ensures Alphanumeric(GROUPS_KEY) && CapitalsStartWords(None, GROUPS_KEY)
  {
    forall k | 0 <= k < |GROUPS_KEY|
      ensures IsUpper(GROUPS_KEY[k]) ==> Boundary(GROUPS_KEY, k)
      ensures IsUpper(GROUPS_KEY[k]) || IsLower(GROUPS_KEY[k])
    {
      GroupsKeyCapital(k);
    }
    BoundariesDecide(GROUPS_KEY);
  }

  /** Different keys whose capitals all start words have different forms, in either case; so have
      different keys of the usual shape. */
  lemma KeysStayDistinct(s: string, t: string)
    requires Alphanumeric(s) && Alphanumeric(t) && s != t
    requires PlainKey(s) || CapitalsStartWords(None, s)
    requires PlainKey(t) || CapitalsStartWords(None, t)
    ensures CamelCaseToSnakeCase(s) != CamelCaseToSnakeCase(t)
    ensures CamelCaseToScreamingSnakeCase(s) != CamelCaseToScreamingSnakeCase(t)
  {
    assert s[0..] == s && t[0..] == t;
    if PlainKey(s) {
      PlainCapitalsStartWords(s, 0);
    }
    if PlainKey(t) {
      PlainCapitalsStartWords(t, 0);
    }
    RoundTrip(s);
    RoundTrip(t);
  }
}
