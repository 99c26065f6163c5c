/** Random strings by rejection sampling from a buffer of random bytes.

    The random source is the sequence of buffers it fills; reading past its end is a read error. */
module RandomString {
  import opened Wrappers
  import opened Sequences

  type Byte = b: int | 0 <= b < 256

  datatype GenerateError = BadLength | ReadFailed

  /** The six low bits of a byte. */
  function LetterIndex(b: Byte): nat {
    b % 64
  }

  /** The integer part of 1.3 * n. */
  function BufferSize(n: nat): (size: nat)
    ensures n <= size <= 2 * n
    ensures 10 * size <= 13 * n < 10 * size + 10
  {
    n * 13 / 10
  }

  ghost predicate ValidSource(n: nat, d: nat, source: seq<seq<Byte>>) {
    0 < n <= d <= 2 * n && forall f :: 0 <= f < |source| ==> |source[f]| == d
  }

  // Division and remainder, by subtraction.

  /** j divided by d. */
  function Turns(j: nat, d: nat): nat
    requires d > 0
  {
    if j < d then 0 else 1 + Turns(j - d, d)
  }

  /** j modulo n. */
  function Wrap(j: nat, n: nat): (r: nat)
    requires n > 0
    ensures r < n
  {
    if j < n then j else Wrap(j - n, n)
  }

  lemma MulAtLeast(k: int, d: nat)
    ensures k >= 1 ==> k * d >= d
    ensures k <= -1 ==> k * d + d <= 0
  {
  }

  lemma DivUnique(x: nat, d: nat, q: nat, r: nat)
    requires r < d && x == q * d + r
    ensures x / d == q && x % d == r
  {
    MulAtLeast(q - x / d, d);
    assert (q - x / d) * d == x % d - r;
  }

  lemma {:induction false} IsDivAndMod(j: nat, d: nat)
    requires d > 0
    ensures Turns(j, d) == j / d && Wrap(j, d) == j % d
    decreases j
  {
    if j < d {
      DivUnique(j, d, 0, j);
    } else {
      IsDivAndMod(j - d, d);
      DivUnique(j, d, (j - d) / d + 1, (j - d) % d);
    }
  }

  lemma {:induction false} NextPlace(j: nat, d: nat)
    requires d > 0
    ensures if Wrap(j, d) + 1 == d then Wrap(j + 1, d) == 0 && Turns(j + 1, d) == Turns(j, d) + 1
            else Wrap(j + 1, d) == Wrap(j, d) + 1 && Turns(j + 1, d) == Turns(j, d)
    decreases j
  {
    if j >= d {
      NextPlace(j - d, d);
    }
  }

  /** m times d. */
  function Total(d: nat, m: nat): nat {
    if m == 0 then 0 else Total(d, m - 1) + d
  }

  lemma {:induction false} TurnsBelow(j: nat, d: nat, m: nat)
    requires d > 0
    ensures Turns(j, d) < m <==> j < Total(d, m)
    ensures Turns(j, d) == m && Wrap(j, d) == 0 ==> j == Total(d, m)
    decreases j
  {
    if m > 0 && j >= d {
      TurnsBelow(j - d, d, m - 1);
    }
  }

  // The draws.

  /** Draw j: the buffer, of d bytes, is filled for every d draws, but draw j reads it at j modulo n. */
  ghost function Draw(n: nat, d: nat, source: seq<seq<Byte>>, j: nat): Byte
    requires ValidSource(n, d, source) && Turns(j, d) < |source|
  {
    source[Turns(j, d)][Wrap(j, n)]
  }

  ghost function FirstDraws(n: nat, d: nat, source: seq<seq<Byte>>, k: nat): (r: seq<Byte>)
    requires ValidSource(n, d, source) && k <= Total(d, |source|)
    ensures |r| == k
  {
    if k == 0 then []
    else
      TurnsBelow(k - 1, d, |source|);
      FirstDraws(n, d, source, k - 1) + [Draw(n, d, source, k - 1)]
  }

  lemma {:induction false} DrawIs(n: nat, d: nat, source: seq<seq<Byte>>, k: nat, j: nat)
    requires ValidSource(n, d, source) && j < k <= Total(d, |source|)
    ensures Turns(j, d) < |source| && FirstDraws(n, d, source, k)[j] == Draw(n, d, source, j)
    decreases k
  {
    TurnsBelow(j, d, |source|);
    if j < k - 1 {
      DrawIs(n, d, source, k - 1, j);
    }
  }

  /** All draws that the source is enough for. */
  ghost function Draws(n: nat, d: nat, source: seq<seq<Byte>>): seq<Byte>
    requires ValidSource(n, d, source)
  {
    FirstDraws(n, d, source, Total(d, |source|))
  }

  lemma {:induction false} TotalIsProduct(d: nat, m: nat)
    ensures Total(d, m) == m * d
  {
    if m > 0 {
      TotalIsProduct(d, m - 1);
      assert m * d == (m - 1) * d + d;
    }
  }

  /** There are d draws for each fill, and draw j reads fill j / d at j % n. */
  lemma DrawsAre(n: nat, d: nat, source: seq<seq<Byte>>, j: nat)
    requires ValidSource(n, d, source)
    ensures |Draws(n, d, source)| == |source| * d
    ensures j < |Draws(n, d, source)| ==> j / d < |source| && Draws(n, d, source)[j] == source[j / d][j % n]
  {
    TotalIsProduct(d, |source|);
    IsDivAndMod(j, d);
    IsDivAndMod(j, n);
    if j < |Draws(n, d, source)| {
      DrawIs(n, d, source, |Draws(n, d, source)|, j);
    }
  }

  function Letter(charset: string, b: Byte): string {
    if LetterIndex(b) < |charset| then [charset[LetterIndex(b)]] else ""
  }

  /** The characters of the first k of these bytes that are accepted, in order. */
  function Yield(charset: string, bytes: seq<Byte>, k: nat): (r: string)
    requires k <= |bytes|
    ensures |r| <= k
  {
    if k == 0 then "" else Yield(charset, bytes, k - 1) + Letter(charset, bytes[k - 1])
  }

  function Accepted(charset: string, bytes: seq<Byte>): (r: string)
    ensures |r| <= |bytes|
  {
    Yield(charset, bytes, |bytes|)
  }

  lemma {:induction false} YieldGrows(charset: string, bytes: seq<Byte>, j: nat, k: nat)
    requires j <= k <= |bytes|
    ensures Yield(charset, bytes, j) <= Yield(charset, bytes, k)
    decreases k
  {
    if j < k {
      YieldGrows(charset, bytes, j, k - 1);
    }
  }

  lemma {:induction false} YieldAgrees(charset: string, a: seq<Byte>, b: seq<Byte>, k: nat)
    requires k <= |a| && k <= |b| && forall j :: 0 <= j < k ==> a[j] == b[j]
    ensures Yield(charset, a, k) == Yield(charset, b, k)
  {
    if k > 0 {
      YieldAgrees(charset, a, b, k - 1);
    }
  }

  lemma {:induction false} YieldJoins(charset: string, a: seq<Byte>, b: seq<Byte>, k: nat)
    requires k <= |b|
    ensures Yield(charset, a + b, |a| + k) == Accepted(charset, a) + Yield(charset, b, k)
  {
    if k == 0 {
      YieldAgrees(charset, a + b, a, |a|);
    } else {
      YieldJoins(charset, a, b, k - 1);
      assert (a + b)[|a| + k - 1] == b[k - 1];
      Associative(Accepted(charset, a), Yield(charset, b, k - 1), Letter(charset, b[k - 1]));
    }
  }

  // The loop.

  method Remainder(j: nat, d: nat) returns (r: nat)
    requires d > 0
    ensures r == Wrap(j, d)
  {
    IsDivAndMod(j, d);
    r := j % d;
  }

  method ReadFull(buffer: array<Byte>, data: seq<Byte>)
    requires |data| == buffer.Length
    modifies buffer
    ensures buffer[..] == data
  {
    forall k | 0 <= k < |data| {
      buffer[k] := data[k];
    }
  }

  /** After j draws the buffer holds the latest fill, unless the next draw begins with a new one. */
  ghost predicate Filled(d: nat, source: seq<seq<Byte>>, j: nat, fills: nat, buffer: seq<Byte>)
    requires d > 0
  {
    if Wrap(j, d) == 0 then fills == Turns(j, d) <= |source|
    else fills == Turns(j, d) + 1 <= |source| && buffer == source[fills - 1]
  }

  lemma FilledNext(d: nat, source: seq<seq<Byte>>, j: nat, fills: nat, buffer: seq<Byte>)
    requires d > 0 && fills == Turns(j, d) + 1 <= |source| && buffer == source[fills - 1]
    ensures Filled(d, source, j + 1, fills, buffer)
  {
    NextPlace(j, d);
  }

  /** The draw that follows reads the latest fill at j modulo n. */
  lemma NextDraw(n: nat, d: nat, charset: string, source: seq<seq<Byte>>, j: nat, fills: nat, buffer: seq<Byte>, idx: nat)
    requires ValidSource(n, d, source) && fills == Turns(j, d) + 1 <= |source| && buffer == source[fills - 1]
    requires idx == LetterIndex(buffer[Wrap(j, n)])
    ensures j < |Draws(n, d, source)|
    ensures var before, after := Yield(charset, Draws(n, d, source), j), Yield(charset, Draws(n, d, source), j + 1);
      if idx < |charset| then after == before + [charset[idx]] else after == before
  {
    TurnsBelow(j, d, |source|);
    DrawIs(n, d, source, Total(d, |source|), j);
  }

  lemma FirstCharacters(charset: string, draws: seq<Byte>, j: nat, n: nat)
    requires j <= |draws| && |Yield(charset, draws, j)| == n
    ensures n <= |Accepted(charset, draws)| && Yield(charset, draws, j) == Accepted(charset, draws)[..n]
  {
    YieldGrows(charset, draws, j, |draws|);
  }

  /** The loop, for any buffer size. */
  method Sample(length: nat, bufferSize: nat, charset: string, source: seq<seq<Byte>>) returns (r: Result<string, GenerateError>)
    requires ValidSource(length, bufferSize, source)
    ensures var all := Accepted(charset, Draws(length, bufferSize, source));
      r == if |all| >= length then Ok(all[..length]) else Err(ReadFailed)
  {
    var randomBytes := new Byte[bufferSize];
    var result, fills := "", 0;
    var i, j := 0, 0;
    ghost var draws, buffer := Draws(length, bufferSize, source), randomBytes[..];
    while i < length
      invariant Filled(bufferSize, source, j, fills, buffer) && j <= |draws| && randomBytes[..] == buffer
      invariant result == Yield(charset, draws, j) && |result| == i <= length
      decreases |draws| - j
    {
      TurnsBelow(j, bufferSize, |source|);
      var served := Remainder(j, bufferSize);
      if served == 0 {
        if fills == |source| {
          return Err(ReadFailed);
        }
        ReadFull(randomBytes, source[fills]);
        fills, buffer := fills + 1, source[fills];
      }
      FilledNext(bufferSize, source, j, fills, buffer);
      var at := Remainder(j, length);
      var idx := LetterIndex(randomBytes[at]);
      NextDraw(length, bufferSize, charset, source, j, fills, buffer, idx);
      if idx < |charset| {
        result := result + [charset[idx]];
        i := i + 1;
      }
      j := j + 1;
    }
    FirstCharacters(charset, draws, j, length);
    return Ok(result);
  }

  /** The result is the first `length` accepted characters of the draws; the method fails only for a
      non-positive length or when the source ends before enough characters are accepted. */
  method GenerateRandomString(length: int, charset: string, source: seq<seq<Byte>>) returns (r: Result<string, GenerateError>)
    requires length > 0 ==> ValidSource(length, BufferSize(length), source)
    ensures length <= 0 ==> r == Err(BadLength)
    ensures length > 0 ==>
      var all := Accepted(charset, Draws(length, BufferSize(length), source));
      r == if |all| >= length then Ok(all[..length]) else Err(ReadFailed)
  {
    if length <= 0 {
      return Err(BadLength);
    }
    r := Sample(length, BufferSize(length), charset, source);
  }

  // Which draws share a byte.

  /** Draws j and k read one and the same byte of the source: they are equal whatever it yields. */
  ghost predicate SameByte(n: nat, d: nat, j: nat, k: nat)
    requires 0 < n <= d <= 2 * n
  {
    forall source :: ValidSource(n, d, source) && Turns(j, d) < |source| && Turns(k, d) < |source| ==>
      Draw(n, d, source, j) == Draw(n, d, source, k)
  }

  /** A buffer of zeros but for a one at `at`, if that is within it. */
  function Marked(size: nat, at: int): (r: seq<Byte>)
    ensures |r| == size && forall i :: 0 <= i < size ==> r[i] == if i == at then 1 else 0
  {
    if size == 0 then [] else Marked(size - 1, at) + [if size - 1 == at then 1 else 0]
  }

  /** A source of zeros but for a one at `at` of one fill. */
  function MarkedSource(size: nat, fills: nat, fill: nat, at: int): (r: seq<seq<Byte>>)
    ensures |r| == fills && forall f :: 0 <= f < fills ==> r[f] == Marked(size, if f == fill then at else -1)
  {
    if fills == 0 then []
    else MarkedSource(size, fills - 1, fill, at) + [Marked(size, if fills - 1 == fill then at else -1)]
  }

  lemma MarkSeparates(n: nat, d: nat, fills: nat, f: nat, g: nat, a: nat, b: nat)
    requires f < fills && g < fills && a < d && b < d && !(f == g && a == b)
    ensures var source := MarkedSource(d, fills, f, a);
      && |source[f]| == d == |source[g]|
      && source[f][a] != source[g][b]
  {
  }

  lemma MarkedIsValid(n: nat, d: nat, fills: nat, f: nat, a: nat)
    requires 0 < n <= d <= 2 * n
    ensures ValidSource(n, d, MarkedSource(d, fills, f, a))
  {
  }

  lemma DifferentBytes(n: nat, d: nat, j: nat, k: nat) returns (source: seq<seq<Byte>>)
    requires 0 < n <= d <= 2 * n && !(Turns(j, d) == Turns(k, d) && Wrap(j, n) == Wrap(k, n))
    ensures ValidSource(n, d, source) && Turns(j, d) < |source| && Turns(k, d) < |source|
    ensures Draw(n, d, source, j) != Draw(n, d, source, k)
  {
    var f, g := Turns(j, d), Turns(k, d);
    source := MarkedSource(d, f + g + 1, f, Wrap(j, n));
    MarkSeparates(n, d, f + g + 1, f, g, Wrap(j, n), Wrap(k, n));
    MarkedIsValid(n, d, f + g + 1, f, Wrap(j, n));
  }

  lemma SameByteIff(n: nat, d: nat, j: nat, k: nat)
    requires 0 < n <= d <= 2 * n
    ensures SameByte(n, d, j, k) <==> Turns(j, d) == Turns(k, d) && Wrap(j, n) == Wrap(k, n)
  {
    if !(Turns(j, d) == Turns(k, d) && Wrap(j, n) == Wrap(k, n)) {
      var source := DifferentBytes(n, d, j, k);
    }
  }

  /** Two draws share a byte of the source exactly when they fall in the same fill and are congruent
      modulo the length. */
  lemma SharedBytes(n: nat, d: nat, j: nat, k: nat)
    requires 0 < n <= d <= 2 * n
    ensures SameByte(n, d, j, k) <==> j / d == k / d && j % n == k % n
  {
    SameByteIff(n, d, j, k);
    IsDivAndMod(j, d);
    IsDivAndMod(k, d);
    IsDivAndMod(j, n);
    IsDivAndMod(k, n);
  }

  lemma {:induction false} CongruentIsNApart(n: nat, j: nat, k: nat)
    requires 0 < n && j < k < j + 2 * n
    ensures Wrap(j, n) == Wrap(k, n) <==> k == j + n
    decreases j
  {
    if j >= n {
      CongruentIsNApart(n, j - n, k - n);
    } else {
      assert k >= n ==> Wrap(k, n) == Wrap(k - n, n);
    }
  }

  lemma {:induction false} SameTurnIsNear(d: nat, j: nat, k: nat)
    requires j < k && d > 0 && Turns(j, d) == Turns(k, d)
    ensures k < j + d
    decreases j
  {
    if j >= d {
      SameTurnIsNear(d, j - d, k - d);
    }
  }

  /** Since a fill serves at most 2n draws, these are the draws n apart in one fill. */
  lemma SharedBytesAreNApart(n: nat, d: nat, j: nat, k: nat)
    requires 0 < n <= d <= 2 * n && j < k
    ensures SameByte(n, d, j, k) <==> k == j + n && j / d == k / d
  {
    SameByteIff(n, d, j, k);
    IsDivAndMod(j, d);
    IsDivAndMod(k, d);
    if Turns(j, d) == Turns(k, d) {
      SameTurnIsNear(d, j, k);
      CongruentIsNApart(n, j, k);
    }
  }

  /** The bytes of a fill from n on are never read. */
  lemma TailOfFillUnread(n: nat, d: nat, source: seq<seq<Byte>>, source': seq<seq<Byte>>)
    requires ValidSource(n, d, source) && ValidSource(n, d, source') && |source| == |source'|
    requires forall f :: 0 <= f < |source| ==> source[f][..n] == source'[f][..n]
    ensures Draws(n, d, source) == Draws(n, d, source')
  {
    var draws, draws' := Draws(n, d, source), Draws(n, d, source');
    forall j | 0 <= j < |draws|
      ensures draws[j] == draws'[j]
    {
      DrawIs(n, d, source, |draws|, j);
      DrawIs(n, d, source', |draws|, j);
      var f, at := Turns(j, d), Wrap(j, n);
      assert source[f][..n][at] == source'[f][..n][at];
    }
  }

  /** With a character for every index nothing is rejected. */
  lemma {:induction false} WideCharset(charset: string, bytes: seq<Byte>, k: nat)
    requires |charset| >= 64 && k <= |bytes|
    ensures |Yield(charset, bytes, k)| == k
    ensures forall j :: 0 <= j < k ==> Yield(charset, bytes, k)[j] == charset[LetterIndex(bytes[j])]
  {
    if k > 0 {
      WideCharset(charset, bytes, k - 1);
    }
  }

  /** Then the first n bytes of the first fill decide, and one fill is enough. */
  lemma WideCharsetNeedsOneFill(n: nat, d: nat, charset: string, source: seq<seq<Byte>>)
    requires ValidSource(n, d, source) && |charset| >= 64
    ensures var all := Accepted(charset, Draws(n, d, source));
      && (|all| >= n <==> source != [])
      && (source != [] ==> forall j :: 0 <= j < n ==> all[j] == charset[LetterIndex(source[0][j])])
  {
    var draws := Draws(n, d, source);
    WideCharset(charset, draws, |draws|);
    if source != [] {
      assert |draws| >= d;
      forall j | 0 <= j < n
        ensures draws[j] == source[0][j]
      {
        DrawIs(n, d, source, |draws|, j);
      }
    }
  }

  /** Every index is drawn by exactly four of the 256 byte values. */
  lemma FourBytesPerIndex(idx: nat, b: Byte)
    requires idx < 64
    ensures LetterIndex(b) == idx <==> b in {idx, idx + 64, idx + 128, idx + 192}
    ensures |{idx, idx + 64, idx + 128, idx + 192}| == 4
  {
  }

  // What a rejection does.

  lemma FirstFillDraw(n: nat, d: nat, source: seq<seq<Byte>>, j: nat)
    requires ValidSource(n, d, source) && source != [] && j < d
    ensures j < |Draws(n, d, source)| && Draws(n, d, source)[j] == source[0][if j < n then j else j - n]
  {
    assert Total(d, |source|) >= d;
    DrawIs(n, d, source, Total(d, |source|), j);
    assert j >= n ==> Wrap(j - n, n) == j - n;
  }

  /** The first fill serves its first n bytes and then, from the first on, as many of them again as it
      serves beyond n. */
  lemma FirstFillRepeats(n: nat, d: nat, source: seq<seq<Byte>>)
    requires ValidSource(n, d, source) && source != []
    ensures d <= |Draws(n, d, source)| && Draws(n, d, source)[..d] == source[0][..n] + source[0][..d - n]
  {
    assert Total(d, |source|) >= d;
    forall j | 0 <= j < d
      ensures Draws(n, d, source)[j] == source[0][if j < n then j else j - n]
    {
      FirstFillDraw(n, d, source, j);
    }
  }

  lemma AcceptedJoins(charset: string, a: seq<Byte>, b: seq<Byte>)
    ensures Accepted(charset, a + b) == Accepted(charset, a) + Accepted(charset, b)
  {
    YieldJoins(charset, a, b, |b|);
  }

  lemma YieldOfPrefix(charset: string, draws: seq<Byte>, d: nat)
    requires d <= |draws|
    ensures Yield(charset, draws, d) == Accepted(charset, draws[..d]) <= Accepted(charset, draws)
  {
    YieldAgrees(charset, draws, draws[..d], d);
    YieldGrows(charset, draws, d, |draws|);
  }

  lemma YieldOfParts(charset: string, draws: seq<Byte>, a: seq<Byte>, b: seq<Byte>)
    requires |a| + |b| <= |draws| && draws[..|a| + |b|] == a + b
    ensures Accepted(charset, a) + Accepted(charset, b) <= Accepted(charset, draws)
  {
    YieldOfPrefix(charset, draws, |a| + |b|);
    AcceptedJoins(charset, a, b);
  }

  lemma AgainIsPrefix(charset: string, buffer: seq<Byte>, m: nat, n: nat)
    requires m <= n <= |buffer|
    ensures Accepted(charset, buffer[..m]) <= Accepted(charset, buffer[..n])
  {
    YieldAgrees(charset, buffer[..m], buffer[..n], m);
    YieldGrows(charset, buffer[..n], m, n);
  }

  lemma TakeOfPrefix(all: string, once: string, again: string, n: nat)
    requires once + again <= all && again <= once && |once| <= n <= |once| + |again|
    ensures n <= |all| && n - |once| <= |once| && all[..n] == once + once[..n - |once|]
  {
    assert all[..n] == (once + again)[..n];
  }

  /** If the first fill yields enough characters, as many as are rejected among its first n bytes come a
      second time: the end of the string repeats its beginning. */
  lemma TailRepeatsHead(charset: string, n: nat, d: nat, source: seq<seq<Byte>>)
    requires ValidSource(n, d, source) && source != []
    requires |Accepted(charset, source[0][..n])| + |Accepted(charset, source[0][..d - n])| >= n
    ensures var all, once := Accepted(charset, Draws(n, d, source)), Accepted(charset, source[0][..n]);
      && |all| >= n && n - |once| <= |once| <= n
      && all[..n] == once + once[..n - |once|]
  {
    FirstFillRepeats(n, d, source);
    YieldOfParts(charset, Draws(n, d, source), source[0][..n], source[0][..d - n]);
    AgainIsPrefix(charset, source[0], d - n, n);
    TakeOfPrefix(Accepted(charset, Draws(n, d, source)), Accepted(charset, source[0][..n]), Accepted(charset, source[0][..d - n]), n);
  }

  /** Bytes yield fewer characters than they are exactly if one of them is rejected. */
  lemma {:induction false} RejectsIff(charset: string, bytes: seq<Byte>, k: nat)
    requires k <= |bytes|
    ensures |Yield(charset, bytes, k)| < k <==> exists j :: 0 <= j < k && LetterIndex(bytes[j]) >= |charset|
  {
    if k > 0 {
      RejectsIff(charset, bytes, k - 1);
    }
  }

  // The same for every fill.

  lemma {:induction false} TurnsOfTotal(d: nat, f: nat, u: nat)
    requires u < d
    ensures Turns(Total(d, f) + u, d) == f && Wrap(Total(d, f) + u, d) == u
    decreases f
  {
    if f > 0 {
      TurnsOfTotal(d, f - 1, u);
      assert Total(d, f) + u - d == Total(d, f - 1) + u;
    }
  }

  /** A draw at one of the first d - n places of its fill comes again n draws later. */
  lemma ComesAgain(n: nat, d: nat, source: seq<seq<Byte>>, f: nat, o: nat)
    requires ValidSource(n, d, source) && f < |source| && o < d - n
    ensures Total(d, f) + n + o < |Draws(n, d, source)|
    ensures Draws(n, d, source)[Total(d, f) + o] == Draws(n, d, source)[Total(d, f) + n + o]
  {
    var j, k := Total(d, f) + o, Total(d, f) + n + o;
    TurnsOfTotal(d, f, o);
    TurnsOfTotal(d, f, n + o);
    TurnsBelow(j, d, |source|);
    TurnsBelow(k, d, |source|);
    assert Wrap(k, n) == Wrap(k - n, n);
    DrawIs(n, d, source, Total(d, |source|), j);
    DrawIs(n, d, source, Total(d, |source|), k);
  }

  lemma {:induction false} TotalGrows(d: nat, f: nat, m: nat)
    requires f <= m
    ensures Total(d, f) <= Total(d, m)
  {
    if f < m {
      TotalGrows(d, f, m - 1);
    }
  }

  /** The d draws from `first` on are n of them, and the first d - n of these again. */
  ghost predicate Repeats(draws: seq<Byte>, first: nat, n: nat, d: nat) {
    && n <= d <= 2 * n && first + d <= |draws|
    && draws[first + n..first + d] == draws[first..first + (d - n)]
  }

  lemma EveryFillRepeats(n: nat, d: nat, source: seq<seq<Byte>>, f: nat)
    requires ValidSource(n, d, source) && f < |source|
    ensures Repeats(Draws(n, d, source), Total(d, f), n, d)
  {
    TotalGrows(d, f + 1, |source|);
    var first, draws := Total(d, f), Draws(n, d, source);
    var late, early := draws[first + n..first + d], draws[first..first + (d - n)];
    forall o | 0 <= o < d - n
      ensures late[o] == early[o]
    {
      ComesAgain(n, d, source, f, o);
    }
  }

  lemma AcceptedOfRange(charset: string, bytes: seq<Byte>, i: nat, k: nat)
    requires i <= k <= |bytes|
    ensures Accepted(charset, bytes[..k]) == Accepted(charset, bytes[..i]) + Accepted(charset, bytes[i..k])
  {
    assert bytes[..k] == bytes[..i] + bytes[i..k];
    AcceptedJoins(charset, bytes[..i], bytes[i..k]);
  }

  lemma RangeIsPrefix(charset: string, bytes: seq<Byte>, i: nat, m: nat, k: nat)
    requires i <= m <= k <= |bytes|
    ensures Accepted(charset, bytes[i..m]) <= Accepted(charset, bytes[i..k])
  {
    assert bytes[i..k][..m - i] == bytes[i..m];
    YieldOfPrefix(charset, bytes[i..k], m - i);
  }

  /** The draws from `first` to `end` add to the string what those up to `middle` yield, and then what those
      up to `early` yield again, which is a beginning of it. */
  ghost predicate AddsTwice(charset: string, draws: seq<Byte>, first: nat, early: nat, middle: nat, end: nat) {
    && first <= early <= middle <= end <= |draws|
    && Accepted(charset, draws[..end])
         == Accepted(charset, draws[..first]) + Accepted(charset, draws[first..middle]) + Accepted(charset, draws[first..early])
    && Accepted(charset, draws[first..early]) <= Accepted(charset, draws[first..middle])
  }

  lemma PartsOfFill(charset: string, draws: seq<Byte>, first: nat, middle: nat, end: nat)
    requires first <= middle <= end <= |draws|
    ensures Accepted(charset, draws[..end])
         == Accepted(charset, draws[..first]) + Accepted(charset, draws[first..middle]) + Accepted(charset, draws[middle..end])
  {
    AcceptedOfRange(charset, draws, first, middle);
    AcceptedOfRange(charset, draws, middle, end);
  }

  lemma RepeatedPartsAddTwice(charset: string, draws: seq<Byte>, first: nat, early: nat, middle: nat, end: nat)
    requires first <= early <= middle <= end <= |draws| && draws[middle..end] == draws[first..early]
    ensures AddsTwice(charset, draws, first, early, middle, end)
  {
    PartsOfFill(charset, draws, first, middle, end);
    RangeIsPrefix(charset, draws, first, early, middle);
  }

  lemma RepetitionAddsTwice(charset: string, draws: seq<Byte>, first: nat, n: nat, d: nat)
    requires Repeats(draws, first, n, d)
    ensures AddsTwice(charset, draws, first, first + (d - n), first + n, first + d)
  {
    RepeatedPartsAddTwice(charset, draws, first, first + (d - n), first + n, first + d);
  }

  /** So it is with the n draws of every fill and the d - n that follow them, whatever is rejected. */
  lemma FillYields(charset: string, n: nat, d: nat, source: seq<seq<Byte>>, f: nat) returns (draws: seq<Byte>, first: nat)
    requires ValidSource(n, d, source) && f < |source|
    ensures draws == Draws(n, d, source) && first == Total(d, f)
    ensures AddsTwice(charset, draws, first, first + (d - n), first + n, first + d)
  {
    draws, first := Draws(n, d, source), Total(d, f);
    assert Repeats(draws, first, n, d) by {
      EveryFillRepeats(n, d, source, f);
    }
    RepetitionAddsTwice(charset, draws, first, n, d);
  }

  // Which characters come from the same byte.

  /** The numbers of the accepted ones among the first k bytes. */
  function Positions(charset: string, bytes: seq<Byte>, k: nat): seq<nat>
    requires k <= |bytes|
  {
    if k == 0 then []
    else Positions(charset, bytes, k - 1) + if LetterIndex(bytes[k - 1]) < |charset| then [k - 1] else []
  }

  lemma {:induction false} PositionsAreAccepted(charset: string, bytes: seq<Byte>, k: nat)
    requires k <= |bytes|
    ensures forall j :: j in Positions(charset, bytes, k) <==> 0 <= j < k && LetterIndex(bytes[j]) < |charset|
  {
    if k > 0 {
      PositionsAreAccepted(charset, bytes, k - 1);
    }
  }

  lemma {:induction false} PositionsGrow(charset: string, bytes: seq<Byte>, k: nat, a: nat, b: nat)
    requires k <= |bytes| && a < b < |Positions(charset, bytes, k)|
    ensures Positions(charset, bytes, k)[a] < Positions(charset, bytes, k)[b] < k
    decreases k
  {
    PositionsBelow(charset, bytes, k - 1, a);
    if b < |Positions(charset, bytes, k - 1)| {
      PositionsGrow(charset, bytes, k - 1, a, b);
    }
  }

  lemma {:induction false} PositionsBelow(charset: string, bytes: seq<Byte>, k: nat, a: nat)
    requires k <= |bytes|
    ensures a < |Positions(charset, bytes, k)| ==> Positions(charset, bytes, k)[a] < k
  {
    if k > 0 {
      PositionsBelow(charset, bytes, k - 1, a);
    }
  }

  lemma {:induction false} AsManyPositions(charset: string, bytes: seq<Byte>, k: nat)
    requires k <= |bytes|
    ensures |Positions(charset, bytes, k)| == |Yield(charset, bytes, k)|
  {
    if k > 0 {
      AsManyPositions(charset, bytes, k - 1);
    }
  }

  /** Character i is the one that the draw at position i has given. */
  lemma {:induction false} CharacterAt(charset: string, bytes: seq<Byte>, k: nat, i: nat)
    requires k <= |bytes| && i < |Positions(charset, bytes, k)| == |Yield(charset, bytes, k)|
    ensures var j := Positions(charset, bytes, k)[i];
      j < k && LetterIndex(bytes[j]) < |charset| && Yield(charset, bytes, k)[i] == charset[LetterIndex(bytes[j])]
    decreases k
  {
    AsManyPositions(charset, bytes, k - 1);
    if i < |Positions(charset, bytes, k - 1)| {
      CharacterAt(charset, bytes, k - 1, i);
    }
  }

  /** Character i comes from the draw at position j: the byte of fill j / d at j % n, by its six low bits. */
  ghost predicate ComesFrom(charset: string, n: nat, d: nat, source: seq<seq<Byte>>, c: char, j: nat)
    requires ValidSource(n, d, source)
  {
    j / d < |source| && var idx := source[j / d][j % n] % 64; idx < |charset| && c == charset[idx]
  }

  lemma PositionIs(charset: string, n: nat, d: nat, source: seq<seq<Byte>>, i: nat)
    requires ValidSource(n, d, source) && i < |Accepted(charset, Draws(n, d, source))|
    ensures var draws := Draws(n, d, source); var at := Positions(charset, draws, |draws|);
      && i < |at| && at[i] < |source| * d
      && ComesFrom(charset, n, d, source, Accepted(charset, draws)[i], at[i])
  {
    var draws := Draws(n, d, source);
    AsManyPositions(charset, draws, |draws|);
    CharacterAt(charset, draws, |draws|, i);
    DrawsAre(n, d, source, Positions(charset, draws, |draws|)[i]);
  }

  lemma AcceptedPosition(charset: string, n: nat, d: nat, source: seq<seq<Byte>>, c: char, j: nat)
    requires ValidSource(n, d, source) && j < |source| * d && ComesFrom(charset, n, d, source, c, j)
    ensures j in Positions(charset, Draws(n, d, source), |Draws(n, d, source)|)
  {
    DrawsAre(n, d, source, j);
    PositionsAreAccepted(charset, Draws(n, d, source), |Draws(n, d, source)|);
  }

  /** The characters come, in order, from all those of the |source| * d draws whose byte yields one. */
  lemma CharactersAre(charset: string, n: nat, d: nat, source: seq<seq<Byte>>) returns (at: seq<nat>)
    requires ValidSource(n, d, source)
    ensures |at| == |Accepted(charset, Draws(n, d, source))|
    ensures forall i, k :: 0 <= i < k < |at| ==> at[i] < at[k]
    ensures forall i :: 0 <= i < |at| ==>
      at[i] < |source| * d && ComesFrom(charset, n, d, source, Accepted(charset, Draws(n, d, source))[i], at[i])
    ensures forall c, j: nat :: j < |source| * d && ComesFrom(charset, n, d, source, c, j) ==> j in at
  {
    var draws := Draws(n, d, source);
    at := Positions(charset, draws, |draws|);
    AsManyPositions(charset, draws, |draws|);
    forall i | 0 <= i < |at|
      ensures at[i] < |source| * d && ComesFrom(charset, n, d, source, Accepted(charset, draws)[i], at[i])
    {
      PositionIs(charset, n, d, source, i);
    }
    forall i, k | 0 <= i < k < |at|
      ensures at[i] < at[k]
    {
      PositionsGrow(charset, draws, |draws|, i, k);
    }
    forall c, j: nat | j < |source| * d && ComesFrom(charset, n, d, source, c, j)
      ensures j in at
    {
      AcceptedPosition(charset, n, d, source, c, j);
    }
  }

  /** Two characters of any string come from the same byte exactly if their draws are n apart in one fill;
      then they are the same. */
  lemma CharactersShareByteIff(charset: string, n: nat, d: nat, source: seq<seq<Byte>>, i: nat, k: nat)
    requires ValidSource(n, d, source)
    requires i < k < |Accepted(charset, Draws(n, d, source))|
    ensures var draws := Draws(n, d, source); var at := Positions(charset, draws, |draws|);
      && k < |at|
      && (SameByte(n, d, at[i], at[k]) <==> at[k] == at[i] + n && at[i] / d == at[k] / d)
      && (SameByte(n, d, at[i], at[k]) ==> Accepted(charset, draws)[i] == Accepted(charset, draws)[k])
  {
    var draws := Draws(n, d, source);
    var at := Positions(charset, draws, |draws|);
    AsManyPositions(charset, draws, |draws|);
    CharacterAt(charset, draws, |draws|, i);
    CharacterAt(charset, draws, |draws|, k);
    PositionsGrow(charset, draws, |draws|, i, k);
    SharedBytesAreNApart(n, d, at[i], at[k]);
    SharedMeansEqual(n, d, source, at[i], at[k]);
  }

  lemma SharedMeansEqual(n: nat, d: nat, source: seq<seq<Byte>>, j: nat, k: nat)
    requires ValidSource(n, d, source) && j < |Draws(n, d, source)| && k < |Draws(n, d, source)|
    ensures SameByte(n, d, j, k) ==> Draws(n, d, source)[j] == Draws(n, d, source)[k]
  {
    DrawIs(n, d, source, |Draws(n, d, source)|, j);
    DrawIs(n, d, source, |Draws(n, d, source)|, k);
  }

  lemma YieldsOfRejection(charset: string, bytes: seq<Byte>)
    requires |charset| == 3 && bytes == [0, 1, 2, 63]
    ensures Yield(charset, bytes, 1) == [charset[0]] && Yield(charset, bytes, 4) == charset
  {
    assert Yield(charset, bytes, 1) == [charset[0]];
    assert Yield(charset, bytes, 2) == [charset[0], charset[1]];
    assert Yield(charset, bytes, 3) == charset;
  }

  lemma OneComesAgain(charset: string, source: seq<seq<Byte>>)
    requires ValidSource(4, 5, source) && source != [] && |charset| == 3
    requires Accepted(charset, source[0][..4]) == charset && |Accepted(charset, source[0][..1])| == 1
    ensures var all := Accepted(charset, Draws(4, 5, source)); |all| >= 4 && all[..4] == charset + charset[..1]
  {
    TailRepeatsHead(charset, 4, 5, source);
  }

  /** One rejection in a string of four, from three characters: the last character is the first one. */
  lemma RepeatedCharacter(charset: string, source: seq<seq<Byte>>)
    requires |charset| == 3 && source == [[0, 1, 2, 63, 9]]
    ensures BufferSize(4) == 5 && ValidSource(4, 5, source)
    ensures var all := Accepted(charset, Draws(4, 5, source)); |all| >= 4 && all[..4] == charset + charset[..1]
  {
    var first := source[0][..4];
    assert first == [0, 1, 2, 63];
    YieldsOfRejection(charset, first);
    YieldAgrees(charset, source[0][..1], first, 1);
    OneComesAgain(charset, source);
  }
}
