/** The parts of the .NET base library that the start-node layer relies on:
    the exceptions it can raise, `int.Parse` and `int.ToString`, `string.Split`
    and `string.Join`, `ToLower`, substring tests, LINQ `Intersect`,
    `FirstOrDefault` and `Where`, and `List<int>.RemoveRange`. Each is stated
    as a function over values. */
module Runtime {

  datatype Option<+T> = None | Some(value: T)

  /** The exceptions the modelled code can raise. */
  datatype Exception =
    | FormatException      // int.Parse of a token that is not an integer
    | OverflowException    // int.Parse of an integer outside 32 bits
    | ArgumentOutOfRange   // List.RemoveRange with a negative index or count
    | ArgumentException    // List.RemoveRange past the end; Dictionary.Add of a present key
    | ArgumentNull         // a LINQ operator applied to null
    | NullReference        // a member access on null (a failed `as` cast, a missing group)
    | InvalidCast          // an explicit cast to the wrong content type

  /** A value, or the exception that was thrown instead of producing it. */
  datatype Result<+T> = Ok(value: T) | Err(error: Exception)

  const Int32Min: int := -0x8000_0000
  const Int32Max: int := 0x7FFF_FFFF

  predicate IsInt32(n: int) { Int32Min <= n <= Int32Max }

  // ---------------------------------------------------------------- characters

  predicate IsDigit(c: char) { '0' <= c <= '9' }

  /** The white space `NumberStyles.Integer` allows around a number: U+0009 to U+000D and U+0020. */
  predicate IsNumberWhite(c: char) { c == ' ' || '\t' <= c <= '\r' }

  function DigitChar(d: nat): (c: char)
    requires d < 10
    ensures IsDigit(c) && c as int - '0' as int == d
  {
    ('0' as int + d) as char
  }

  /** `char.ToLower` restricted to ASCII: A-Z become a-z, every other character is kept. */
  function LowerChar(c: char): (r: char)
    ensures 'A' <= c <= 'Z' ==> r as int == c as int + 32
    ensures !('A' <= c <= 'Z') ==> r == c
  {
    if 'A' <= c <= 'Z' then (c as int + 32) as char else c
  }

  /** `string.ToLower()`, character by character. */
  function Lower(s: string): (r: string)
    ensures |r| == |s|
    ensures forall i :: 0 <= i < |s| ==> r[i] == LowerChar(s[i])
  {
    seq(|s|, i requires 0 <= i < |s| => LowerChar(s[i]))
  }

  lemma LowerIdempotent(s: string)
    ensures Lower(Lower(s)) == Lower(s)
  {
    assert forall i :: 0 <= i < |s| ==> Lower(Lower(s))[i] == Lower(s)[i];
  }

  // ---------------------------------------------------------------- substrings

  /** `s.StartsWith(t)` with ordinal comparison. */
  predicate StartsWith(s: string, t: string) { |t| <= |s| && s[..|t|] == t }

  /** `s.EndsWith(t)`, compared ordinally (the culture-sensitive comparison of the
      parameterless overload is not modelled). */
  predicate EndsWith(s: string, t: string) { |t| <= |s| && s[|s| - |t|..] == t }

  /** `s.Contains(t)`: an ordinal, case-sensitive substring test. */
  predicate Contains(s: string, t: string)
    decreases |s|
  {
    StartsWith(s, t) || (|s| > 0 && Contains(s[1..], t))
  }

  lemma {:induction false} ContainsAt(s: string, t: string, i: nat)
    requires i + |t| <= |s| && s[i..i + |t|] == t
    ensures Contains(s, t)
    decreases i
  {
    if i == 0 {
      assert s[..|t|] == s[i..i + |t|];
    } else {
      assert s[1..][i - 1..i - 1 + |t|] == s[i..i + |t|];
      ContainsAt(s[1..], t, i - 1);
    }
  }

  // ---------------------------------------------------------------- int.Parse

  function DigitsValue(ds: string): nat
    requires forall i :: 0 <= i < |ds| ==> IsDigit(ds[i])
  {
    if |ds| == 0 then 0
    else
      assert IsDigit(ds[|ds| - 1]);
      10 * DigitsValue(ds[..|ds| - 1]) + (ds[|ds| - 1] as int - '0' as int)
  }

  function TrimStart(s: string): (r: string)
    ensures |r| <= |s|
  {
    if |s| > 0 && IsNumberWhite(s[0]) then TrimStart(s[1..]) else s
  }

  function TrimEnd(s: string): (r: string)
    ensures |r| <= |s|
  {
    if |s| > 0 && IsNumberWhite(s[|s| - 1]) then TrimEnd(s[..|s| - 1]) else s
  }

  /** `int.Parse(s)` with `NumberStyles.Integer` in a culture whose signs are '-' and '+':
      optional white space, an optional sign, one or more decimal digits, optional
      white space. Any other token is a FormatException; a value outside 32 bits an
      OverflowException. */
  function ParseInt(s: string): (r: Result<int>)
    ensures r.Ok? ==> IsInt32(r.value)
  {
    var t := TrimEnd(TrimStart(s));
    var signed := |t| > 0 && (t[0] == '-' || t[0] == '+');
    var ds := if signed then t[1..] else t;
    if |ds| == 0 || exists i :: 0 <= i < |ds| && !IsDigit(ds[i]) then Err(FormatException)
    else
      var n: int := if signed && t[0] == '-' then 0 - DigitsValue(ds) as int else DigitsValue(ds) as int;
      if IsInt32(n) then Ok(n) else Err(OverflowException)
  }

  // ---------------------------------------------------------------- int.ToString

  /** The decimal digits of n, without leading zeros. */
  function NatToString(n: nat): (r: string)
    ensures |r| > 0
    ensures forall i :: 0 <= i < |r| ==> IsDigit(r[i])
    ensures DigitsValue(r) == n
  {
    if n < 10 then [DigitChar(n)]
    else
      var r := NatToString(n / 10) + [DigitChar(n % 10)];
      assert r[..|r| - 1] == NatToString(n / 10);
      r
  }

  /** `int.ToString()` in a culture whose negative sign is '-'. */
  function IntToString(n: int): (r: string)
    ensures |r| > 0
    ensures forall i :: 0 <= i < |r| ==> IsDigit(r[i]) || r[i] == '-'
  {
    if n < 0 then "-" + NatToString(-n) else NatToString(n)
  }

  lemma ParseIntToString(n: int)
    requires IsInt32(n)
    ensures ParseInt(IntToString(n)) == Ok(n)
  {
    var s := IntToString(n);
    assert TrimStart(s) == s;
    assert TrimEnd(s) == s;
    if n < 0 {
      assert s[1..] == NatToString(-n);
    }
  }

  // ---------------------------------------------------------------- Split and Join

  /** `s.Split(sep)`: the maximal separator-free pieces, empty pieces included. */
  function Split(s: string, sep: char): (r: seq<string>)
    ensures |r| >= 1
    ensures forall i :: 0 <= i < |r| ==> sep !in r[i]
  {
    if |s| == 0 then [""]
    else
      var rest := Split(s[1..], sep);
      if s[0] == sep then [""] + rest else [[s[0]] + rest[0]] + rest[1..]
  }

  /** `string.Join(sep, parts)`. */
  function Join(sep: char, parts: seq<string>): string
  {
    if |parts| == 0 then ""
    else if |parts| == 1 then parts[0]
    else parts[0] + [sep] + Join(sep, parts[1..])
  }

  lemma {:induction false} SplitPrefix(t: string, s: string, sep: char)
    requires sep !in t
    ensures Split(t + s, sep) == [t + Split(s, sep)[0]] + Split(s, sep)[1..]
  {
    if t != [] {
      assert (t + s)[1..] == t[1..] + s;
      SplitPrefix(t[1..], s, sep);
      assert [t[0]] + (t[1..] + Split(s, sep)[0]) == t + Split(s, sep)[0];
    } else {
      assert t + s == s;
      assert t + Split(s, sep)[0] == Split(s, sep)[0];
    }
  }

  lemma {:induction false} SplitJoin(sep: char, parts: seq<string>)
    requires |parts| >= 1
    requires forall i :: 0 <= i < |parts| ==> sep !in parts[i]
    ensures Split(Join(sep, parts), sep) == parts
  {
    if |parts| == 1 {
      SplitPrefix(parts[0], "", sep);
      assert parts[0] + "" == parts[0];
    } else {
      var rest := Join(sep, parts[1..]);
      SplitJoin(sep, parts[1..]);
      assert ([sep] + rest)[1..] == rest;
      assert Split([sep] + rest, sep) == [""] + parts[1..];
      assert parts[0] + [sep] + rest == parts[0] + ([sep] + rest);
      SplitPrefix(parts[0], [sep] + rest, sep);
      assert parts[0] + "" == parts[0];
    }
  }

  // ---------------------------------------------------------------- LINQ

  /** `Enumerable.Where(s, p)` on a materialised sequence. */
  function Where<T(!new)>(s: seq<T>, p: T -> bool): (r: seq<T>)
    ensures |r| <= |s|
    ensures forall x :: x in r <==> x in s && p(x)
  {
    if s == [] then [] else (if p(s[0]) then [s[0]] else []) + Where(s[1..], p)
  }

  /** Where keeps the order of what it keeps: filtering a concatenation filters each part. */
  lemma {:induction false} WhereAppend<T(!new)>(s: seq<T>, t: seq<T>, p: T -> bool)
    ensures Where(s + t, p) == Where(s, p) + Where(t, p)
  {
    if s == [] {
      assert s + t == t;
    } else {
      assert (s + t)[1..] == s[1..] + t;
      WhereAppend(s[1..], t, p);
    }
  }

  /** `a.Intersect(b)` restricted to the elements not in `seen`. */
  function IntersectExcept(a: seq<int>, b: seq<int>, seen: set<int>): (r: seq<int>)
    ensures forall x :: x in r <==> x in a && x in b && x !in seen
  {
    if a == [] then []
    else if a[0] in b && a[0] !in seen then [a[0]] + IntersectExcept(a[1..], b, seen + {a[0]})
    else IntersectExcept(a[1..], b, seen)
  }

  /** `a.Intersect(b)`: the distinct elements of a that occur in b, in the order of
      their first occurrence in a. */
  function Intersect(a: seq<int>, b: seq<int>): (r: seq<int>)
    ensures forall x :: x in r <==> x in a && x in b
  {
    IntersectExcept(a, b, {})
  }

  /** `FirstOrDefault()` on a sequence of int: the first element, or 0 when it is empty. */
  function FirstOrDefault(s: seq<int>): int
  {
    if s == [] then 0 else s[0]
  }

  // ---------------------------------------------------------------- List<int>

  /** `List<int>.RemoveRange(index, count)` as a function of the list's contents. */
  function RemoveRange(s: seq<int>, index: int, count: int): (r: Result<seq<int>>)
    ensures r.Ok? <==> 0 <= index && 0 <= count && index + count <= |s|
  {
    if index < 0 || count < 0 then Err(ArgumentOutOfRange)
    else if |s| - index < count then Err(ArgumentException)
    else Ok(s[..index] + s[index + count..])
  }
}
