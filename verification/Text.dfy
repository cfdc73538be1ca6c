/**
 Decimal numbers, splitting, joining and trimming: the parts of Go's strconv and strings that the
 route statistics codec is built from.
 */
module Text {

  // ---------------------------------------------------------------------------
  // Decimal numbers
  // ---------------------------------------------------------------------------

  const INT64_MAX: int := 0x7FFF_FFFF_FFFF_FFFF
  const INT64_MIN: int := -0x8000_0000_0000_0000

  predicate IsInt64(i: int) {
    INT64_MIN <= i <= INT64_MAX
  }

  predicate IsDigit(c: char) {
    '0' <= c <= '9'
  }

  function Digit(n: nat): (c: char)
    requires n < 10
    ensures IsDigit(c) && DigitValue(c) == n
  {
    "0123456789"[n]
  }

  function DigitValue(c: char): (n: nat)
    requires IsDigit(c)
  {
    c as int - '0' as int
  }

  predicate AllDigits(s: string) {
    s == "" || (IsDigit(s[|s| - 1]) && AllDigits(s[..|s| - 1]))
  }

  function Digits(n: nat): (s: string)
    ensures s != "" && AllDigits(s)
  {
    if n < 10 then [Digit(n)]
    else
      var s := Digits(n / 10) + [Digit(n % 10)];
      assert s[..|s| - 1] == Digits(n / 10);
      s
  }

  function Decimal(i: int): (s: string)
    ensures s != ""
  {
    if i < 0 then "-" + Digits(-i) else Digits(i)
  }

  function ParseDigits(s: string): nat
    requires AllDigits(s)
  {
    if s == "" then 0 else ParseDigits(s[..|s| - 1]) * 10 + DigitValue(s[|s| - 1])
  }

  function Clamp(i: int): int {
    if i > INT64_MAX then INT64_MAX else if i < INT64_MIN then INT64_MIN else i
  }

  /** The 64-bit value nearest to a number. */
  lemma ClampNearest(i: int, other: int)
    ensures IsInt64(i) <==> -0x8000_0000_0000_0000 <= i < 0x8000_0000_0000_0000
    ensures IsInt64(Clamp(i))
    ensures IsInt64(other) ==> Distance(Clamp(i), i) <= Distance(other, i)
  {
  }

  function Distance(i: int, j: int): nat {
    if i <= j then j - i else i - j
  }

  /** `strconv.ParseInt(s, 10, 64)` with its error ignored: 0 for what is not a number, the nearest
      64-bit value for a number out of range. */
  function ParseInt(s: string): int {
    var body := if s != "" && (s[0] == '-' || s[0] == '+') then s[1..] else s;
    if body == "" || !AllDigits(body) then 0
    else
      var n: int := ParseDigits(body);
      Clamp(if s[0] == '-' then -n else n)
  }

  lemma {:induction false} DigitsRoundTrip(n: nat)
    ensures ParseDigits(Digits(n)) == n
  {
    if n >= 10 {
      DigitsRoundTrip(n / 10);
      var s := Digits(n);
      assert s[..|s| - 1] == Digits(n / 10);
    }
  }

  lemma {:induction false} FirstIsDigit(s: string)
    requires AllDigits(s) && s != ""
    ensures IsDigit(s[0])
  {
    if |s| > 1 {
      FirstIsDigit(s[..|s| - 1]);
    }
  }

  lemma DecimalRoundTrip(i: int)
    requires IsInt64(i)
    ensures ParseInt(Decimal(i)) == i
  {
    var n: nat := if i < 0 then -i else i;
    DigitsRoundTrip(n);
    FirstIsDigit(Digits(n));
    if i < 0 {
      assert Decimal(i)[1..] == Digits(n);
    }
  }

  // ---------------------------------------------------------------------------
  // Separators
  // ---------------------------------------------------------------------------

  predicate Free(s: string, sep: char) {
    s == "" || (s[0] != sep && Free(s[1..], sep))
  }

  predicate AllFree(parts: seq<string>, sep: char) {
    parts == [] || (Free(parts[0], sep) && AllFree(parts[1..], sep))
  }

  function Split(s: string, sep: char): (parts: seq<string>)
    ensures parts != []
  {
    if s == "" then [""]
    else if s[0] == sep then [""] + Split(s[1..], sep)
    else var rest := Split(s[1..], sep); [[s[0]] + rest[0]] + rest[1..]
  }

  function Join(parts: seq<string>, sep: char): string {
    if parts == [] then "" else if |parts| == 1 then parts[0] else parts[0] + [sep] + Join(parts[1..], sep)
  }

  lemma {:induction false} SplitFree(s: string, sep: char)
    requires Free(s, sep)
    ensures Split(s, sep) == [s]
  {
    if s != "" {
      SplitFree(s[1..], sep);
      assert s == [s[0]] + s[1..];
    }
  }

  lemma {:induction false} SplitFirst(first: string, sep: char, rest: string)
    requires Free(first, sep)
    ensures Split(first + [sep] + rest, sep) == [first] + Split(rest, sep)
  {
    var s := first + [sep] + rest;
    if first == "" {
      assert s[1..] == rest;
    } else {
      SplitFirst(first[1..], sep, rest);
      assert s[1..] == first[1..] + [sep] + rest;
      assert first == [first[0]] + first[1..];
    }
  }

  lemma {:induction false} SplitJoin(parts: seq<string>, sep: char)
    requires parts != [] && AllFree(parts, sep)
    ensures Split(Join(parts, sep), sep) == parts
  {
    if |parts| == 1 {
      SplitFree(parts[0], sep);
    } else {
      SplitJoin(parts[1..], sep);
      SplitFirst(parts[0], sep, Join(parts[1..], sep));
    }
  }

  lemma {:induction false} JoinSnoc(parts: seq<string>, last: string, sep: char)
    requires parts != []
    ensures Join(parts + [last], sep) == Join(parts, sep) + [sep] + last
  {
    var all := parts + [last];
    if |parts| == 1 {
      assert all[1..] == [last];
    } else {
      JoinSnoc(parts[1..], last, sep);
      assert all[1..] == parts[1..] + [last];
      assert parts[0] + [sep] + (Join(parts[1..], sep) + [sep] + last)
          == (parts[0] + [sep] + Join(parts[1..], sep)) + [sep] + last;
    }
  }

  lemma {:induction false} FreeAppend(a: string, b: string, sep: char)
    ensures Free(a + b, sep) <==> Free(a, sep) && Free(b, sep)
  {
    if a == "" {
      assert a + b == b;
    } else {
      FreeAppend(a[1..], b, sep);
      assert (a + b)[1..] == a[1..] + b;
    }
  }

  lemma {:induction false} FreeJoin(parts: seq<string>, joint: char, sep: char)
    requires AllFree(parts, sep) && joint != sep
    ensures Free(Join(parts, joint), sep)
  {
    if |parts| > 1 {
      FreeJoin(parts[1..], joint, sep);
      FreeAppend(parts[0] + [joint], Join(parts[1..], joint), sep);
      FreeAppend(parts[0], [joint], sep);
    }
  }

  lemma {:induction false} FreeAt(s: string, sep: char, i: nat)
    requires Free(s, sep) && i < |s|
    ensures s[i] != sep
  {
    if i > 0 {
      FreeAt(s[1..], sep, i - 1);
    }
  }

  lemma {:induction false} DigitsFree(s: string, sep: char)
    requires AllDigits(s) && !IsDigit(sep)
    ensures Free(s, sep)
  {
    if s != "" {
      var before := s[..|s| - 1];
      DigitsFree(before, sep);
      assert s == before + [s[|s| - 1]];
      FreeAppend(before, [s[|s| - 1]], sep);
    }
  }

  lemma DecimalFree(i: int, sep: char)
    requires !IsDigit(sep) && sep != '-'
    ensures Free(Decimal(i), sep)
  {
    var n: nat := if i < 0 then -i else i;
    DigitsFree(Digits(n), sep);
    if i < 0 {
      FreeAppend("-", Digits(n), sep);
    }
  }

  /** `strings.ReplaceAll` of one character by another. */
  function Replace(s: string, from: char, with: char): (r: string)
    ensures |r| == |s|
  {
    if s == "" then "" else [if s[0] == from then with else s[0]] + Replace(s[1..], from, with)
  }

  lemma {:induction false} ReplaceFrees(s: string, from: char, with: char)
    requires from != with
    ensures Free(Replace(s, from, with), from)
    ensures Free(s, from) ==> Replace(s, from, with) == s
  {
    if s != "" {
      ReplaceFrees(s[1..], from, with);
      assert s == [s[0]] + s[1..];
    }
  }

  lemma {:induction false} ReplaceKeepsFree(s: string, from: char, with: char, sep: char)
    requires Free(s, sep) && with != sep
    ensures Free(Replace(s, from, with), sep)
  {
    if s != "" {
      ReplaceKeepsFree(s[1..], from, with, sep);
    }
  }

  // ---------------------------------------------------------------------------
  // Trimming
  // ---------------------------------------------------------------------------

  /** Unicode's white space, as `unicode.IsSpace` has it. */
  predicate IsSpace(c: char) {
    var n := c as int;
    9 <= n <= 13 || n == 0x20 || n == 0x85 || n == 0xA0 || n == 0x1680 || 0x2000 <= n <= 0x200A
    || n == 0x2028 || n == 0x2029 || n == 0x202F || n == 0x205F || n == 0x3000
  }

  function TrimRight(s: string): (r: string)
    ensures r <= s && (r != "" ==> !IsSpace(r[|r| - 1]))
  {
    if s != "" && IsSpace(s[|s| - 1]) then TrimRight(s[..|s| - 1]) else s
  }

  function TrimLeft(s: string): string {
    if s != "" && IsSpace(s[0]) then TrimLeft(s[1..]) else s
  }

  /** `strings.TrimSpace`. */
  function Trim(s: string): string {
    TrimLeft(TrimRight(s))
  }

  ghost predicate AllSpace(s: string) {
    forall i :: 0 <= i < |s| ==> IsSpace(s[i])
  }

  lemma {:induction false} TrimRightIs(s: string)
    ensures TrimRight(s) <= s && AllSpace(s[|TrimRight(s)|..])
  {
    if s != "" && IsSpace(s[|s| - 1]) {
      TrimRightIs(s[..|s| - 1]);
    }
  }

  lemma {:induction false} TrimLeftIs(s: string)
    ensures var n := |s| - |TrimLeft(s)|;
            n >= 0 && TrimLeft(s) == s[n..] && AllSpace(s[..n]) && (n < |s| ==> !IsSpace(s[n]))
  {
    if s != "" && IsSpace(s[0]) {
      TrimLeftIs(s[1..]);
    }
  }

  /** Nothing but white space is cut off, on both sides, and none is left there. */
  lemma TrimIs(s: string) returns (before: string, after: string)
    ensures s == before + Trim(s) + after && AllSpace(before) && AllSpace(after)
    ensures Trim(s) != "" ==> !IsSpace(Trim(s)[0]) && !IsSpace(Trim(s)[|Trim(s)| - 1])
  {
    var t := TrimRight(s);
    TrimRightIs(s);
    TrimLeftIs(t);
    before, after := t[..|t| - |Trim(s)|], s[|t|..];
  }

  lemma {:induction false} TrimRightAppend(a: string, b: string)
    ensures TrimRight(a + b) == if TrimRight(b) == "" then TrimRight(a) else a + TrimRight(b)
    decreases |b|
  {
    if b == "" {
      assert a + b == a;
    } else if IsSpace(b[|b| - 1]) {
      assert (a + b)[..|a + b| - 1] == a + b[..|b| - 1];
      TrimRightAppend(a, b[..|b| - 1]);
    }
  }

  /** A string that starts with no space is only trimmed on the right. */
  lemma TrimStarting(s: string)
    requires s != "" && !IsSpace(s[0])
    ensures Trim(s) == TrimRight(s) != "" && TrimRight(s)[0] == s[0]
  {
    assert s == [s[0]] + s[1..];
    TrimRightAppend([s[0]], s[1..]);
    assert TrimRight([s[0]]) == [s[0]];
  }

  lemma {:induction false} FreePrefix(s: string, p: string, sep: char)
    requires Free(s, sep) && p <= s
    ensures Free(p, sep)
  {
    if p != "" {
      FreePrefix(s[1..], p[1..], sep);
    }
  }
}
