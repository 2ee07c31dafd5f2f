/** Decimal digits, joining and searching in strings, as the JavaScript runtime does them. */
module Text {
  import opened Wrappers

  predicate IsDigit(c: char)
  {
    '0' <= c <= '9'
  }

  predicate AllDigits(s: string)
  {
    forall i :: 0 <= i < |s| ==> IsDigit(s[i])
  }

  function DigitValue(c: char): (d: nat)
    requires IsDigit(c)
    ensures d < 10
  {
    c as int - '0' as int
  }

  function DigitChar(d: nat): (c: char)
    requires d < 10
    ensures IsDigit(c) && DigitValue(c) == d
  {
    ('0' as int + d) as char
  }

  /** Decimal rendering of a natural number, as `String(n)` prints it. */
  function NatToString(n: nat): (r: string)
    ensures |r| >= 1 && AllDigits(r)
    ensures r[0] == '0' ==> n == 0
    ensures n < 10 ==> |r| == 1
  {
    if n < 10 then [DigitChar(n)] else NatToString(n / 10) + [DigitChar(n % 10)]
  }

  /** JavaScript truthiness of an optional string: present and not empty. */
  predicate Truthy(s: Option<string>)
  {
    s.Some? && s.value != ""
  }

  /** The value of a string of decimal digits, as `parseInt` reads it (leading zeros allowed). */
  function ParseNat(s: string): nat
    requires AllDigits(s)
  {
    if s == [] then 0 else ParseNat(s[..|s| - 1]) * 10 + DigitValue(s[|s| - 1])
  }

  /** Reading back what NatToString printed gives the number. */
  lemma {:induction false} ParseNatToString(n: nat)
    ensures ParseNat(NatToString(n)) == n
  {
    if n >= 10 {
      var r := NatToString(n);
      assert r[..|r| - 1] == NatToString(n / 10);
      ParseNatToString(n / 10);
    }
  }

  /** The length of the run of digits that `s` starts with (what a greedy `\d*` consumes). */
  function DigitRun(s: string): (k: nat)
    ensures k <= |s|
    ensures AllDigits(s[..k])
    ensures k < |s| ==> !IsDigit(s[k])
  {
    if s == [] || !IsDigit(s[0]) then 0 else 1 + DigitRun(s[1..])
  }

  /** A run of digits followed by the end of the string or by a non-digit is consumed whole. */
  lemma {:induction false} DigitRunOf(d: string, t: string)
    requires AllDigits(d)
    requires t == [] || !IsDigit(t[0])
    ensures DigitRun(d + t) == |d|
  {
    if d != [] {
      assert (d + t)[1..] == d[1..] + t;
      DigitRunOf(d[1..], t);
    }
  }

  /** `parts.join(sep)`. */
  function Join(parts: seq<string>, sep: string): string
  {
    if |parts| == 0 then ""
    else if |parts| == 1 then parts[0]
    else parts[0] + sep + Join(parts[1..], sep)
  }

  /** Three parts joined: the separator between the first and second and between the second and
      third. */
  lemma JoinThree(a: string, b: string, c: string, sep: string)
    ensures Join([a, b, c], sep) == a + sep + (b + sep + c)
  {
    assert [a, b, c][1..] == [b, c];
    assert [b, c][1..] == [c];
    assert Join([b, c], sep) == b + sep + c;
  }

  /** `pat` occurs in `s` starting at position `j`. */
  predicate OccursAt(s: string, pat: string, j: nat)
  {
    j + |pat| <= |s| && s[j..j + |pat|] == pat
  }

  /** `s.indexOf(pat)`: the first position where `pat` occurs in `s` (see IndexOfFirst). */
  function IndexOf(s: string, pat: string): (r: Option<nat>)
    ensures r.Some? ==> r.value + |pat| <= |s|
  {
    if |s| < |pat| then None
    else if s[..|pat|] == pat then Some(0)
    else
      match IndexOf(s[1..], pat)
      case Some(k) => Some(k + 1)
      case None => None
  }

  /** IndexOf finds the first occurrence, and finds none exactly when there is none. */
  lemma {:induction false} IndexOfFirst(s: string, pat: string)
    ensures IndexOf(s, pat).Some? ==> OccursAt(s, pat, IndexOf(s, pat).value)
    ensures IndexOf(s, pat).Some? ==> forall j: nat :: j < IndexOf(s, pat).value ==> !OccursAt(s, pat, j)
    ensures IndexOf(s, pat).None? ==> forall j: nat :: !OccursAt(s, pat, j)
  {
    if |s| >= |pat| && s[..|pat|] != pat {
      IndexOfFirst(s[1..], pat);
      forall j: nat | j >= 1 ensures OccursAt(s, pat, j) <==> OccursAt(s[1..], pat, j - 1) {
        if j + |pat| <= |s| {
          DropSlice(s, j, |pat|);
        }
      }
      assert !OccursAt(s, pat, 0);
    }
  }

  /** A slice of `s` read after dropping its first element. */
  lemma DropSlice(s: string, j: nat, n: nat)
    requires 1 <= j && j + n <= |s|
    ensures s[1..][j - 1..j - 1 + n] == s[j..j + n]
  {
    var a, b := s[1..][j - 1..j - 1 + n], s[j..j + n];
    assert forall k | 0 <= k < n :: a[k] == b[k];
  }

  /** `s.includes(pat)`. */
  predicate Contains(s: string, pat: string)
  {
    IndexOf(s, pat).Some?
  }

  /** An occurrence at `j` means the text contains the pattern, first found no later than `j`. */
  lemma OccursContains(s: string, pat: string, j: nat)
    requires OccursAt(s, pat, j)
    ensures Contains(s, pat) && IndexOf(s, pat).value <= j
  {
    IndexOfFirst(s, pat);
  }

  /** A text with no occurrence of the pattern does not contain it. */
  lemma NoOccurrence(s: string, pat: string)
    requires forall j: nat :: !OccursAt(s, pat, j)
    ensures !Contains(s, pat)
  {
    IndexOfFirst(s, pat);
  }

  /** A text that does not contain the pattern has no occurrence of it anywhere. */
  lemma NotContains(s: string, pat: string)
    requires !Contains(s, pat)
    ensures forall j: nat :: !OccursAt(s, pat, j)
  {
    IndexOfFirst(s, pat);
  }

  /** `s.split(sep)[1]` when `sep` occurs in `s`: the text after the first `sep`, up to the next
      `sep` or the end. */
  function SecondField(s: string, sep: string): (r: string)
    requires |sep| > 0 && Contains(s, sep)
    ensures |r| <= |s|
  {
    var i := IndexOf(s, sep).value;
    FirstField(s[i + |sep|..], sep)
  }

  /** The second field holds no separator. */
  lemma SecondFieldFree(s: string, sep: string)
    requires |sep| > 0 && Contains(s, sep)
    ensures !Contains(SecondField(s, sep), sep)
  {
    FirstFieldPrefix(s[IndexOf(s, sep).value + |sep|..], sep);
  }

  /** When the first `sep` is followed by text without `sep`, that text is the second field. */
  lemma SecondFieldAt(s: string, sep: string, i: nat, rest: string)
    requires |sep| > 0 && IndexOf(s, sep) == Some(i) && s[i + |sep|..] == rest
    requires !Contains(rest, sep)
    ensures SecondField(s, sep) == rest
  {
    FirstFieldWithout(rest, sep);
  }

  /** `s.split(sep)[0]`: the text before the first `sep`, or all of `s`. */
  function FirstField(s: string, sep: string): (r: string)
    requires |sep| > 0
    ensures |r| <= |s|
  {
    match IndexOf(s, sep)
    case None => s
    case Some(i) => s[..i]
  }

  /** The first field is a prefix free of the separator, followed by the separator unless it is
      the whole text. */
  lemma FirstFieldPrefix(s: string, sep: string)
    requires |sep| > 0
    ensures !Contains(FirstField(s, sep), sep)
    ensures FirstField(s, sep) == s[..|FirstField(s, sep)|]
    ensures |FirstField(s, sep)| < |s| ==> OccursAt(s, sep, |FirstField(s, sep)|)
  {
    IndexOfFirst(s, sep);
    var r := FirstField(s, sep);
    if IndexOf(s, sep).Some? {
      forall j: nat ensures !OccursAt(r, sep, j) {
        if j + |sep| <= |r| {
          assert r[j..j + |sep|] == s[j..j + |sep|];
          assert !OccursAt(s, sep, j);
        }
      }
      NoOccurrence(r, sep);
    }
  }

  /** A text without the separator is its own first field. */
  lemma FirstFieldWithout(s: string, sep: string)
    requires |sep| > 0 && !Contains(s, sep)
    ensures FirstField(s, sep) == s
  {
  }

  /** `s.split(sep)` for a one-character separator: the pieces between separators, in order. */
  function Split(s: string, sep: char): (r: seq<string>)
    ensures |r| >= 1
  {
    if s == [] then [""]
    else
      var rest := Split(s[1..], sep);
      if s[0] == sep then [""] + rest else [[s[0]] + rest[0]] + rest[1..]
  }

  /** Text without the separator is a single piece. */
  lemma {:induction false} SplitWithout(a: string, sep: char)
    requires sep !in a
    ensures Split(a, sep) == [a]
  {
    if a != [] {
      SplitWithout(a[1..], sep);
      assert [a[0]] + a[1..] == a;
    }
  }

  /** A piece without the separator, then the separator, splits off as the first piece. */
  lemma {:induction false} SplitAfter(a: string, sep: char, rest: string)
    requires sep !in a
    ensures Split(a + [sep] + rest, sep) == [a] + Split(rest, sep)
  {
    if a == [] {
      assert a + [sep] + rest == [sep] + rest;
      assert ([sep] + rest)[1..] == rest;
    } else {
      assert (a + [sep] + rest)[1..] == a[1..] + [sep] + rest;
      SplitAfter(a[1..], sep, rest);
      assert [a[0]] + a[1..] == a;
    }
  }

  /** Splitting what `Join` glued with a separator that no piece contains gives the pieces back. */
  lemma {:induction false} SplitJoin(parts: seq<string>, sep: char)
    requires |parts| >= 1
    requires forall i | 0 <= i < |parts| :: sep !in parts[i]
    ensures Split(Join(parts, [sep]), sep) == parts
  {
    if |parts| == 1 {
      SplitWithout(parts[0], sep);
    } else {
      SplitJoin(parts[1..], sep);
      SplitAfter(parts[0], sep, Join(parts[1..], [sep]));
      assert [parts[0]] + parts[1..] == parts;
    }
  }
}
