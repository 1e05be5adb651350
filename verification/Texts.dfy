// Splitting text at a character.
module Texts {
  // The position of the first `c`, and the number of characters after the last.
  function FirstIndex(s: string, c: char): nat { if s == "" || s[0] == c then 0 else 1 + FirstIndex(s[1..], c) }
  function LastGap(s: string, c: char): nat { if s == "" || s[|s| - 1] == c then 0 else 1 + LastGap(s[..|s| - 1], c) }

  lemma {:induction false} FirstIndexIs(a: string, x: string, c: char)
    requires c !in a
    ensures FirstIndex(a + [c] + x, c) == |a|
  {
    var all := a + [c] + x;
    if a != "" {
      assert all[0] == a[0] && a[0] in a;
      assert all[1..] == a[1..] + [c] + x;
      FirstIndexIs(a[1..], x, c);
    }
  }

  lemma {:induction false} LastGapIs(a: string, x: string, c: char)
    requires c !in x
    ensures LastGap(a + [c] + x, c) == |x|
  {
    var all := a + [c] + x;
    if x != "" {
      assert all[|all| - 1] == x[|x| - 1] && x[|x| - 1] in x;
      assert all[..|all| - 1] == a + [c] + x[..|x| - 1];
      LastGapIs(a, x[..|x| - 1], c);
    }
  }

  // Two splits at the first occurrence of the same character are the same.
  lemma FirstSplit(a: string, x: string, b: string, y: string, c: char)
    requires c !in a && c !in b && a + [c] + x == b + [c] + y
    ensures a == b && x == y
  {
    var l, r := a + [c] + x, b + [c] + y;
    FirstIndexIs(a, x, c);
    FirstIndexIs(b, y, c);
    assert a == l[..|a|] && b == r[..|b|];
    assert x == l[|a| + 1..] && y == r[|b| + 1..];
  }

  // Two splits at the last occurrence of the same character are the same.
  lemma LastSplit(a: string, x: string, b: string, y: string, c: char)
    requires c !in x && c !in y && a + [c] + x == b + [c] + y
    ensures a == b && x == y
  {
    var l, r := a + [c] + x, b + [c] + y;
    LastGapIs(a, x, c);
    LastGapIs(b, y, c);
    assert a == l[..|a|] && b == r[..|b|];
    assert x == l[|a| + 1..] && y == r[|b| + 1..];
  }

  // bytes.Split and strings.Split with a separator of one character.
  function Split(s: string, c: char): (parts: seq<string>)
    ensures parts != []
  {
    if s == "" then [""]
    else if s[0] == c then [""] + Split(s[1..], c)
    else
      var rest := Split(s[1..], c);
      [[s[0]] + rest[0]] + rest[1..]
  }

  lemma {:induction false} SplitAtFirst(a: string, x: string, c: char)
    requires c !in a
    ensures Split(a + [c] + x, c) == [a] + Split(x, c)
  {
    var all := a + [c] + x;
    if a == "" {
      assert all[1..] == x;
    } else {
      assert all[0] == a[0] && a[0] in a;
      assert all[1..] == a[1..] + [c] + x;
      SplitAtFirst(a[1..], x, c);
      assert [a[0]] + a[1..] == a;
    }
  }

  lemma {:induction false} SplitNothing(a: string, c: char)
    requires c !in a
    ensures Split(a, c) == [a]
  {
    if a != "" {
      assert a[0] in a;
      SplitNothing(a[1..], c);
      assert [a[0]] + a[1..] == a;
    }
  }

  // Fields, each followed by the separator.
  function Terminated(fields: seq<string>, c: char): string {
    if fields == [] then "" else fields[0] + [c] + Terminated(fields[1..], c)
  }

  lemma {:induction false} SplitTerminated(fields: seq<string>, c: char)
    requires forall f | f in fields :: c !in f
    ensures Split(Terminated(fields, c), c) == fields + [""]
  {
    if fields != [] {
      SplitTerminated(fields[1..], c);
      SplitAtFirst(fields[0], Terminated(fields[1..], c), c);
      assert fields == [fields[0]] + fields[1..];
    }
  }

  // The parts with separators in between.
  function Joined(parts: seq<string>, c: char): string
    requires parts != []
  {
    Terminated(parts[..|parts| - 1], c) + parts[|parts| - 1]
  }

  lemma JoinedAfterFirst(part: string, rest: seq<string>, c: char)
    requires rest != []
    ensures Joined([part] + rest, c) == part + [c] + Joined(rest, c)
  {
    var parts := [part] + rest;
    assert parts[..|parts| - 1] == [part] + rest[..|rest| - 1];
    assert parts[..|parts| - 1][1..] == rest[..|rest| - 1];
  }

  lemma JoinedWithCharacter(x: char, rest: seq<string>, c: char)
    requires rest != []
    ensures Joined([[x] + rest[0]] + rest[1..], c) == [x] + Joined(rest, c)
  {
    if |rest| > 1 {
      JoinedAfterFirst([x] + rest[0], rest[1..], c);
      JoinedAfterFirst(rest[0], rest[1..], c);
      assert [rest[0]] + rest[1..] == rest;
    }
  }

  // Splitting loses nothing but the separators.
  lemma {:induction false} SplitIsTerminated(s: string, c: char)
    ensures s == Joined(Split(s, c), c) && forall part | part in Split(s, c) :: c !in part
  {
    if s != "" {
      var rest := Split(s[1..], c);
      SplitIsTerminated(s[1..], c);
      assert s == [s[0]] + s[1..];
      if s[0] == c {
        JoinedAfterFirst("", rest, c);
      } else {
        JoinedWithCharacter(s[0], rest, c);
      }
    }
  }

  // --- Decimal numbers ---------------------------------------------------------------

  predicate IsDigit(c: char) { '0' <= c <= '9' }

  function Digit(n: nat): char
    requires n < 10
  {
    ('0' as int + n) as char
  }

  function Decimal(n: nat): string { if n < 10 then [Digit(n)] else Decimal(n / 10) + [Digit(n % 10)] }

  predicate IsDecimal(s: string) { s != "" && forall c | c in s :: IsDigit(c) }

  function Value(s: string): nat
    requires forall c | c in s :: IsDigit(c)
  {
    if s == "" then 0
    else
      assert IsDigit(s[|s| - 1]);
      10 * Value(s[..|s| - 1]) + (s[|s| - 1] as int - '0' as int)
  }

  lemma {:induction false} DecimalRoundTrip(n: nat)
    ensures IsDecimal(Decimal(n)) && Value(Decimal(n)) == n
  {
    if n >= 10 {
      DecimalRoundTrip(n / 10);
      var s := Decimal(n);
      assert s[..|s| - 1] == Decimal(n / 10);
    }
  }
}
