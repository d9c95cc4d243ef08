/** String building blocks shared by the query compiler, the GPX writer and the
    marker classifier: JavaScript's `join`, `includes`, ASCII `toLowerCase`
    and the decimal rendering of a whole number. */
module Text {

  // ---------------------------------------------------------------------------
  // Concatenation and joining
  // ---------------------------------------------------------------------------

  /** `parts.join('')`. */
  function Concat(parts: seq<string>): string
  {
    if parts == [] then "" else parts[0] + Concat(parts[1..])
  }

  lemma ConcatPair(a: string, b: string)
    ensures Concat([a, b]) == a + b
  {
    assert [a, b][1..] == [b];
    assert Concat([b]) == b + Concat([]);
  }

  /** Concatenation distributes over appending lists. */
  lemma {:induction false} ConcatAppend(a: seq<string>, b: seq<string>)
    ensures Concat(a + b) == Concat(a) + Concat(b)
  {
    if a == [] {
      assert a + b == b;
    } else {
      assert (a + b)[1..] == a[1..] + b;
      ConcatAppend(a[1..], b);
    }
  }

  /** `parts.join(sep)`: the parts in order, one `sep` between neighbours,
      and the empty string for no parts. */
  function Join(parts: seq<string>, sep: string): string
  {
    if |parts| == 0 then ""
    else if |parts| == 1 then parts[0]
    else parts[0] + sep + Join(parts[1..], sep)
  }

  /** Concatenating one more part appends it. */
  lemma ConcatSnoc(parts: seq<string>, x: string)
    ensures Concat(parts + [x]) == Concat(parts) + x
  {
    ConcatAppend(parts, [x]);
    assert Concat([x]) == x + Concat([]);
  }

  /** Joining groups that were each joined with the same separator is the
      same as joining all their members at once. */
  lemma {:induction false} JoinOfJoins(groups: seq<seq<string>>, sep: string)
    requires forall g | g in groups :: |g| > 0
    ensures Join(JoinEach(groups, sep), sep) == Join(Flatten(groups), sep)
  {
    if |groups| <= 1 {
      if |groups| == 1 {
        assert Flatten(groups) == groups[0] + Flatten(groups[1..]);
        assert groups[0] + [] == groups[0];
      }
    } else {
      JoinOfJoins(groups[1..], sep);
      assert JoinEach(groups, sep)[1..] == JoinEach(groups[1..], sep);
      JoinAppend(groups[0], Flatten(groups[1..]), sep);
    }
  }

  /** Each group joined on its own, in order. */
  function JoinEach(groups: seq<seq<string>>, sep: string): (r: seq<string>)
    ensures |r| == |groups|
    ensures forall i :: 0 <= i < |groups| ==> r[i] == Join(groups[i], sep)
  {
    if groups == [] then [] else [Join(groups[0], sep)] + JoinEach(groups[1..], sep)
  }

  /** All groups' members, group after group. */
  function Flatten<T>(groups: seq<seq<T>>): seq<T>
  {
    if groups == [] then [] else groups[0] + Flatten(groups[1..])
  }

  /** Joining two non-empty lists puts one separator between their joins. */
  lemma {:induction false} JoinAppend(a: seq<string>, b: seq<string>, sep: string)
    requires |a| > 0 && |b| > 0
    ensures Join(a + b, sep) == Join(a, sep) + sep + Join(b, sep)
  {
    if |a| == 1 {
      assert (a + b)[1..] == b;
    } else {
      assert (a + b)[1..] == a[1..] + b;
      JoinAppend(a[1..], b, sep);
    }
  }

  // ---------------------------------------------------------------------------
  // Substring search
  // ---------------------------------------------------------------------------

  /** `p` occurs in `s` starting at index `i`. */
  ghost predicate OccursAt(s: string, p: string, i: int)
  {
    0 <= i && i + |p| <= |s| && s[i..i + |p|] == p
  }

  /** `p` occurs somewhere in `s`. */
  ghost predicate Occurs(s: string, p: string)
  {
    exists i :: OccursAt(s, p, i)
  }

  /** An occurrence past the first character of `s` is an occurrence in
      `s[1..]`, one place earlier. */
  lemma OccursShift(s: string, p: string, i: int)
    requires |s| > 0 && i >= 1
    ensures OccursAt(s, p, i) <==> OccursAt(s[1..], p, i - 1)
  {
    if i + |p| <= |s| {
      assert s[1..][i - 1..i - 1 + |p|] == s[i..i + |p|];
    }
  }

  /** JavaScript's `s.includes(p)`, checked left to right. */
  function Contains(s: string, p: string): (b: bool)
    ensures b <==> Occurs(s, p)
    decreases |s|
  {
    if |p| > |s| then
      assert forall i :: !OccursAt(s, p, i);
      false
    else if s[..|p|] == p then
      assert OccursAt(s, p, 0);
      true
    else
      var b := Contains(s[1..], p);
      assert b ==> Occurs(s, p) by {
        if b {
          var k :| OccursAt(s[1..], p, k);
          OccursShift(s, p, k + 1);
        }
      }
      assert Occurs(s, p) ==> b by {
        if Occurs(s, p) {
          var i :| OccursAt(s, p, i);
          assert i != 0;
          OccursShift(s, p, i);
        }
      }
      b
  }

  /** A pattern holding a character that never appears in `s` does not
      occur in it. */
  lemma AbsentCharNoOccurrence(s: string, p: string, k: int)
    requires 0 <= k < |p| && p[k] !in s
    ensures !Occurs(s, p)
  {
  }

  // ---------------------------------------------------------------------------
  // ASCII case mapping
  // ---------------------------------------------------------------------------

  function LowerChar(c: char): char
  {
    if 'A' <= c <= 'Z' then (c as int + 32) as char else c
  }

  function UpperChar(c: char): char
  {
    if 'a' <= c <= 'z' then (c as int - 32) as char else c
  }

  /** `s.toLowerCase()` restricted to the ASCII letters. */
  function AsciiLower(s: string): (r: string)
    ensures |r| == |s|
    ensures forall i :: 0 <= i < |s| ==> r[i] == LowerChar(s[i])
  {
    if s == "" then "" else [LowerChar(s[0])] + AsciiLower(s[1..])
  }

  /** `s.toUpperCase()` restricted to the ASCII letters. */
  function AsciiUpper(s: string): (r: string)
    ensures |r| == |s|
    ensures forall i :: 0 <= i < |s| ==> r[i] == UpperChar(s[i])
  {
    if s == "" then "" else [UpperChar(s[0])] + AsciiUpper(s[1..])
  }

  /** Lower-casing forgets any earlier upper-casing. */
  lemma LowerOfUpper(s: string)
    ensures AsciiLower(AsciiUpper(s)) == AsciiLower(s)
  {
    var a := AsciiLower(AsciiUpper(s));
    var b := AsciiLower(s);
    assert forall i :: 0 <= i < |s| ==> a[i] == b[i];
  }

  // ---------------------------------------------------------------------------
  // Decimal rendering of whole numbers
  // ---------------------------------------------------------------------------

  predicate IsDigit(c: char)
  {
    '0' <= c <= '9'
  }

  predicate AllDigits(s: string)
  {
    forall i :: 0 <= i < |s| ==> IsDigit(s[i])
  }

  function DigitChar(d: nat): (c: char)
    requires d < 10
    ensures IsDigit(c) && c as int - '0' as int == d
  {
    ('0' as int + d) as char
  }

  /** The value of a string of decimal digits, most significant first. */
  function ParseDecimal(s: string): nat
    requires AllDigits(s)
    decreases |s|
  {
    if s == "" then 0
    else 10 * ParseDecimal(s[..|s| - 1]) + (s[|s| - 1] as int - '0' as int)
  }

  /** JavaScript's rendering `${n}` of a non-negative integer: decimal
      digits, never empty, no leading zero. */
  function Decimal(n: nat): (r: string)
    ensures |r| >= 1 && AllDigits(r)
    ensures r[0] == '0' ==> n == 0 && r == "0"
    decreases n
  {
    if n < 10 then [DigitChar(n)] else Decimal(n / 10) + [DigitChar(n % 10)]
  }

  /** Reading the rendering back gives the number. */
  lemma {:induction false} DecimalRoundTrip(n: nat)
    ensures ParseDecimal(Decimal(n)) == n
  {
    var r := Decimal(n);
    if n < 10 {
      assert r[..|r| - 1] == "";
    } else {
      assert r[..|r| - 1] == Decimal(n / 10);
      DecimalRoundTrip(n / 10);
    }
  }
}
