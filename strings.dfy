/**
 * The Rust standard-library string operations the Nominatim client uses to
 * shape its requests, as functions on `string`, each with the operation that
 * reads its output back:
 *   - `s.replace(' ', "+")` (PlusForSpace), read back by SpaceForPlus, which
 *     turns `+` back into space (the `+` step of form decoding, without
 *     percent-decoding);
 *   - `s.replace(' ', "")` (RemoveSpaces);
 *   - `parts.join(",")` (Join), read back by `str::split` (Split);
 *   - `format!("{}", n)` on an unsigned integer (Decimal), read back by
 *     ParseDecimal.
 */
module Strings {

  /** `s.replace(' ', "+")`: every space becomes a plus sign, nothing else moves. */
  function PlusForSpace(s: string): (r: string)
    ensures |r| == |s|
    ensures ' ' !in r
    ensures forall i :: 0 <= i < |s| ==> r[i] == if s[i] == ' ' then '+' else s[i]
  {
    if s == [] then [] else [if s[0] == ' ' then '+' else s[0]] + PlusForSpace(s[1..])
  }

  /** The `+` step of form decoding: every plus sign becomes a space. */
  function SpaceForPlus(s: string): (r: string)
    ensures |r| == |s|
    ensures forall i :: 0 <= i < |s| ==> r[i] == if s[i] == '+' then ' ' else s[i]
  {
    if s == [] then [] else [if s[0] == '+' then ' ' else s[0]] + SpaceForPlus(s[1..])
  }

  /** A text without plus signs survives PlusForSpace and SpaceForPlus unchanged. */
  lemma SpaceForPlusInvertsPlusForSpace(s: string)
    requires '+' !in s
    ensures ' ' !in PlusForSpace(s)
    ensures SpaceForPlus(PlusForSpace(s)) == s
  {
    var e := PlusForSpace(s);
    forall i | 0 <= i < |e| ensures e[i] != ' ' && SpaceForPlus(e)[i] == s[i] {
      assert s[i] != '+';
    }
  }

  /** PlusForSpace brings in no character but `+`. */
  lemma PlusForSpaceAddsNothing(s: string, c: char)
    requires c !in s && c != '+'
    ensures c !in PlusForSpace(s)
  {
    var r := PlusForSpace(s);
    forall i | 0 <= i < |r| ensures r[i] != c {
      assert s[i] != c;
    }
  }

  /** `s.replace(' ', "")`: the spaces are deleted, every other character is kept. */
  function RemoveSpaces(s: string): (r: string)
    ensures ' ' !in r
    ensures |r| <= |s|
  {
    if s == [] then [] else (if s[0] == ' ' then [] else [s[0]]) + RemoveSpaces(s[1..])
  }

  /** Every character other than a space occurs as often after RemoveSpaces as before. */
  lemma {:induction false} RemoveSpacesKeepsOthers(s: string, c: char)
    requires c != ' '
    ensures multiset(RemoveSpaces(s))[c] == multiset(s)[c]
  {
    if s != [] {
      assert s == [s[0]] + s[1..];
      RemoveSpacesKeepsOthers(s[1..], c);
    }
  }

  /**
   * RemoveSpaces works piece by piece: together with its value on a single
   * character this determines it, so the kept characters stay in their order.
   */
  lemma {:induction false} RemoveSpacesConcat(a: string, b: string)
    ensures RemoveSpaces(a + b) == RemoveSpaces(a) + RemoveSpaces(b)
  {
    if a == [] {
      assert a + b == b;
    } else {
      var head := if a[0] == ' ' then [] else [a[0]];
      assert (a + b)[0] == a[0];
      assert (a + b)[1..] == a[1..] + b;
      assert RemoveSpaces(a + b) == head + RemoveSpaces(a[1..] + b);
      RemoveSpacesConcat(a[1..], b);
      assert RemoveSpaces(a) == head + RemoveSpaces(a[1..]);
    }
  }

  /** A text without spaces is left as it is. */
  lemma {:induction false} RemoveSpacesKeepsSpaceFree(s: string)
    requires ' ' !in s
    ensures RemoveSpaces(s) == s
  {
    if s != [] {
      assert s[0] != ' ';
      RemoveSpacesKeepsSpaceFree(s[1..]);
    }
  }

  /** Removing spaces twice is removing them once. */
  lemma RemoveSpacesIdempotent(s: string)
    ensures RemoveSpaces(RemoveSpaces(s)) == RemoveSpaces(s)
  {
    RemoveSpacesKeepsSpaceFree(RemoveSpaces(s));
  }

  /** A character RemoveSpaces can produce was already in its input. */
  lemma RemoveSpacesAddsNothing(s: string, c: char)
    requires c !in s
    ensures c !in RemoveSpaces(s)
  {
    if c != ' ' {
      RemoveSpacesKeepsOthers(s, c);
    }
  }

  /** `parts.join([sep])`: the parts in order with one separator between neighbours. */
  function Join(parts: seq<string>, sep: char): (r: string)
    ensures parts == [] ==> r == []
  {
    if |parts| == 0 then []
    else if |parts| == 1 then parts[0]
    else parts[0] + [sep] + Join(parts[1..], sep)
  }

  /** A join holds no character, other than the separator, that no part holds. */
  lemma {:induction false} JoinAddsOnlySeparators(parts: seq<string>, sep: char, c: char)
    requires c != sep
    requires forall i :: 0 <= i < |parts| ==> c !in parts[i]
    ensures c !in Join(parts, sep)
  {
    if |parts| > 1 {
      JoinAddsOnlySeparators(parts[1..], sep, c);
    }
  }

  /** Join of a first part and at least one more, unfolded once. */
  lemma JoinFront(first: string, rest: seq<string>, sep: char)
    requires |rest| > 0
    ensures Join([first] + rest, sep) == first + [sep] + Join(rest, sep)
  {
    assert ([first] + rest)[1..] == rest;
  }

  /** Appending a part to a non-empty join appends a separator and the part. */
  lemma {:induction false} JoinSnoc(parts: seq<string>, last: string, sep: char)
    requires |parts| > 0
    ensures Join(parts + [last], sep) == Join(parts, sep) + [sep] + last
  {
    if |parts| == 1 {
      assert parts + [last] == [parts[0]] + [last];
      JoinFront(parts[0], [last], sep);
    } else {
      assert parts + [last] == [parts[0]] + (parts[1..] + [last]);
      JoinFront(parts[0], parts[1..] + [last], sep);
      JoinSnoc(parts[1..], last, sep);
      JoinFront(parts[0], parts[1..], sep);
      assert parts == [parts[0]] + parts[1..];
    }
  }

  /** The first position of `c` in `s`. */
  function IndexOf(s: string, c: char): (i: nat)
    requires c in s
    ensures i < |s| && s[i] == c && c !in s[..i]
  {
    if s[0] == c then 0 else 1 + IndexOf(s[1..], c)
  }

  /** IndexOf is the only position that holds `c` with no `c` before it. */
  lemma {:induction false} IndexOfUnique(s: string, c: char, i: nat)
    requires i < |s| && s[i] == c && c !in s[..i]
    ensures IndexOf(s, c) == i
  {
    if i > 0 {
      assert s[..i][0] == s[0];
      assert s[1..][..i - 1] == s[1..i];
      assert forall k :: 0 <= k < i - 1 ==> s[1..i][k] == s[..i][k + 1];
      IndexOfUnique(s[1..], c, i - 1);
    }
  }

  /** `str::split(sep)`: the maximal separator-free pieces, in order; "" splits to [""]. */
  function Split(s: string, sep: char): (parts: seq<string>)
    ensures |parts| >= 1
    ensures forall i :: 0 <= i < |parts| ==> sep !in parts[i]
    decreases |s|
  {
    if sep !in s then [s]
    else
      var i := IndexOf(s, sep);
      [s[..i]] + Split(s[i + 1..], sep)
  }

  /** Splitting across one separator splits each side. */
  lemma {:induction false} SplitAppend(a: string, b: string, sep: char)
    ensures Split(a + [sep] + b, sep) == Split(a, sep) + Split(b, sep)
    decreases |a|
  {
    var s := a + [sep] + b;
    if sep !in a {
      assert s[|a|] == sep && s[..|a|] == a;
      IndexOfUnique(s, sep, |a|);
      assert s[|a| + 1..] == b;
      calc {
        Split(s, sep);
        [s[..|a|]] + Split(s[|a| + 1..], sep);
        [a] + Split(b, sep);
      }
    } else {
      var i := IndexOf(a, sep);
      assert s[..i] == a[..i];
      IndexOfUnique(s, sep, i);
      var rest := a[i + 1..];
      assert s[i + 1..] == rest + [sep] + b;
      SplitAppend(rest, b, sep);
      calc {
        Split(s, sep);
        [a[..i]] + Split(rest + [sep] + b, sep);
        [a[..i]] + (Split(rest, sep) + Split(b, sep));
        ([a[..i]] + Split(rest, sep)) + Split(b, sep);
      }
    }
  }

  /** Splitting a join of separator-free parts gives the parts back, in order. */
  lemma {:induction false} SplitInvertsJoin(parts: seq<string>, sep: char)
    requires |parts| > 0
    requires forall i :: 0 <= i < |parts| ==> sep !in parts[i]
    ensures Split(Join(parts, sep), sep) == parts
  {
    if |parts| > 1 {
      SplitAppend(parts[0], Join(parts[1..], sep), sep);
      SplitInvertsJoin(parts[1..], sep);
    }
  }

  /** Joining the pieces of a split gives the text back: nothing is lost either way. */
  lemma {:induction false} JoinInvertsSplit(s: string, sep: char)
    ensures Join(Split(s, sep), sep) == s
    decreases |s|
  {
    if sep in s {
      var i := IndexOf(s, sep);
      var rest := s[i + 1..];
      assert Split(s, sep) == [s[..i]] + Split(rest, sep);
      JoinFront(s[..i], Split(rest, sep), sep);
      JoinInvertsSplit(rest, sep);
      assert s == s[..i] + [sep] + rest;
    }
  }

  predicate IsDigit(c: char) {
    '0' <= c <= '9'
  }

  function DigitChar(d: nat): (c: char)
    requires d < 10
    ensures IsDigit(c)
  {
    ('0' as int + d) as char
  }

  /** `format!("{}", n)` for an unsigned integer: decimal digits, no leading zero. */
  function Decimal(n: nat): (r: string)
    ensures |r| >= 1
    ensures forall i :: 0 <= i < |r| ==> IsDigit(r[i])
    ensures |r| > 1 ==> r[0] != '0'
  {
    if n < 10 then [DigitChar(n)] else Decimal(n / 10) + [DigitChar(n % 10)]
  }

  /** A rendered number holds nothing but digits. */
  lemma DecimalHasOnlyDigits(n: nat, c: char)
    requires !IsDigit(c)
    ensures c !in Decimal(n)
  {
    var d := Decimal(n);
    forall i | 0 <= i < |d| ensures d[i] != c {
      assert IsDigit(d[i]);
    }
  }

  /** The number a string of decimal digits denotes. */
  function ParseDecimal(s: string): nat
    requires forall i :: 0 <= i < |s| ==> IsDigit(s[i])
  {
    if s == [] then 0
    else
      var last := s[|s| - 1];
      assert IsDigit(last);
      ParseDecimal(s[..|s| - 1]) * 10 + (last as int - '0' as int)
  }

  /** Reading a rendered number back gives the number. */
  lemma {:induction false} ParseDecimalInvertsDecimal(n: nat)
    ensures ParseDecimal(Decimal(n)) == n
  {
    if n >= 10 {
      var s := Decimal(n);
      assert s[..|s| - 1] == Decimal(n / 10);
      ParseDecimalInvertsDecimal(n / 10);
    }
  }

  /** Different numbers render differently. */
  lemma DecimalInjective(m: nat, n: nat)
    requires Decimal(m) == Decimal(n)
    ensures m == n
  {
    ParseDecimalInvertsDecimal(m);
    ParseDecimalInvertsDecimal(n);
  }
}
