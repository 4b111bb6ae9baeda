/** The output line of `summary`: '%3s%% (%2s of %2s, +%2s) %s'. */
module Report {
  import opened Wrappers
  import opened Records

  predicate IsDigit(c: char) { '0' <= c <= '9' }

  function DigitChar(d: nat): (c: char)
    requires d < 10
    ensures IsDigit(c)
  {
    "0123456789"[d]
  }

  function DigitValue(c: char): (d: nat)
    requires IsDigit(c)
    ensures d < 10
  {
    (c as int) - ('0' as int)
  }

  /** str(n) for a non-negative integer: its decimal digits, without leading zeros. */
  function NatToString(n: nat): (s: string)
    ensures |s| > 0
    ensures forall i :: 0 <= i < |s| ==> IsDigit(s[i])
    ensures |s| > 1 ==> s[0] != '0'
  {
    if n < 10 then [DigitChar(n)]
    else NatToString(n / 10) + [DigitChar(n % 10)]
  }

  /** The number that a string of decimal digits denotes. */
  function DigitsValue(s: string): nat
    requires forall i :: 0 <= i < |s| ==> IsDigit(s[i])
  {
    if s == [] then 0
    else DigitsValue(s[..|s| - 1]) * 10 + DigitValue(s[|s| - 1])
  }

  lemma {:induction false} DigitsValueOfNatToString(n: nat)
    ensures DigitsValue(NatToString(n)) == n
  {
    var s := NatToString(n);
    if n >= 10 {
      DigitsValueOfNatToString(n / 10);
      assert s[..|s| - 1] == NatToString(n / 10);
    }
  }

  function Spaces(k: nat): (s: string)
    ensures |s| == k && forall i :: 0 <= i < k ==> s[i] == ' '
  {
    seq(k, _ => ' ')
  }

  /** '%<width>s': s right-aligned in a field of at least `width` characters;
      a longer s is kept whole. */
  function PadLeft(s: string, width: nat): (r: string)
    ensures |r| == if |s| < width then width else |s|
    ensures r[|r| - |s|..] == s
    ensures forall i :: 0 <= i < |r| - |s| ==> r[i] == ' '
  {
    Spaces(if |s| < width then width - |s| else 0) + s
  }

  /** The line printed for one progress row. */
  function Line(row: Row): string
  {
    PadLeft(NatToString(row.percent), 3) + ("% (" +
    (PadLeft(NatToString(row.count), 2) + (" of " +
    (PadLeft(NatToString(row.total), 2) + (", +" +
    (PadLeft(NatToString(row.remaining), 2) + (") " + row.name)))))))
  }

  function Lines(rows: seq<Row>): (lines: seq<string>)
    ensures |lines| == |rows|
    ensures forall i :: 0 <= i < |rows| ==> lines[i] == Line(rows[i])
  {
    seq(|rows|, i requires 0 <= i < |rows| => Line(rows[i]))
  }

  // A reader for the printed line, to show that formatting loses nothing.

  /** A number read from the front of a string, and what follows it. */
  datatype Field = Field(value: nat, rest: string)

  function DropSpaces(s: string): (r: string)
    ensures |r| <= |s| && r == s[|s| - |r|..]
    ensures r == [] || r[0] != ' '
  {
    if s != [] && s[0] == ' ' then DropSpaces(s[1..]) else s
  }

  function DigitRun(s: string): (k: nat)
    ensures k <= |s| && forall i :: 0 <= i < k ==> IsDigit(s[i])
    ensures k == |s| || !IsDigit(s[k])
  {
    if s != [] && IsDigit(s[0]) then 1 + DigitRun(s[1..]) else 0
  }

  /** Skips leading spaces and reads one or more digits. */
  function ReadField(s: string): Option<Field>
  {
    var t := DropSpaces(s);
    var k := DigitRun(t);
    if k == 0 then None else Some(Field(DigitsValue(t[..k]), t[k..]))
  }

  /** Consumes the literal `lit` from the front of s. */
  function Expect(s: string, lit: string): Option<string>
  {
    if |lit| <= |s| && s[..|lit|] == lit then Some(s[|lit|..]) else None
  }

  function ParseLine(line: string): Option<Row>
  {
    var percent :- ReadField(line);
    var r1 :- Expect(percent.rest, "% (");
    var count :- ReadField(r1);
    var r2 :- Expect(count.rest, " of ");
    var total :- ReadField(r2);
    var r3 :- Expect(total.rest, ", +");
    var remaining :- ReadField(r3);
    var name :- Expect(remaining.rest, ") ");
    Some(Row(name, count.value, total.value, percent.value, remaining.value))
  }

  lemma {:induction false} DropSpacesAfterSpaces(k: nat, t: string)
    requires t == [] || t[0] != ' '
    ensures DropSpaces(Spaces(k) + t) == t
  {
    if k > 0 {
      assert (Spaces(k) + t)[1..] == Spaces(k - 1) + t;
      DropSpacesAfterSpaces(k - 1, t);
    }
  }

  lemma {:induction false} DigitRunOfDigits(d: string, rest: string)
    requires forall i :: 0 <= i < |d| ==> IsDigit(d[i])
    requires rest == [] || !IsDigit(rest[0])
    ensures DigitRun(d + rest) == |d|
  {
    if d != [] {
      assert (d + rest)[1..] == d[1..] + rest;
      DigitRunOfDigits(d[1..], rest);
    }
  }

  /** A padded number followed by a non-digit is read back exactly. */
  lemma ReadPaddedField(n: nat, width: nat, rest: string)
    requires rest == [] || !IsDigit(rest[0])
    ensures ReadField(PadLeft(NatToString(n), width) + rest) == Some(Field(n, rest))
  {
    var digits := NatToString(n);
    var k := if |digits| < width then width - |digits| else 0;
    assert PadLeft(digits, width) + rest == Spaces(k) + (digits + rest);
    assert (digits + rest)[0] == digits[0];
    DropSpacesAfterSpaces(k, digits + rest);
    DigitRunOfDigits(digits, rest);
    assert (digits + rest)[..|digits|] == digits;
    assert (digits + rest)[|digits|..] == rest;
    DigitsValueOfNatToString(n);
  }

  lemma ExpectLiteral(lit: string, rest: string)
    ensures Expect(lit + rest, lit) == Some(rest)
  {
    assert (lit + rest)[..|lit|] == lit;
    assert (lit + rest)[|lit|..] == rest;
  }

  /** Every printed line can be read back into the row it was printed from:
      the fields are never truncated and each is delimited. */
  lemma LineRoundTrip(row: Row)
    ensures ParseLine(Line(row)) == Some(row)
  {
    var tail4 := ") " + row.name;
    var tail3 := ", +" + (PadLeft(NatToString(row.remaining), 2) + tail4);
    var tail2 := " of " + (PadLeft(NatToString(row.total), 2) + tail3);
    var tail1 := "% (" + (PadLeft(NatToString(row.count), 2) + tail2);
    assert Line(row) == PadLeft(NatToString(row.percent), 3) + tail1;
    ReadPaddedField(row.percent, 3, tail1);
    ExpectLiteral("% (", PadLeft(NatToString(row.count), 2) + tail2);
    ReadPaddedField(row.count, 2, tail2);
    ExpectLiteral(" of ", PadLeft(NatToString(row.total), 2) + tail3);
    ReadPaddedField(row.total, 2, tail3);
    ExpectLiteral(", +", PadLeft(NatToString(row.remaining), 2) + tail4);
    ReadPaddedField(row.remaining, 2, tail4);
    ExpectLiteral(") ", row.name);
  }
}
