/**
 String helpers that the handlers use implicitly through JavaScript:
 decimal rendering of timestamps (template literals), `String.prototype.includes`,
 `message.replace(/\n/g, '<br>')`, `split(',')[1]` and `Array.prototype.join`.
 */
module Text {
  import opened Options

  predicate IsDigit(c: char) {
    '0' <= c <= '9'
  }

  predicate AllDigits(s: string) {
    forall i :: 0 <= i < |s| ==> IsDigit(s[i])
  }

  function DigitChar(d: nat): (c: char)
    requires d < 10
    ensures IsDigit(c) && c as int - '0' as int == d
  {
    (48 + d) as char
  }

  /** Decimal rendering of a natural number, as a template literal renders `Date.now()`. */
  function NatToString(n: nat): (s: string)
    ensures |s| > 0 && AllDigits(s)
    decreases n
  {
    if n < 10 then [DigitChar(n)] else NatToString(n / 10) + [DigitChar(n % 10)]
  }

  /** Reads a string of decimal digits back as a number: the reference for NatToString. */
  function ParseNat(s: string): nat
    requires AllDigits(s)
    decreases |s|
  {
    if s == [] then 0 else ParseNat(s[..|s| - 1]) * 10 + (s[|s| - 1] as int - '0' as int)
  }

  lemma {:induction false} ParseNatToString(n: nat)
    ensures ParseNat(NatToString(n)) == n
    decreases n
  {
    var s := NatToString(n);
    if n >= 10 {
      ParseNatToString(n / 10);
      assert s[..|s| - 1] == NatToString(n / 10);
    }
  }

  /** Different numbers render differently, so a rendered timestamp identifies its instant. */
  lemma NatToStringInjective(a: nat, b: nat)
    ensures NatToString(a) == NatToString(b) ==> a == b
  {
    ParseNatToString(a);
    ParseNatToString(b);
  }

  /** Decimal rendering of an integer, with a leading minus sign when negative. */
  function IntToString(n: int): string {
    if n < 0 then "-" + NatToString(-n) else NatToString(n)
  }

  /** `part` occurs in `s` at position `i`. */
  predicate OccursAt(s: string, part: string, i: int) {
    0 <= i && i + |part| <= |s| && s[i..i + |part|] == part
  }

  /** `s.includes(part)`, scanning from the left. */
  predicate Contains(s: string, part: string)
    decreases |s|
  {
    |part| <= |s| && (s[..|part|] == part || Contains(s[1..], part))
  }

  lemma {:induction false} ContainsIff(s: string, part: string)
    ensures Contains(s, part) <==> exists i :: OccursAt(s, part, i)
    decreases |s|
  {
    if |part| <= |s| {
      if s != [] {
        ContainsIff(s[1..], part);
      }
      if s[..|part|] == part {
        assert OccursAt(s, part, 0);
      } else if Contains(s[1..], part) {
        var i :| OccursAt(s[1..], part, i);
        assert s[i + 1..i + 1 + |part|] == s[1..][i..i + |part|];
        assert OccursAt(s, part, i + 1);
      }
      if i :| OccursAt(s, part, i) {
        if i > 0 {
          assert s[1..][i - 1..i - 1 + |part|] == s[i..i + |part|];
          assert OccursAt(s[1..], part, i - 1);
        }
      }
    }
  }

  /** The number of times `c` occurs in `s`. */
  function Count(s: string, c: char): nat
    decreases |s|
  {
    if s == [] then 0 else (if s[0] == c then 1 else 0) + Count(s[1..], c)
  }

  /** `s.replace(/\n/g, '<br>')`: every line feed becomes a `<br>` tag, everything else is kept. */
  function NewlinesToBreaks(s: string): (r: string)
    ensures '\n' !in r
    ensures |r| == |s| + 3 * Count(s, '\n')
    decreases |s|
  {
    if s == [] then []
    else (if s[0] == '\n' then "<br>" else [s[0]]) + NewlinesToBreaks(s[1..])
  }

  /** The rewrite works character by character: it distributes over concatenation. */
  lemma {:induction false} NewlinesToBreaksConcat(a: string, b: string)
    ensures NewlinesToBreaks(a + b) == NewlinesToBreaks(a) + NewlinesToBreaks(b)
    decreases |a|
  {
    if a != [] {
      assert (a + b)[1..] == a[1..] + b;
      NewlinesToBreaksConcat(a[1..], b);
    } else {
      assert a + b == b;
    }
  }

  /** A line feed becomes `<br>`: the text before the first line feed is kept, the
      line feed is replaced by the tag, and the rewrite goes on after it. */
  lemma NewlinesToBreaksLine(a: string, b: string)
    requires '\n' !in a
    ensures NewlinesToBreaks(a + "\n" + b) == a + "<br>" + NewlinesToBreaks(b)
  {
    var line := a + "\n";
    NewlinesToBreaksConcat(line, b);
    NewlinesToBreaksConcat(a, "\n");
    NewlinesToBreaksNoNewline(a);
    assert "\n"[1..] == [];
    assert NewlinesToBreaks("\n") == "<br>";
    assert NewlinesToBreaks(line) == a + "<br>";
  }

  /** Text without line feeds is left exactly as it was. */
  lemma {:induction false} NewlinesToBreaksNoNewline(s: string)
    requires '\n' !in s
    ensures NewlinesToBreaks(s) == s
    decreases |s|
  {
    if s != [] {
      assert '\n' !in s[1..];
      NewlinesToBreaksNoNewline(s[1..]);
    }
  }

  /** Position of the first `c` in `s`, or -1: `s.indexOf(c)`. */
  function IndexOf(s: string, c: char): (r: int)
    ensures -1 <= r < |s|
    ensures r == -1 <==> c !in s
    ensures r >= 0 ==> s[r] == c && c !in s[..r]
    decreases |s|
  {
    if s == [] then -1
    else if s[0] == c then 0
    else
      var k := IndexOf(s[1..], c);
      if k == -1 then -1
      else
        assert s[..k + 1] == [s[0]] + s[1..][..k];
        k + 1
  }

  /** `s.split(',')[1]`: the text between the first and the second comma, or after the
      first comma up to the end; None (JavaScript `undefined`) when there is no comma. */
  function SecondField(s: string): (r: Option<string>)
    ensures r.None? <==> ',' !in s
  {
    var i := IndexOf(s, ',');
    if i < 0 then None
    else
      var rest := s[i + 1..];
      var j := IndexOf(rest, ',');
      Some(if j < 0 then rest else rest[..j])
  }

  /** With no comma in `head` or `field`, the second comma-separated field of
      `head + "," + field` (optionally followed by `"," + tail`) is `field`. */
  lemma SecondFieldOf(head: string, field: string, tail: Option<string>)
    requires ',' !in head && ',' !in field
    ensures var s := head + "," + field + (if tail.Some? then "," + tail.value else "");
            SecondField(s) == Some(field)
  {
    var after := if tail.Some? then "," + tail.value else "";
    var s := head + "," + field + after;
    assert s[|head|] == ',';
    assert forall k :: 0 <= k < |head| ==> s[k] == head[k] && s[k] != ',';
    assert s[..|head| + 1] == head + ",";
    var i := IndexOf(s, ',');
    assert i == |head|;
    var rest := s[i + 1..];
    assert rest == field + after;
    assert forall k :: 0 <= k < |field| ==> rest[k] == field[k] && rest[k] != ',';
    if tail.Some? {
      assert rest[|field|] == ',';
      assert rest[..|field| + 1] == field + ",";
      assert IndexOf(rest, ',') == |field|;
      assert rest[..|field|] == field;
    } else {
      assert rest == field;
    }
  }

  /** `parts.join(sep)`. */
  function Join(parts: seq<string>, sep: string): string
    decreases |parts|
  {
    if parts == [] then ""
    else if |parts| == 1 then parts[0]
    else parts[0] + sep + Join(parts[1..], sep)
  }
}
