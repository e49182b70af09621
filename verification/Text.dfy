/** The string operations of the Go standard library the service relies on:
    decimal rendering, splitting on a separator and replacing a pattern. */
module Text {
  import opened Wrappers

  // ---------------------------------------------------------------- decimals

  predicate IsDigit(c: char) {
    '0' <= c <= '9'
  }

  function Digit(d: nat): (c: char)
    requires d < 10
    ensures IsDigit(c) && DigitValue(c) == d
  {
    ['0', '1', '2', '3', '4', '5', '6', '7', '8', '9'][d]
  }

  function DigitValue(c: char): (v: nat)
    requires IsDigit(c)
    ensures v < 10
  {
    c as int - '0' as int
  }

  /** The %d rendering of a non-negative integer. */
  function Decimal(n: nat): string {
    if n < 10 then [Digit(n)] else Decimal(n / 10) + [Digit(n % 10)]
  }

  /** A rendering is made of digits, has no leading zero, and is as long as the number is wide. */
  lemma {:induction false} DecimalShape(n: nat)
    ensures Decimal(n) != []
    ensures forall c :: c in Decimal(n) ==> IsDigit(c)
    ensures Decimal(n)[0] == '0' ==> n == 0 && |Decimal(n)| == 1
    ensures n < 10 ==> |Decimal(n)| == 1
    ensures n < 100 ==> |Decimal(n)| <= 2
    ensures n < 1000 ==> |Decimal(n)| <= 3
  {
    if n >= 10 {
      DecimalShape(n / 10);
    }
  }

  /** Reading a string of digits; nothing when it is empty or holds another character. */
  function ParseDecimal(s: string): Option<nat> {
    if s == [] || !IsDigit(s[|s| - 1]) then None
    else if |s| == 1 then Some(DigitValue(s[0]))
    else match ParseDecimal(s[..|s| - 1])
      case None => None
      case Some(high) => Some(10 * high + DigitValue(s[|s| - 1]))
  }

  lemma {:induction false} DecimalRoundTrip(n: nat)
    ensures ParseDecimal(Decimal(n)) == Some(n)
  {
    if n >= 10 {
      DecimalShape(n / 10);
      DecimalRoundTrip(n / 10);
      assert Decimal(n)[..|Decimal(n)| - 1] == Decimal(n / 10);
    }
  }

  /** A digit string without a leading zero is the rendering of what it parses to. */
  lemma {:induction false} ParsedIsRendered(s: string)
    requires ParseDecimal(s).Some? && (s[0] == '0' ==> |s| == 1)
    ensures s == Decimal(ParseDecimal(s).value)
    ensures |s| > 1 ==> ParseDecimal(s).value >= 10
  {
    if |s| > 1 {
      var head, last := s[..|s| - 1], s[|s| - 1];
      assert head[0] == s[0];
      LeadingDigit(head);
      ParsedIsRendered(head);
      var v := ParseDecimal(s).value;
      assert v / 10 == ParseDecimal(head).value && v % 10 == DigitValue(last);
      assert Digit(DigitValue(last)) == last;
      assert s == head + [last];
    } else {
      assert s == [s[0]] && Digit(DigitValue(s[0])) == s[0];
    }
  }

  lemma {:induction false} LeadingDigit(s: string)
    requires ParseDecimal(s).Some?
    ensures IsDigit(s[0]) && (s[0] != '0' ==> ParseDecimal(s).value > 0)
  {
    if |s| > 1 { LeadingDigit(s[..|s| - 1]); }
  }

  // ------------------------------------------------------- split and join

  /** strings.Split for a one-character separator. */
  function Split(s: string, sep: char): (parts: seq<string>)
    ensures parts != []
  {
    if s == [] then [[]]
    else
      var rest := Split(s[1..], sep);
      if s[0] == sep then [[]] + rest else [[s[0]] + rest[0]] + rest[1..]
  }

  /** strings.Join for a one-character separator. */
  function Join(parts: seq<string>, sep: char): string
    requires parts != []
  {
    if |parts| == 1 then parts[0] else parts[0] + [sep] + Join(parts[1..], sep)
  }

  lemma {:induction false} SplitWhole(s: string, sep: char)
    requires sep !in s
    ensures Split(s, sep) == [s]
  {
    if s != [] {
      SplitWhole(s[1..], sep);
      assert [s[0]] + s[1..] == s;
    }
  }

  lemma {:induction false} SplitFirst(head: string, tail: string, sep: char)
    requires sep !in head
    ensures Split(head + [sep] + tail, sep) == [head] + Split(tail, sep)
  {
    var whole := head + [sep] + tail;
    if head == [] {
      assert whole[1..] == tail;
    } else {
      SplitFirst(head[1..], tail, sep);
      assert whole[1..] == head[1..] + [sep] + tail;
      assert [head[0]] + head[1..] == head;
    }
  }

  lemma {:induction false} SplitJoinRoundTrip(parts: seq<string>, sep: char)
    requires parts != []
    requires forall p :: p in parts ==> sep !in p
    ensures Split(Join(parts, sep), sep) == parts
  {
    if |parts| == 1 {
      SplitWhole(parts[0], sep);
    } else {
      SplitFirst(parts[0], Join(parts[1..], sep), sep);
      SplitJoinRoundTrip(parts[1..], sep);
      assert [parts[0]] + parts[1..] == parts;
    }
  }

  /** Joining what a split gives is the text again. */
  lemma {:induction false} JoinSplitRoundTrip(s: string, sep: char)
    ensures Join(Split(s, sep), sep) == s
  {
    if s != [] {
      var rest := Split(s[1..], sep);
      JoinSplitRoundTrip(s[1..], sep);
      if s[0] == sep {
        assert ([[]] + rest)[1..] == rest;
      } else {
        assert ([[s[0]] + rest[0]] + rest[1..])[1..] == rest[1..];
      }
      assert s == [s[0]] + s[1..];
    }
  }
}
