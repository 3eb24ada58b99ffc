/** The string operations of the standard library that the plugin handshake uses. */
module Text {
  import opened Common

  // ---------------------------------------------------------------- trimming

  /** The Unicode White_Space property, which `trim` goes by. */
  predicate IsWhitespace(c: char) {
    || '\t' <= c <= '\r' || c == ' ' || c == '\U{0085}' || c == '\U{00A0}' || c == '\U{1680}'
    || '\U{2000}' <= c <= '\U{200A}' || c == '\U{2028}' || c == '\U{2029}' || c == '\U{202F}'
    || c == '\U{205F}' || c == '\U{3000}'
  }

  function TrimStart(s: string): string {
    if s != "" && IsWhitespace(s[0]) then TrimStart(s[1..]) else s
  }

  function TrimEnd(s: string): (r: string)
    ensures |r| <= |s|
    ensures r == "" || !IsWhitespace(r[|r| - 1])
  {
    if s != "" && IsWhitespace(s[|s| - 1]) then TrimEnd(s[..|s| - 1]) else s
  }

  function Trim(s: string): string { TrimEnd(TrimStart(s)) }

  /** Trimming stops at a character that is not white. */
  lemma {:induction false} TrimEndAfter(p: string, s: string)
    requires p != "" && !IsWhitespace(p[|p| - 1])
    ensures TrimEnd(p + s) == p + TrimEnd(s)
    decreases |s|
  {
    if s == "" {
      assert p + s == p;
    } else if IsWhitespace(s[|s| - 1]) {
      TrimEndAfter(p, s[..|s| - 1]);
      assert (p + s)[..|p + s| - 1] == p + s[..|s| - 1];
    }
  }

  lemma TrimDropsLineBreak(s: string)
    requires s != "" && !IsWhitespace(s[0])
    ensures Trim(s + ['\n']) == Trim(s)
  {
    assert (s + ['\n'])[0] == s[0] && (s + ['\n'])[..|s|] == s;
  }

  lemma {:induction false} TrimStartBefore(b: string, e: string)
    requires e != "" && !IsWhitespace(e[0])
    ensures TrimStart(b + e) == TrimStart(b) + e
  {
    if b == "" {
      assert b + e == e;
    } else {
      assert (b + e)[0] == b[0] && (b + e)[1..] == b[1..] + e;
      if IsWhitespace(b[0]) {
        TrimStartBefore(b[1..], e);
      }
    }
  }

  lemma TrimEndOfGlue(c: string, e: string, rest: string)
    requires e != "" && !IsWhitespace(e[0]) && rest == e[1..]
    ensures TrimEnd(c + e) == c + TrimEnd(e)
  {
    var head := [e[0]];
    TrimEndAfter(c + head, rest);
    TrimEndAfter(head, rest);
    assert e == head + rest;
    assert c + (head + rest) == (c + head) + rest;
    assert c + (head + TrimEnd(rest)) == (c + head) + TrimEnd(rest);
  }

  /** Trimming the whole trims the front of what comes before. */
  lemma {:induction false} TrimGlued(b: string, e: string)
    requires e != "" && !IsWhitespace(e[0])
    ensures Trim(b + e) == TrimStart(b) + Trim(e)
  {
    TrimStartBefore(b, e);
    TrimEndOfGlue(TrimStart(b), e, e[1..]);
  }

  lemma {:induction false} TrimEndKeeps(s: string, c: char)
    requires c !in s
    ensures c !in TrimEnd(s)
  {
    if s != "" && IsWhitespace(s[|s| - 1]) {
      TrimEndKeeps(s[..|s| - 1], c);
    }
  }

  /** A line without breaks, trimmed with the break at its end, has none. */
  lemma {:induction false} TrimmedLine(s: string)
    requires '\n' !in s
    ensures '\n' !in Trim(s + ['\n'])
  {
    if s == "" {
      assert TrimStart("" + ['\n']) == "";
    } else if IsWhitespace(s[0]) {
      assert (s + ['\n'])[1..] == s[1..] + ['\n'];
      TrimmedLine(s[1..]);
    } else {
      TrimDropsLineBreak(s);
      TrimEndKeeps(s, '\n');
    }
  }

  lemma TrimmedAlready(s: string)
    requires s != "" && !IsWhitespace(s[0]) && !IsWhitespace(s[|s| - 1])
    ensures Trim(s) == s
  {
  }

  predicate AllWhite(s: string) { forall c <- s :: IsWhitespace(c) }

  lemma {:induction false} TrimStartStrips(s: string) returns (front: string)
    ensures s == front + TrimStart(s) && AllWhite(front)
    ensures TrimStart(s) == "" || !IsWhitespace(TrimStart(s)[0])
  {
    if s != "" && IsWhitespace(s[0]) {
      var rest := TrimStartStrips(s[1..]);
      front := [s[0]] + rest;
      assert s == [s[0]] + s[1..];
    } else {
      front := "";
    }
  }

  lemma {:induction false} TrimEndStrips(s: string) returns (back: string)
    ensures s == TrimEnd(s) + back && AllWhite(back)
  {
    if s != "" && IsWhitespace(s[|s| - 1]) {
      var rest := TrimEndStrips(s[..|s| - 1]);
      back := rest + [s[|s| - 1]];
      assert s == s[..|s| - 1] + [s[|s| - 1]];
    } else {
      back := "";
    }
  }

  /** Trimming takes white space, and all of it, off both ends. */
  lemma TrimStrips(s: string) returns (front: string, back: string)
    ensures s == front + Trim(s) + back && AllWhite(front) && AllWhite(back)
    ensures Trim(s) == "" || (!IsWhitespace(Trim(s)[0]) && !IsWhitespace(Trim(s)[|Trim(s)| - 1]))
  {
    front := TrimStartStrips(s);
    back := TrimEndStrips(TrimStart(s));
    assert front + (Trim(s) + back) == front + Trim(s) + back;
  }

  // ---------------------------------------------------------------- splitting and joining

  /** `s.split(sep)`: at least one part. */
  function Split(s: string, sep: char): (parts: seq<string>)
    ensures parts != []
  {
    if s == "" then [""]
    else
      var rest := Split(s[1..], sep);
      if s[0] == sep then [""] + rest else [[s[0]] + rest[0]] + rest[1..]
  }

  /** `parts.join(sep)`. */
  function Join(parts: seq<string>, sep: char): string {
    if parts == [] then ""
    else if |parts| == 1 then parts[0]
    else parts[0] + [sep] + Join(parts[1..], sep)
  }

  /** What stands before the whole stands before its first part. */
  lemma JoinGlued(front: string, parts: seq<string>, sep: char)
    requires parts != []
    ensures front + Join(parts, sep) == Join(parts[0 := front + parts[0]], sep)
  {
    var glued := parts[0 := front + parts[0]];
    assert glued[1..] == parts[1..];
    if |parts| > 1 {
      assert front + (parts[0] + [sep] + Join(parts[1..], sep)) == (front + parts[0]) + [sep] + Join(parts[1..], sep);
    }
  }

  lemma {:induction false} SplitWithout(s: string, sep: char)
    requires sep !in s
    ensures Split(s, sep) == [s]
  {
    if s != "" {
      SplitWithout(s[1..], sep);
      assert s == [s[0]] + s[1..];
    }
  }

  lemma {:induction false} SplitAt(s: string, sep: char, t: string)
    requires sep !in s
    ensures Split(s + [sep] + t, sep) == [s] + Split(t, sep)
  {
    var whole := s + [sep] + t;
    if s == "" {
      assert whole[1..] == t;
    } else {
      SplitAt(s[1..], sep, t);
      assert whole[1..] == s[1..] + [sep] + t;
      assert s == [s[0]] + s[1..];
    }
  }

  /** Splitting undoes joining when no part contains the separator. */
  lemma {:induction false} SplitUndoesJoin(parts: seq<string>, sep: char)
    requires parts != [] && forall p <- parts :: sep !in p
    ensures Split(Join(parts, sep), sep) == parts
  {
    if |parts| == 1 {
      SplitWithout(parts[0], sep);
    } else {
      SplitUndoesJoin(parts[1..], sep);
      SplitAt(parts[0], sep, Join(parts[1..], sep));
    }
  }

  lemma {:induction false} PartsHaveNoSeparator(s: string, sep: char)
    ensures forall p <- Split(s, sep) :: sep !in p
  {
    if s != "" {
      PartsHaveNoSeparator(s[1..], sep);
    }
  }

  lemma {:induction false} PartsWithin(s: string, sep: char, c: char)
    requires c !in s
    ensures forall p <- Split(s, sep) :: c !in p
  {
    if s != "" {
      PartsWithin(s[1..], sep, c);
    }
  }

  lemma {:induction false} JoinWithout(parts: seq<string>, sep: char, c: char)
    requires c != sep && forall p <- parts :: c !in p
    ensures c !in Join(parts, sep)
  {
    if |parts| > 1 {
      JoinWithout(parts[1..], sep, c);
    }
  }

  lemma {:induction false} JoinAppend(parts: seq<string>, last: string, sep: char)
    requires parts != []
    ensures Join(parts + [last], sep) == Join(parts, sep) + [sep] + last
  {
    if |parts| == 1 {
      assert (parts + [last])[1..] == [last];
    } else {
      JoinAppend(parts[1..], last, sep);
      assert (parts + [last])[1..] == parts[1..] + [last];
      assert parts[0] + [sep] + (Join(parts[1..], sep) + [sep] + last)
          == parts[0] + [sep] + Join(parts[1..], sep) + [sep] + last;
    }
  }

  // ---------------------------------------------------------------- decimal numbers

  predicate IsDigit(c: char) { '0' <= c <= '9' }

  function DigitValue(c: char): nat
    requires IsDigit(c)
  {
    c as int - '0' as int
  }

  function Digit(d: nat): (c: char)
    requires d < 10
    ensures IsDigit(c) && DigitValue(c) == d
  {
    '0' + d as char
  }

  /** `n.to_string()`. */
  function Decimal(n: nat): (s: string)
    ensures s != "" && forall c <- s :: IsDigit(c)
  {
    if n < 10 then [Digit(n)] else Decimal(n / 10) + [Digit(n % 10)]
  }

  function Number(s: string): Option<nat> {
    if s == "" then Some(0)
    else
      match Number(s[..|s| - 1])
      case Some(n) => if IsDigit(s[|s| - 1]) then Some(n * 10 + DigitValue(s[|s| - 1])) else None
      case None => None
  }

  /** `s.parse::<u32>()`: an optional '+', then at least one digit, leading zeros allowed, and the value must fit. */
  function ParseU32(s: string): Option<u32> {
    var digits := if s != "" && s[0] == '+' then s[1..] else s;
    if digits == "" then None
    else
      match Number(digits)
      case Some(n) => if n < TWO_TO_THE_32 then Some(n) else None
      case None => None
  }

  lemma {:induction false} NumberOfDecimal(n: nat)
    ensures Number(Decimal(n)) == Some(n)
  {
    if n < 10 {
      assert [Digit(n)][..0] == "";
    } else {
      NumberOfDecimal(n / 10);
      assert Decimal(n)[..|Decimal(n)| - 1] == Decimal(n / 10);
    }
  }

  /** Parsing undoes printing. */
  lemma {:induction false} ParseUndoesDecimal(n: u32)
    ensures ParseU32(Decimal(n)) == Some(n)
  {
    NumberOfDecimal(n);
    assert IsDigit(Decimal(n)[0]);
  }

  lemma {:induction false} ZeroInFront(s: string)
    ensures Number(['0'] + s) == Number(s)
  {
    var t := ['0'] + s;
    if s == "" {
      assert t[..0] == "";
    } else {
      ZeroInFront(s[..|s| - 1]);
      assert t[..|t| - 1] == ['0'] + s[..|s| - 1] && t[|t| - 1] == s[|s| - 1];
    }
  }

  lemma {:induction false} NoNumber(s: string, i: nat)
    requires i < |s| && !IsDigit(s[i])
    ensures Number(s) == None
  {
    if i < |s| - 1 {
      NoNumber(s[..|s| - 1], i);
    }
  }

  /** A sign and leading zeros do not change the value; a second sign, and no digits at all, are refused. */
  lemma SignAndZeros(s: string)
    ensures s != "" && s[0] != '+' ==> ParseU32(['+'] + s) == ParseU32(s) == ParseU32(['0'] + s)
    ensures ParseU32("") == None && ParseU32("+") == None && ParseU32("++" + s) == None
  {
    assert (['+'] + s)[1..] == s && "+"[1..] == "";
    ZeroInFront(s);
    assert ("++" + s)[1..] == ['+'] + s;
    NoNumber(['+'] + s, 0);
  }

  /** Exactly what is a number: digits only. */
  lemma {:induction false} NumberExactly(s: string)
    ensures Number(s).Some? <==> forall c <- s :: IsDigit(c)
  {
    if s != "" {
      NumberExactly(s[..|s| - 1]);
      assert s == s[..|s| - 1] + [s[|s| - 1]];
    }
  }

  /** Printed numbers are neither trimmed nor split. */
  lemma DecimalIsPlain(n: nat, sep: char)
    requires !IsDigit(sep)
    ensures Trim(Decimal(n)) == Decimal(n) && sep !in Decimal(n)
  {
    var s := Decimal(n);
    assert IsDigit(s[0]) && IsDigit(s[|s| - 1]);
    TrimmedAlready(s);
  }
}
