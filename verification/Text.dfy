// The string operations the manifest reader and writer use: trimming, splitting into lines, decimal
// numbers, and quotes doubled inside quotes (section 7.3.2 of YAML 1.2.2).
module Text {
  import opened Prelude

  // --- White space ---

  predicate IsTerminator(c: char) {
    c == '\n' || c == '\r' || c == '\U{2028}' || c == '\U{2029}'
  }

  // What `trim` removes and `\s` matches.
  predicate IsSpace(c: char) {
    || IsTerminator(c)
    || c == '\t' || c == '\U{0B}' || c == '\U{0C}' || c == ' ' || c == '\U{A0}'
    || c == '\U{1680}' || '\U{2000}' <= c <= '\U{200A}'
    || c == '\U{202F}' || c == '\U{205F}' || c == '\U{3000}' || c == '\U{FEFF}'
  }

  // `.+` can match all of it.
  predicate OneLine(s: string) {
    forall i :: 0 <= i < |s| ==> !IsTerminator(s[i])
  }

  function TrimEnd(s: string): (t: string)
    ensures t <= s && (t != [] ==> !IsSpace(t[|t| - 1]))
  {
    if s != [] && IsSpace(s[|s| - 1]) then TrimEnd(s[..|s| - 1]) else s
  }

  function TrimStart(s: string): (t: string)
    ensures |t| <= |s| && t == s[|s| - |t|..] && (t != [] ==> !IsSpace(t[0]))
  {
    if s != [] && IsSpace(s[0]) then TrimStart(s[1..]) else s
  }

  function Trim(s: string): string {
    TrimStart(TrimEnd(s))
  }

  predicate IsTrimmed(s: string) {
    s == [] || (!IsSpace(s[0]) && !IsSpace(s[|s| - 1]))
  }

  lemma TrimIsTrimmed(s: string)
    ensures IsTrimmed(Trim(s)) && (OneLine(s) ==> OneLine(Trim(s)))
  {
    var t := TrimEnd(s);
    assert Trim(s) == t[|t| - |Trim(s)|..];
  }

  lemma TrimmedStays(s: string)
    requires IsTrimmed(s)
    ensures Trim(s) == s && TrimEnd(s) == s && TrimStart(s) == s
  {
  }

  lemma {:induction false} TrimEndOfSum(a: string, b: string)
    ensures TrimEnd(a + b) == if TrimEnd(b) == [] then TrimEnd(a) else a + TrimEnd(b)
    decreases |b|
  {
    if b == [] {
      assert a + b == a;
    } else {
      assert (a + b)[|a + b| - 1] == b[|b| - 1] && (a + b)[..|a + b| - 1] == a + b[..|b| - 1];
      if IsSpace(b[|b| - 1]) {
        TrimEndOfSum(a, b[..|b| - 1]);
      }
    }
  }

  lemma TrimEndBlank(s: string)
    ensures Trim(s) == [] <==> TrimEnd(s) == []
  {
    var t := TrimEnd(s);
    if t != [] {
      assert Trim(s) == t[|t| - |Trim(s)|..];
      TrimStartKeepsEnd(t);
    }
  }

  lemma {:induction false} TrimStartKeepsEnd(t: string)
    requires t != [] && !IsSpace(t[|t| - 1])
    ensures TrimStart(t) != []
    decreases |t|
  {
    if IsSpace(t[0]) {
      TrimStartKeepsEnd(t[1..]);
    }
  }

  // --- Lines ---

  function IndexOf(s: string, c: char): (i: nat)
    ensures i <= |s| && (forall j :: 0 <= j < i ==> s[j] != c) && (i < |s| ==> s[i] == c)
  {
    if s == [] || s[0] == c then 0 else IndexOf(s[1..], c) + 1
  }

  // `split(/\r?\n/)`
  function Split(s: string): (lines: seq<string>)
    ensures lines != [] && forall i :: 0 <= i < |lines| ==> '\n' !in lines[i]
  {
    var i := IndexOf(s, '\n');
    if i == |s| then [s] else [WithoutReturn(s[..i])] + Split(s[i + 1..])
  }

  function WithoutReturn(s: string): (t: string)
    ensures t <= s
  {
    if s != [] && s[|s| - 1] == '\r' then s[..|s| - 1] else s
  }

  // `join("\n")`
  function Join(lines: seq<string>): string {
    if lines == [] then []
    else if |lines| == 1 then lines[0]
    else lines[0] + "\n" + Join(lines[1..])
  }

  // Splitting undoes joining for lines that hold no line break of their own.
  lemma {:induction false} SplitJoin(lines: seq<string>)
    requires lines != [] && forall i :: 0 <= i < |lines| ==> OneLine(lines[i])
    ensures Split(Join(lines)) == lines
  {
    var first := lines[0];
    var i := IndexOf(Join(lines), '\n');
    if |lines| == 1 {
      assert i == |first|;
      assert lines == [first];
    } else {
      var s := Join(lines);
      assert s[|first|] == '\n' && s[..|first|] == first && s[|first| + 1..] == Join(lines[1..]);
      assert forall j :: 0 <= j < |first| ==> s[j] == first[j];
      assert i == |first|;
      SplitJoin(lines[1..]);
      assert WithoutReturn(first) == first;
    }
  }

  // --- Numbers ---

  predicate IsDigit(c: char) {
    '0' <= c <= '9'
  }

  predicate IsDigits(s: string) {
    s != [] && forall i :: 0 <= i < |s| ==> IsDigit(s[i])
  }

  function Digit(n: nat): (c: char)
    requires n < 10
    ensures IsDigit(c) && DigitValue(c) == n
  {
    '0' + n as char
  }

  function DigitValue(c: char): nat
    requires IsDigit(c)
  {
    c as int - '0' as int
  }

  function Decimal(n: nat): (s: string)
    ensures IsDigits(s)
  {
    if n < 10 then [Digit(n)] else Decimal(n / 10) + [Digit(n % 10)]
  }

  function DecimalValue(s: string): nat
    requires forall i :: 0 <= i < |s| ==> IsDigit(s[i])
  {
    if s == [] then 0 else 10 * DecimalValue(s[..|s| - 1]) + DigitValue(s[|s| - 1])
  }

  lemma {:induction false} DecimalRoundTrip(n: nat)
    ensures DecimalValue(Decimal(n)) == n
  {
    if n < 10 {
      assert DecimalValue([Digit(n)]) == 10 * DecimalValue([]) + n;
    } else {
      DecimalRoundTrip(n / 10);
      assert Decimal(n)[..|Decimal(n)| - 1] == Decimal(n / 10);
    }
  }

  // --- Quotes ---

  function Double(s: string): string {
    if s == [] then [] else (if s[0] == '\'' then "''" else [s[0]]) + Double(s[1..])
  }

  // `replace(/''/g, "'")`
  function Undouble(s: string): (t: string)
    ensures OneLine(s) ==> OneLine(t)
  {
    if s == [] then []
    else if |s| >= 2 && s[0] == s[1] == '\'' then "'" + Undouble(s[2..])
    else [s[0]] + Undouble(s[1..])
  }

  lemma {:induction false} UndoubleDouble(s: string)
    ensures Undouble(Double(s)) == s
  {
    if s != [] {
      var d := Double(s[1..]);
      UndoubleDouble(s[1..]);
      if s[0] == '\'' {
        assert Double(s)[2..] == d;
      } else {
        assert Double(s)[1..] == d;
      }
      assert s == [s[0]] + s[1..];
    }
  }

  lemma {:induction false} DoubleOneLine(s: string)
    ensures OneLine(Double(s)) <==> OneLine(s)
  {
    if s != [] {
      DoubleOneLine(s[1..]);
      var d, head := Double(s[1..]), if s[0] == '\'' then "''" else [s[0]];
      OneLineSum(head, d);
      OneLineSum([s[0]], s[1..]);
      assert s == [s[0]] + s[1..];
    }
  }

  lemma OneLineSum(a: string, b: string)
    ensures OneLine(a + b) <==> OneLine(a) && OneLine(b)
  {
    if OneLine(a + b) {
      forall i | 0 <= i < |a| ensures !IsTerminator(a[i]) {
        assert a[i] == (a + b)[i];
      }
      forall i | 0 <= i < |b| ensures !IsTerminator(b[i]) {
        assert b[i] == (a + b)[|a| + i];
      }
    }
  }

  predicate IsQuoted(s: string) {
    |s| >= 2 && s[0] == '\'' && s[|s| - 1] == '\''
  }

  function Quote(s: string): (q: string)
    ensures IsQuoted(q)
  {
    "'" + Double(s) + "'"
  }

  function Unquote(s: string): string
    requires IsQuoted(s)
  {
    Undouble(s[1..|s| - 1])
  }

  lemma UnquoteQuote(s: string)
    ensures Unquote(Quote(s)) == s && IsTrimmed(Quote(s)) && (OneLine(Quote(s)) <==> OneLine(s))
  {
    UndoubleDouble(s);
    DoubleOneLine(s);
    assert Quote(s)[1..|Quote(s)| - 1] == Double(s);
    OneLineSum("'", Double(s));
    OneLineSum("'" + Double(s), "'");
  }
}
