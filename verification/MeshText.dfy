/** The text conventions of the mesh tools: lines, fields between whitespace, fields between slashes, and integers. */
module MeshText {
  import opened Wrappers

  // The characters that str.split() splits at
  predicate IsSpace(c: char) {
    var n := c as int;
    || 9 <= n <= 13 || 28 <= n <= 32 || n == 0x85 || n == 0xA0 || n == 0x1680 || 0x2000 <= n <= 0x200A
    || n == 0x2028 || n == 0x2029 || n == 0x202F || n == 0x205F || n == 0x3000
  }

  predicate IsField(s: string) {
    s != "" && forall c :: c in s ==> !IsSpace(c)
  }

  function FieldLength(s: string): (n: nat)
    ensures n <= |s| && (forall i :: 0 <= i < n ==> !IsSpace(s[i])) && (n < |s| ==> IsSpace(s[n]))
  {
    if s == "" || IsSpace(s[0]) then 0 else 1 + FieldLength(s[1..])
  }

  // str.split() without arguments
  function Split(s: string): seq<string>
    decreases |s|
  {
    if s == "" then []
    else if IsSpace(s[0]) then Split(s[1..])
    else
      var n := FieldLength(s);
      assert n > 0;
      [s[..n]] + Split(s[n..])
  }

  function Spaced(fields: seq<string>): string {
    if fields == [] then ""
    else if |fields| == 1 then fields[0]
    else fields[0] + " " + Spaced(fields[1..])
  }

  predicate AreFields(fields: seq<string>) {
    forall f :: f in fields ==> IsField(f)
  }

  lemma FirstField(field: string, rest: string)
    requires IsField(field) && (rest == "" || IsSpace(rest[0]))
    ensures Split(field + rest) == [field] + Split(rest)
  {
    hide IsSpace;
    var s := field + rest;
    var n := FieldLength(s);
    assert forall i :: 0 <= i < |field| ==> s[i] == field[i];
    assert rest != "" ==> s[|field|] == rest[0];
    assert n == |field|;
    assert s[..n] == field && s[n..] == rest;
  }

  lemma {:induction false} SplitSpaced(fields: seq<string>)
    requires AreFields(fields)
    ensures Split(Spaced(fields)) == fields
  {
    hide IsSpace;
    if |fields| == 1 {
      FirstField(fields[0], "");
      assert fields[0] + "" == fields[0];
    } else if fields != [] {
      var rest := " " + Spaced(fields[1..]);
      assert IsSpace(rest[0]) by { SpaceIsSpace(); }
      FirstField(fields[0], rest);
      assert fields[0] + rest == Spaced(fields);
      assert rest[1..] == Spaced(fields[1..]);
      SplitSpaced(fields[1..]);
    }
  }

  lemma SpaceIsSpace()
    ensures IsSpace(' ') && IsSpace('\n') && IsSpace('\r')
  {
  }

  // Splitting at one character
  function SplitAt(s: string, c: char): (parts: seq<string>)
    ensures parts != []
  {
    if s == "" then [""]
    else if s[0] == c then [""] + SplitAt(s[1..], c)
    else
      var parts := SplitAt(s[1..], c);
      [[s[0]] + parts[0]] + parts[1..]
  }

  lemma {:induction false} SplitAtWhole(s: string, c: char)
    requires c !in s
    ensures SplitAt(s, c) == [s]
  {
    if s != "" {
      SplitAtWhole(s[1..], c);
      assert [s[0]] + s[1..] == s;
    }
  }

  lemma {:induction false} SplitAtFirst(s: string, c: char, rest: string)
    requires c !in s
    ensures SplitAt(s + [c] + rest, c) == [s] + SplitAt(rest, c)
  {
    var all := s + [c] + rest;
    if s == "" {
      assert all[1..] == rest;
    } else {
      SplitAtFirst(s[1..], c, rest);
      assert all[1..] == s[1..] + [c] + rest;
      assert [s[0]] + s[1..] == s;
    }
  }

  // Reading a file in text mode: every line ending becomes a line feed, and the lines are what is between them.
  function Universal(s: string): string
    decreases |s|
  {
    if s == "" then ""
    else if s[0] == '\r' then "\n" + Universal(if |s| > 1 && s[1] == '\n' then s[2..] else s[1..])
    else [s[0]] + Universal(s[1..])
  }

  lemma {:induction false} UniversalKeeps(s: string)
    requires '\r' !in s
    ensures Universal(s) == s
  {
    if s != "" {
      UniversalKeeps(s[1..]);
    }
  }

  // The last piece is a line too unless it is empty.
  function Lines(text: string): seq<string> {
    var parts := SplitAt(Universal(text), '\n');
    if parts[|parts| - 1] == "" then parts[..|parts| - 1] else parts
  }

  function Joined(lines: seq<string>): string {
    if lines == [] then "" else Joined(lines[..|lines| - 1]) + lines[|lines| - 1] + "\n"
  }

  predicate IsLine(s: string) {
    '\n' !in s && '\r' !in s
  }

  predicate AreLines(lines: seq<string>) {
    forall s :: s in lines ==> IsLine(s)
  }

  lemma {:induction false} SplitJoined(lines: seq<string>, rest: string)
    requires AreLines(lines)
    ensures SplitAt(Joined(lines) + rest, '\n') == lines + SplitAt(rest, '\n')
  {
    hide SplitAt;
    if lines == [] {
      assert Joined(lines) + rest == rest;
    } else {
      var (front, last) := (lines[..|lines| - 1], lines[|lines| - 1]);
      assert AreLines(front) && last in lines;
      SplitJoined(front, last + ['\n'] + rest);
      assert Joined(lines) + rest == Joined(front) + (last + ['\n'] + rest);
      SplitAtFirst(last, '\n', rest);
      assert lines == front + [last];
    }
  }

  lemma {:induction false} NoReturns(lines: seq<string>)
    requires AreLines(lines)
    ensures '\r' !in Joined(lines)
  {
    if lines != [] {
      assert lines[|lines| - 1] in lines;
      NoReturns(lines[..|lines| - 1]);
    }
  }

  lemma LinesOfJoined(lines: seq<string>)
    requires AreLines(lines)
    ensures Lines(Joined(lines)) == lines
  {
    NoReturns(lines);
    UniversalKeeps(Joined(lines));
    SplitJoined(lines, "");
    assert Joined(lines) + "" == Joined(lines);
    assert SplitAt("", '\n') == [""];
    assert (lines + [""])[..|lines|] == lines;
  }

  lemma {:induction false} JoinedConcat(a: seq<string>, b: seq<string>)
    ensures Joined(a + b) == Joined(a) + Joined(b)
  {
    if b == [] {
      assert a + b == a;
    } else {
      var front, last := b[..|b| - 1], b[|b| - 1];
      JoinedConcat(a, front);
      assert (a + b)[..|a + b| - 1] == a + front;
      Regrouped(Joined(a), Joined(front), last);
      Regrouped(Joined(a), Joined(front) + last, "\n");
    }
  }

  // Decimal integers
  function Digit(d: nat): (c: char)
    requires d < 10
    ensures DigitValue(c) == Some(d)
  {
    "0123456789"[d]
  }

  function DigitValue(c: char): Option<nat> {
    if '0' <= c <= '9' then Some(c as int - '0' as int) else None
  }

  function Decimal(n: nat): string {
    if n < 10 then [Digit(n)] else Decimal(n / 10) + [Digit(n % 10)]
  }

  function PrintInt(v: int): string {
    if v < 0 then "-" + Decimal(-v) else Decimal(v)
  }

  // The digits that int() accepts: single underscores may stand between them.
  function Number(s: string): Option<nat> {
    if s == "" then None else
      var d :- DigitValue(s[|s| - 1]);
      if |s| == 1 then Some(d) else
        var higher :- Number(if s[|s| - 2] == '_' then s[..|s| - 2] else s[..|s| - 1]);
        Some(10 * higher + d)
  }

  function Negated(n: Option<int>): Option<int> {
    if n.None? then None else Some(-n.value)
  }

  function ParseInt(s: string): Option<int> {
    if s != "" && s[0] == '-' then
      Negated(Number(s[1..]))
    else if s != "" && s[0] == '+' then Number(s[1..])
    else Number(s)
  }

  predicate AreDigits(s: string) {
    s != "" && forall c :: c in s ==> '0' <= c <= '9'
  }

  lemma {:induction false} NumberOfDecimal(n: nat)
    ensures AreDigits(Decimal(n)) && Number(Decimal(n)) == Some(n)
  {
    if n >= 10 {
      var (s, front) := (Decimal(n), Decimal(n / 10));
      NumberOfDecimal(n / 10);
      assert s[..|s| - 1] == front && s[|s| - 2] == front[|front| - 1];
    }
  }

  predicate IsIntText(s: string) {
    s != "" && forall c :: c in s ==> c == '-' || '0' <= c <= '9'
  }

  lemma ParsePrinted(v: int)
    ensures IsIntText(PrintInt(v)) && ParseInt(PrintInt(v)) == Some(v)
  {
    hide Number, Decimal;
    var n := if v < 0 then -v else v;
    NumberOfDecimal(n);
    assert Decimal(n)[0] in Decimal(n);
    assert v < 0 ==> PrintInt(v)[1..] == Decimal(n);
  }
}
