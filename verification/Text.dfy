/** Strings as the programs read and write them: splitting and joining, prefixes, decimals. */
module Text {
  import opened Numbers

  // ------------------------------------------------------------------ splitting and joining

  /** The pieces of s between occurrences of c; always at least one. */
  function Split(s: string, c: char): (parts: seq<string>)
    ensures parts != []
  {
    if s == "" then [""]
    else
      var rest := Split(s[1..], c);
      if s[0] == c then [""] + rest else rest[0 := [s[0]] + rest[0]]
  }

  function Join(parts: seq<string>, c: char): string {
    if parts == [] then "" else if |parts| == 1 then parts[0] else parts[0] + [c] + Join(parts[1..], c)
  }

  lemma {:induction false} SplitNone(s: string, c: char)
    requires c !in s
    ensures Split(s, c) == [s]
  {
    if s != "" {
      SplitNone(s[1..], c);
      assert [s[0]] + s[1..] == s;
    }
  }

  /** A separator between two strings separates their pieces. */
  lemma {:induction false} SplitAt(s: string, c: char, t: string)
    ensures Split(s + [c] + t, c) == Split(s, c) + Split(t, c)
  {
    var whole := s + [c] + t;
    if s == "" {
      assert whole[1..] == t;
    } else {
      SplitAt(s[1..], c, t);
      assert whole[1..] == s[1..] + [c] + t && whole[0] == s[0];
      var front, back := Split(s[1..], c), Split(t, c);
      if s[0] == c {
        assert [""] + (front + back) == ([""] + front) + back;
      } else {
        var first := [s[0]] + front[0];
        assert (front + back)[0 := first] == front[0 := first] + back;
      }
    }
  }

  /** Pieces free of the separator come back from their join, each as it was. */
  lemma {:induction false} SplitJoin(parts: seq<string>, c: char)
    requires parts != [] && forall i :: 0 <= i < |parts| ==> c !in parts[i]
    ensures Split(Join(parts, c), c) == parts
  {
    if |parts| == 1 {
      SplitNone(parts[0], c);
    } else {
      SplitJoin(parts[1..], c);
      SplitNone(parts[0], c);
      SplitAt(parts[0], c, Join(parts[1..], c));
      assert [parts[0]] + parts[1..] == parts;
    }
  }

  /** No piece holds a separator, and a string with one has more than one piece. */
  lemma {:induction false} SplitPieces(s: string, c: char)
    ensures forall i :: 0 <= i < |Split(s, c)| ==> c !in Split(s, c)[i]
    ensures c in s ==> |Split(s, c)| > 1
  {
    if s != "" { SplitPieces(s[1..], c); }
  }

  lemma {:induction false} JoinSplit(s: string, c: char)
    ensures Join(Split(s, c), c) == s
  {
    if s != "" {
      JoinSplit(s[1..], c);
      var rest := Split(s[1..], c);
      assert s == [s[0]] + s[1..];
      if s[0] == c {
        assert ([""] + rest)[1..] == rest;
      } else if |rest| > 1 {
        assert rest[0 := [s[0]] + rest[0]][1..] == rest[1..];
      }
    }
  }

  /** Joining what was joined before is joining it all. */
  lemma {:induction false} JoinFlat(a: seq<string>, parts: seq<string>, b: seq<string>, c: char)
    requires parts != []
    ensures Join(a + [Join(parts, c)] + b, c) == Join(a + parts + b, c)
    decreases |a| + |parts|
  {
    if a != [] {
      JoinFlat(a[1..], parts, b, c);
      assert (a + [Join(parts, c)] + b)[1..] == a[1..] + [Join(parts, c)] + b;
      assert (a + parts + b)[1..] == a[1..] + parts + b;
    } else if |parts| == 1 {
      assert [Join(parts, c)] == parts;
    } else {
      JoinFlat([], parts[1..], b, c);
      var whole, tail := a + parts + b, parts[1..] + b;
      assert whole[1..] == tail && [] + [Join(parts[1..], c)] + b == [Join(parts[1..], c)] + b;
      assert [] + parts[1..] + b == tail;
      assert (a + [Join(parts, c)] + b)[1..] == b && ([Join(parts[1..], c)] + b)[1..] == b;
    }
  }

  // ------------------------------------------------------------------ prefixes and searches

  predicate StartsWith(s: string, p: string) {
    |p| <= |s| && s[..|p|] == p
  }

  predicate EndsWith(s: string, p: string) {
    |p| <= |s| && s[|s| - |p|..] == p
  }

  /** Where p first occurs in s. */
  function IndexOf(s: string, p: string): Option<nat> {
    if StartsWith(s, p) then Some(0)
    else if s == "" then None
    else match IndexOf(s[1..], p) case None => None case Some(i) => Some(i + 1)
  }

  /** The whitespace that trimming removes in JavaScript, line terminators included. */
  predicate IsSpace(c: char) {
    || '\t' <= c <= '\r' || c == ' ' || c == '\U{A0}' || c == '\U{1680}' || '\U{2000}' <= c <= '\U{200A}'
    || c == '\U{2028}' || c == '\U{2029}' || c == '\U{202F}' || c == '\U{205F}' || c == '\U{3000}' || c == '\U{FEFF}'
  }

  /** Nothing is left of s once it is trimmed. */
  predicate Blank(s: string) {
    forall i | 0 <= i < |s| :: IsSpace(s[i])
  }

  function LowerChar(c: char): char {
    if 'A' <= c <= 'Z' then c - 'A' + 'a' else c
  }

  /** Lower case, as far as addresses and hostnames need it. */
  function Lower(s: string): string {
    if s == "" then "" else [LowerChar(s[0])] + Lower(s[1..])
  }

  /** The same character, or a letter from A to Z and its small form, in either order. */
  predicate SameLetter(a: char, b: char) {
    a == b || ('A' <= a <= 'Z' && b as int == a as int + 32) || ('A' <= b <= 'Z' && a as int == b as int + 32)
  }

  /** The same letters in the same places, in whichever case. */
  predicate SameUpToCase(s: string, t: string) {
    |s| == |t| && forall i | 0 <= i < |s| :: SameLetter(s[i], t[i])
  }

  lemma LowerLetters(a: char, b: char)
    ensures LowerChar(a) == LowerChar(b) <==> SameLetter(a, b)
  {
  }

  /** Two strings have one lower case exactly when they differ in case alone. */
  lemma {:induction false} LowerIsCaseBlind(s: string, t: string)
    ensures Lower(s) == Lower(t) <==> SameUpToCase(s, t)
  {
    if s != "" && t != "" {
      hide LowerChar, SameLetter;
      LowerIsCaseBlind(s[1..], t[1..]);
      LowerLetters(s[0], t[0]);
      assert Lower(s)[0] == LowerChar(s[0]) && Lower(s)[1..] == Lower(s[1..]);
      assert Lower(t)[0] == LowerChar(t[0]) && Lower(t)[1..] == Lower(t[1..]);
      if SameUpToCase(s, t) {
        forall i | 0 <= i < |s[1..]| ensures SameLetter(s[1..][i], t[1..][i]) {
          assert s[1..][i] == s[i + 1] && t[1..][i] == t[i + 1];
        }
      } else if SameLetter(s[0], t[0]) && SameUpToCase(s[1..], t[1..]) {
        forall i | 0 <= i < |s| ensures SameLetter(s[i], t[i]) {
          if i > 0 { assert s[1..][i - 1] == s[i] && t[1..][i - 1] == t[i]; }
        }
      }
    }
  }

  // ------------------------------------------------------------------ decimals

  predicate IsDigit(c: char) {
    '0' <= c <= '9'
  }

  function DigitOf(d: nat): char
    requires d < 10
  {
    '0' + d as char
  }

  function ValueOf(c: char): nat
    requires IsDigit(c)
  {
    c as nat - '0' as nat
  }

  /** n in decimal, without leading zeros. */
  function Decimal(n: nat): string {
    if n < 10 then [DigitOf(n)] else Decimal(n / 10) + [DigitOf(n % 10)]
  }

  predicate AllDigits(s: string) {
    forall i | 0 <= i < |s| :: IsDigit(s[i])
  }

  function DigitsValue(s: string): nat
    requires AllDigits(s)
  {
    if s == "" then 0 else DigitsValue(s[..|s| - 1]) * 10 + ValueOf(s[|s| - 1])
  }

  /** An unsigned number as Rust reads one: an optional plus sign, digits, nothing too large. */
  function ParseUnsigned(s: string, bound: nat): Option<nat> {
    var digits := if |s| > 1 && s[0] == '+' then s[1..] else s;
    if digits == "" || !AllDigits(digits) || DigitsValue(digits) >= bound then None else Some(DigitsValue(digits))
  }

  lemma {:induction false} DecimalReads(n: nat)
    ensures Decimal(n) != "" && AllDigits(Decimal(n)) && DigitsValue(Decimal(n)) == n
  {
    if n >= 10 {
      DecimalReads(n / 10);
      var s := Decimal(n);
      assert s[..|s| - 1] == Decimal(n / 10);
    } else {
      assert Decimal(n)[..0] == "";
    }
  }

  /** A printed number reads back, if it fits. */
  lemma ParseDecimal(n: nat, bound: nat)
    requires n < bound
    ensures ParseUnsigned(Decimal(n), bound) == Some(n)
  {
    DecimalReads(n);
    assert IsDigit(Decimal(n)[0]);
  }

  /** Written as Decimal writes: no sign, and no zero in front of another digit. */
  predicate Plain(s: string) {
    s != "" && s[0] != '+' && (|s| == 1 || s[0] != '0')
  }

  lemma {:induction false} PlainPrints(s: string)
    requires AllDigits(s) && Plain(s)
    ensures Decimal(DigitsValue(s)) == s && (s[0] != '0' ==> DigitsValue(s) > 0)
    decreases |s|
  {
    var front := s[..|s| - 1];
    assert s == front + [s[|s| - 1]];
    if |s| > 1 { PlainPrints(front); } else { assert front == ""; }
  }

  lemma {:induction false} DecimalPlain(n: nat)
    ensures Plain(Decimal(n)) && (n > 0 ==> Decimal(n)[0] != '0')
  {
    if n >= 10 { DecimalPlain(n / 10); }
  }

  /** A number that was read prints as it was written exactly when it was written plainly. */
  lemma PrintsAsRead(s: string, bound: nat)
    requires ParseUnsigned(s, bound).Some?
    ensures Decimal(ParseUnsigned(s, bound).value) == s <==> Plain(s)
  {
    DecimalPlain(ParseUnsigned(s, bound).value);
    if Plain(s) { PlainPrints(s); }
  }

  lemma DecimalFree(n: nat, c: char)
    requires !IsDigit(c)
    ensures c !in Decimal(n)
  {
    DecimalReads(n);
  }
}
