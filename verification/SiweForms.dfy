/** The printed form of a message, character for character, and a message whose lines end as they do
    on Windows. */
module SiweForms {
  import opened Numbers
  import opened Text
  import opened Siwe
  import opened SiweRoundTrip

  // ------------------------------------------------------------------ what is printed

  /** Each line after a line feed. */
  function Trailing(lines: seq<string>): string {
    if lines == [] then "" else "\n" + lines[0] + Trailing(lines[1..])
  }

  lemma {:induction false} TrailingBoth(a: seq<string>, b: seq<string>)
    ensures Trailing(a + b) == Trailing(a) + Trailing(b)
  {
    if a == [] {
      assert a + b == b;
    } else {
      TrailingBoth(a[1..], b);
      assert (a + b)[0] == a[0] && (a + b)[1..] == a[1..] + b;
      Regroup("\n" + a[0], Trailing(a[1..]), Trailing(b));
    }
  }

  lemma Regroup(a: string, b: string, c: string)
    ensures a + (b + c) == a + b + c
  {
  }

  lemma {:induction false} JoinTrails(lines: seq<string>)
    requires lines != []
    ensures Join(lines, '\n') == lines[0] + Trailing(lines[1..])
  {
    if |lines| > 1 { JoinTrails(lines[1..]); }
  }

  /** A titled line, after a line feed. */
  function Line(title: string, value: string): string {
    "\n" + title + value
  }

  function Perhaps(title: string, value: Option<string>): string {
    match value case None => "" case Some(v) => Line(title, v)
  }

  function Listed(resources: seq<string>): string {
    if resources == [] then "" else "\n- " + resources[0] + Listed(resources[1..])
  }

  /** The mandatory fields as ERC-4361 orders and labels them. */
  function PrintedFields(i: SiweInput): string {
    Line("URI: ", i.uri) + Line("Version: ", if i.version.None? then "1" else i.version.value)
    + Line("Chain ID: ", i.chainId) + Line("Nonce: ", i.nonce) + Line("Issued At: ", i.issuedAt)
  }

  /** The fields that may be left out, in their order. */
  function PrintedOptions(i: SiweInput): string {
    Perhaps("Expiration Time: ", i.expirationTime) + Perhaps("Not Before: ", i.notBefore)
    + Perhaps("Request ID: ", i.requestId)
    + if i.resources == [] then "" else "\nResources:" + Listed(i.resources)
  }

  /** The whole message: who asks, the account, the statement between blank lines, the fields. */
  function Printed(i: SiweInput): string {
    i.domain + " wants you to sign in with your Ethereum account:\n" + i.address + "\n"
    + (match i.statement case None => "" case Some(s) => "\n" + s + "\n")
    + PrintedFields(i) + PrintedOptions(i)
  }

  lemma TrailingOne(line: string, rest: seq<string>)
    ensures Trailing([line] + rest) == "\n" + line + Trailing(rest) && Trailing([line]) == "\n" + line
  {
    assert ([line] + rest)[1..] == rest && [line][1..] == [];
  }

  lemma FieldTrails(key: string, title: string, value: string)
    requires title == key + ": "
    ensures "\n" + Field(key, value) == Line(title, value)
  {
  }

  lemma OptionTrails(key: string, title: string, value: Option<string>)
    requires title == key + ": "
    ensures Trailing(OptionalField(key, value)) == Perhaps(title, value)
  {
    hide Line;
    if value.Some? { FieldTrails(key, title, value.value); TrailingOne(Field(key, value.value), []); }
  }

  lemma {:induction false} DashedTrails(resources: seq<string>)
    ensures Trailing(Dashed(resources)) == Listed(resources)
  {
    if resources != [] {
      DashedTrails(resources[1..]);
      TrailingOne("- " + resources[0], Dashed(resources[1..]));
    }
  }

  lemma ResourcesTrail(resources: seq<string>)
    ensures Trailing(ResourceLines(resources)) == if resources == [] then "" else "\nResources:" + Listed(resources)
  {
    DashedTrails(resources);
    if resources != [] { TrailingOne("Resources:", Dashed(resources)); }
  }

  lemma MandatoryTrail(i: SiweInput)
    ensures Trailing(Mandatory(i)) == PrintedFields(i)
  {
    hide Trailing, Field, Line;
    var a, b, c, d, e := Field("URI", i.uri), Field("Version", OrElse(i.version, "1")), Field("Chain ID", i.chainId),
                         Field("Nonce", i.nonce), Field("Issued At", i.issuedAt);
    assert Mandatory(i) == [a] + ([b] + ([c] + ([d] + [e])));
    TrailingOne(a, [b] + ([c] + ([d] + [e])));
    TrailingOne(b, [c] + ([d] + [e]));
    TrailingOne(c, [d] + [e]);
    TrailingOne(d, [e]);
    TrailingOne(e, []);
    FieldTrails("URI", "URI: ", i.uri);
    FieldTrails("Version", "Version: ", OrElse(i.version, "1"));
    FieldTrails("Chain ID", "Chain ID: ", i.chainId);
    FieldTrails("Nonce", "Nonce: ", i.nonce);
    FieldTrails("Issued At", "Issued At: ", i.issuedAt);
    Flat(Line("URI: ", i.uri), Line("Version: ", OrElse(i.version, "1")), Line("Chain ID: ", i.chainId),
         Line("Nonce: ", i.nonce), Line("Issued At: ", i.issuedAt));
  }

  lemma Flat(a: string, b: string, c: string, d: string, e: string)
    ensures a + (b + (c + (d + (e + "")))) == a + b + c + d + e
  {
    assert e + "" == e;
    assert a + b + (c + d + e) == a + b + c + d + e;
  }

  lemma OptionsTrail(i: SiweInput)
    ensures Trailing(OptionalField("Expiration Time", i.expirationTime) + OptionalField("Not Before", i.notBefore)
                     + OptionalField("Request ID", i.requestId) + ResourceLines(i.resources)) == PrintedOptions(i)
  {
    hide Trailing, OptionalField, ResourceLines, Perhaps, Listed;
    var a, b, c, d := OptionalField("Expiration Time", i.expirationTime), OptionalField("Not Before", i.notBefore),
                      OptionalField("Request ID", i.requestId), ResourceLines(i.resources);
    TrailingBoth(a + b + c, d);
    TrailingBoth(a + b, c);
    TrailingBoth(a, b);
    OptionTrails("Expiration Time", "Expiration Time: ", i.expirationTime);
    OptionTrails("Not Before", "Not Before: ", i.notBefore);
    OptionTrails("Request ID", "Request ID: ", i.requestId);
    ResourcesTrail(i.resources);
  }

  /** A message is printed as ERC-4361 lays it out. */
  lemma PrintsInOrder(i: SiweInput)
    ensures FormatSiweMessage(i) == Printed(i)
  {
    hide Trailing, Join, Mandatory, OptionalField, ResourceLines, PrintedFields, PrintedOptions;
    var options := OptionalField("Expiration Time", i.expirationTime) + OptionalField("Not Before", i.notBefore)
                   + OptionalField("Request ID", i.requestId) + ResourceLines(i.resources);
    MandatoryTrail(i);
    OptionsTrail(i);
    assert FieldLines(i) == Mandatory(i) + options;
    TrailingBoth(Mandatory(i), options);
    var middle := match i.statement case None => [] case Some(s) => [s, ""];
    var rest := [i.address] + ([""] + (middle + FieldLines(i)));
    assert Pieces(i) == [i.domain + PREAMBLE_SUFFIX] + rest;
    JoinTrails(Pieces(i));
    assert Pieces(i)[1..] == rest;
    TrailingOne(i.address, [""] + (middle + FieldLines(i)));
    TrailingOne("", middle + FieldLines(i));
    TrailingBoth(middle, FieldLines(i));
    MiddleTrails(i.statement);
    Assembled(i, PrintedFields(i) + PrintedOptions(i));
  }

  lemma MiddleTrails(statement: Option<string>)
    ensures Trailing(match statement case None => [] case Some(s) => [s, ""])
            == match statement case None => "" case Some(s) => "\n" + s + "\n"
  {
    if statement.Some? {
      TrailingOne(statement.value, [""]);
      TrailingOne("", []);
      assert [statement.value, ""] == [statement.value] + [""];
    }
  }

  lemma Assembled(i: SiweInput, fields: string)
    ensures (i.domain + PREAMBLE_SUFFIX)
            + ("\n" + i.address + ("\n" + "" + ((match i.statement case None => "" case Some(s) => "\n" + s + "\n") + fields)))
            == i.domain + " wants you to sign in with your Ethereum account:\n" + i.address + "\n"
               + (match i.statement case None => "" case Some(s) => "\n" + s + "\n") + fields
  {
    assert PREAMBLE_SUFFIX + "\n" == " wants you to sign in with your Ethereum account:\n";
  }

  // ------------------------------------------------------------------ line endings

  /** Every line feed with a carriage return before it. */
  function WithCrLf(s: string): string {
    if s == "" then "" else (if s[0] == '\n' then "\r\n" else [s[0]]) + WithCrLf(s[1..])
  }

  /** No line feed comes after a carriage return. */
  ghost predicate PlainEndings(s: string) {
    forall k :: 0 <= k < |s| - 1 && s[k] == '\r' ==> s[k + 1] != '\n'
  }

  lemma StartsCrLf(s: string)
    ensures StartsWith(s, "\r\n") <==> |s| >= 2 && s[0] == '\r' && s[1] == '\n'
  {
    if |s| >= 2 { assert s[..2] == [s[0], s[1]]; }
  }

  lemma {:induction false} PlainStays(s: string)
    ensures PlainEndings(s) ==> Normalized(s) == s
  {
    if s != "" && PlainEndings(s) {
      StartsCrLf(s);
      forall k | 0 <= k < |s[1..]| - 1 && s[1..][k] == '\r' ensures s[1..][k + 1] != '\n' {
        assert s[k + 1] == '\r' ==> s[k + 2] != '\n';
      }
      PlainStays(s[1..]);
    }
  }

  /** Reading makes the two kinds of line ending one. */
  lemma {:induction false} CrLfGoes(s: string)
    ensures Normalized(WithCrLf(s)) == s
  {
    if s != "" {
      var rest := WithCrLf(s[1..]);
      CrLfGoes(s[1..]);
      var whole := WithCrLf(s);
      if s[0] == '\n' {
        assert whole[..2] == "\r\n" && whole[2..] == rest;
      } else {
        assert whole[0] == s[0] && whole[1..] == rest;
        StartsCrLf(whole);
        NoFeedFirst(s[1..]);
      }
    }
  }

  lemma NoFeedFirst(s: string)
    ensures WithCrLf(s) == "" || WithCrLf(s)[0] != '\n'
  {
  }

  /** A message is read alike with either line ending. */
  lemma CrLfReadsAlike(s: string)
    requires PlainEndings(s)
    ensures ParseSiweMessage(WithCrLf(s)) == ParseSiweMessage(s)
  {
    CrLfGoes(s);
    PlainStays(s);
  }

  /** So a printed message whose line endings were changed on the way still reads back exactly when
      it fits. */
  lemma CrLfRoundTrips(i: SiweInput)
    requires PlainInput(i)
    ensures ParseSiweMessage(WithCrLf(FormatSiweMessage(i))) == Ok(FieldsOf(i)) <==> Fits(i)
  {
    hide PlainInput, Fits, FieldsOf, FormatSiweMessage, ParseLines;
    CrLfGoes(FormatSiweMessage(i));
    ReadsBackLines(i);
    PrintedLines(i);
    RoundTripsExactly(i);
    JoinSplit(FormatSiweMessage(i), '\n');
    JoinSplit(Normalized(FormatSiweMessage(i)), '\n');
  }

  // ------------------------------------------------------------------ what a read message says

  lemma {:induction false} IndexOfIs(s: string, p: string)
    ensures IndexOf(s, p).Some? ==>
              var at := IndexOf(s, p).value;
              at + |p| <= |s| && s == s[..at] + p + s[at + |p|..]
    decreases |s|
  {
    if StartsWith(s, p) {
      assert s == s[..0] + p + s[|p|..];
    } else if s != "" && IndexOf(s[1..], p).Some? {
      IndexOfIs(s[1..], p);
      var rest, at := s[1..], IndexOf(s[1..], p).value;
      assert s[..at + 1] == [s[0]] + rest[..at] && s[at + 1 + |p|..] == rest[at + |p|..];
      InFront(s, rest, rest[..at], p, rest[at + |p|..]);
    }
  }

  lemma InFront(s: string, rest: string, a: string, p: string, b: string)
    requires s != "" && rest == s[1..] && rest == a + p + b
    ensures s == [s[0]] + a + p + b
  {
    assert s == [s[0]] + rest;
  }

  /** Every field and every resource read so far was there, or stands in one of the lines. */
  ghost predicate FromLines(before: Reading, lines: seq<string>, after: Reading) {
    && (forall key :: key in after.scalars ==>
          (key in before.scalars && before.scalars[key] == after.scalars[key]) || key + ": " + after.scalars[key] in lines)
    && (forall r :: r in after.resources ==> r in before.resources || "- " + r in lines)
  }

  lemma LineIsFrom(st: Reading, line: string)
    requires ReadLine(st, line).Ok?
    ensures FromLines(st, [line], ReadLine(st, line).value)
  {
    IndexOfIs(line, ": ");
    if st.inResources && StartsWith(line, "- ") {
      assert line == "- " + line[2..];
    }
  }

  lemma FromBoth(a: Reading, line: string, b: Reading, rest: seq<string>, c: Reading)
    requires FromLines(a, [line], b) && FromLines(b, rest, c)
    ensures FromLines(a, [line] + rest, c)
  {
  }

  lemma {:induction false} LinesAreFrom(st: Reading, lines: seq<string>)
    requires ReadLines(st, lines).Ok?
    ensures FromLines(st, lines, ReadLines(st, lines).value)
    decreases |lines|
  {
    hide ReadLine, FromLines;
    if lines == [] {
      NothingFrom(st);
    } else {
      var next := ReadLine(st, lines[0]).value;
      LineIsFrom(st, lines[0]);
      LinesAreFrom(next, lines[1..]);
      FromBoth(st, lines[0], next, lines[1..], ReadLines(st, lines).value);
      assert lines == [lines[0]] + lines[1..];
    }
  }

  lemma NothingFrom(st: Reading)
    ensures FromLines(st, [], st)
  {
  }

  /** The value stands in a line of its own after its title; an optional one, if it is there. */
  ghost predicate Written(lines: seq<string>, title: string, value: string) {
    value != "" && title + ": " + value in lines
  }

  ghost predicate WrittenIf(lines: seq<string>, title: string, value: Option<string>) {
    value.Some? ==> title + ": " + value.value in lines
  }

  /** Nothing is read out of a message that is not written in it: its first line names the domain, its
      second is the address, its third is blank, and every field and resource stands in a line. */
  lemma ReadsOnlyWritten(message: string, f: SiweFields)
    requires ParseSiweMessage(message) == Ok(f)
    ensures var lines := Split(Normalized(message), '\n');
            && |lines| >= 3 && lines[0] == f.domain + " wants you to sign in with your Ethereum account:" && f.domain != ""
            && lines[1] == f.address && IsAddressLike(f.address) && lines[2] == ""
            && Written(lines, "URI", f.uri) && Written(lines, "Version", f.version) && Written(lines, "Chain ID", f.chainId)
            && Written(lines, "Nonce", f.nonce) && Written(lines, "Issued At", f.issuedAt)
            && WrittenIf(lines, "Expiration Time", f.expirationTime) && WrittenIf(lines, "Not Before", f.notBefore)
            && WrittenIf(lines, "Request ID", f.requestId)
            && forall r :: r in f.resources ==> "- " + r in lines
  {
    hide ReadLines, FieldStart, Split, Normalized, StatementOf, IsAddressLike;
    var lines := Split(Normalized(message), '\n');
    FieldStartIn(lines, 3);
    var at := FieldStart(lines, 3).value;
    LinesAreFrom(NOTHING_READ, lines[at..]);
    forall line | line in lines[at..] ensures line in lines {
      var i :| 0 <= i < |lines[at..]| && lines[at..][i] == line;
      assert lines[at + i] == line;
    }
    assert lines[0] == lines[0][..|lines[0]| - |PREAMBLE_SUFFIX|] + PREAMBLE_SUFFIX;
  }

  /** An address is 0x and forty hexadecimal digits, in either case. */
  lemma AddressIs(s: string)
    ensures IsAddressLike(s) <==>
            |s| == 42 && s[..2] == "0x" && forall i :: 2 <= i < 42 ==> s[i] in "0123456789abcdefABCDEF"
  {
    forall c: char ensures IsHex(c) <==> c in "0123456789abcdefABCDEF" { HexIs(c); }
    if |s| >= 2 { assert s[..2] == [s[0], s[1]]; }
  }

  lemma HexIs(c: char)
    ensures IsHex(c) <==> c in "0123456789abcdefABCDEF"
  {
    var digits := "0123456789abcdefABCDEF";
    if '0' <= c <= '9' {
      assert digits[c as int - '0' as int] == c;
    } else if 'a' <= c <= 'f' {
      assert digits[10 + (c as int - 'a' as int)] == c;
    } else if 'A' <= c <= 'F' {
      assert digits[16 + (c as int - 'A' as int)] == c;
    }
  }

  // ------------------------------------------------------------------ what is missing

  const REQUIRED := ["URI", "Version", "Chain ID", "Nonce", "Issued At"]

  /** The fields that have to be there are asked for in their order: a message is refused for the first
      that is missing or empty, and for none only if all five are there. */
  lemma NamesFirstMissing(domain: string, address: string, statement: Option<string>, st: Reading, k: nat)
    requires k < 5
    ensures Collect(domain, address, statement, st) == Fail(Missing(REQUIRED[k])) <==>
            && (REQUIRED[k] !in st.scalars || st.scalars[REQUIRED[k]] == "")
            && forall j :: 0 <= j < k ==> REQUIRED[j] in st.scalars && st.scalars[REQUIRED[j]] != ""
    ensures Collect(domain, address, statement, st).Ok? <==>
            forall j :: 0 <= j < 5 ==> REQUIRED[j] in st.scalars && st.scalars[REQUIRED[j]] != ""
  {
    var m := st.scalars;
    assert REQUIRED[0] == "URI" && REQUIRED[1] == "Version" && REQUIRED[2] == "Chain ID" && REQUIRED[3] == "Nonce"
           && REQUIRED[4] == "Issued At";
    assert "URI"[0] != "Version"[0] && "Version"[0] != "Chain ID"[0] && "Chain ID"[0] != "Nonce"[0];
  }
}
