/** When a printed message reads back as exactly what was printed. */
module SiweRoundTrip {
  import opened Numbers
  import opened Text
  import opened Siwe

  /** Not ending in a carriage return. */
  predicate Unreturned(s: string) {
    s == "" || s[|s| - 1] != '\r'
  }

  /** Free of line feeds and of a carriage return at the end. */
  predicate Plain(s: string) {
    '\n' !in s && Unreturned(s)
  }

  predicate PlainOption(x: Option<string>) {
    x.Some? ==> Plain(x.value)
  }

  /** No field breaks a line; the statement may have several, none ending in a carriage return. */
  predicate PlainInput(i: SiweInput) {
    && '\n' !in i.domain && Plain(i.address) && Plain(i.uri) && PlainOption(i.version) && Plain(i.chainId)
    && Plain(i.nonce) && Plain(i.issuedAt) && PlainOption(i.expirationTime) && PlainOption(i.notBefore)
    && PlainOption(i.requestId) && (forall r | r in i.resources :: Plain(r))
    && (i.statement.Some? ==> forall p | p in Split(i.statement.value, '\n') :: Unreturned(p))
  }

  /** No line of the statement is blank or begins like the first field. */
  predicate StatementFits(statement: Option<string>) {
    statement.Some? ==> forall p | p in Split(statement.value, '\n') :: !Blank(p) && !StartsWith(p, "URI: ")
  }

  predicate Fits(i: SiweInput) {
    && i.domain != "" && IsAddressLike(i.address) && StatementFits(i.statement)
    && i.uri != "" && OrElse(i.version, "1") != "" && i.chainId != "" && i.nonce != "" && i.issuedAt != ""
  }

  function FieldsOf(i: SiweInput): SiweFields {
    SiweFields(i.domain, i.address, i.statement, i.uri, OrElse(i.version, "1"), i.chainId, i.nonce, i.issuedAt,
               i.expirationTime, i.notBefore, i.requestId, i.resources)
  }

  // ------------------------------------------------------------------ lines

  ghost predicate AllPlain(lines: seq<string>) {
    forall k :: 0 <= k < |lines| ==> Plain(lines[k])
  }

  lemma {:induction false} NormalizedPlain(s: string, rest: string)
    requires Plain(s)
    ensures Normalized(s + rest) == s + Normalized(rest)
    decreases |s|
  {
    if s == "" {
      assert s + rest == rest;
    } else {
      assert (s + rest)[1..] == s[1..] + rest;
      if |s| > 1 {
        assert (s + rest)[..2][1] == s[1];
      } else if rest != "" {
        assert (s + rest)[..2][0] == s[0];
      }
      NormalizedPlain(s[1..], rest);
      assert s == [s[0]] + s[1..];
    }
  }

  /** Line endings that are already uniform stay as they are. */
  lemma {:induction false} NormalizedLines(lines: seq<string>)
    requires AllPlain(lines)
    ensures Normalized(Join(lines, '\n')) == Join(lines, '\n')
    decreases |lines|
  {
    if |lines| == 1 {
      NormalizedPlain(lines[0], "");
      assert lines[0] + "" == lines[0];
    } else if |lines| > 1 {
      var rest := Join(lines[1..], '\n');
      NormalizedLines(lines[1..]);
      NormalizedPlain(lines[0], "\n" + rest);
      assert ("\n" + rest)[1..] == rest && ("\n" + rest)[0] == '\n';
      assert lines[0] + "\n" + rest == lines[0] + ("\n" + rest);
    }
  }

  function StatementLines(statement: Option<string>): seq<string> {
    match statement case Some(s) => Split(s, '\n') + [""] case None => []
  }

  /** The lines of the printed message. */
  function Lines(i: SiweInput): seq<string> {
    Head(i) + StatementLines(i.statement) + FieldLines(i)
  }

  lemma PrintedLines(i: SiweInput)
    ensures FormatSiweMessage(i) == Join(Lines(i), '\n')
  {
    hide Join, Split, FieldLines, Head;
    if i.statement.Some? {
      var s := i.statement.value;
      var tail := [""] + FieldLines(i);
      JoinSplit(s, '\n');
      JoinFlat(Head(i), Split(s, '\n'), tail, '\n');
      assert Pieces(i) == Head(i) + [s] + tail;
      assert Lines(i) == Head(i) + Split(s, '\n') + tail;
    } else {
      assert Lines(i) == Head(i) + FieldLines(i);
    }
  }

  lemma PlainField(key: string, value: string)
    requires '\n' !in key && Plain(value)
    ensures Plain(Field(key, value))
  {
    var line := Field(key, value);
    assert line[|line| - 1] == if value == "" then ' ' else value[|value| - 1];
  }

  lemma PlainOptional(key: string, value: Option<string>)
    requires '\n' !in key && PlainOption(value)
    ensures AllPlain(OptionalField(key, value))
  {
    if value.Some? { PlainField(key, value.value); }
  }

  lemma {:induction false} PlainDashed(resources: seq<string>)
    requires forall r | r in resources :: Plain(r)
    ensures AllPlain(Dashed(resources))
  {
    if resources != [] {
      PlainDashed(resources[1..]);
      var line, r := "- " + resources[0], resources[0];
      assert Plain(r) && line[|line| - 1] == if r == "" then ' ' else r[|r| - 1];
    }
  }

  lemma PlainResources(resources: seq<string>)
    requires forall r | r in resources :: Plain(r)
    ensures AllPlain(ResourceLines(resources))
  {
    PlainDashed(resources);
  }

  lemma PlainMandatory(i: SiweInput)
    requires PlainInput(i)
    ensures AllPlain(Mandatory(i))
  {
    PlainField("URI", i.uri);
    PlainField("Version", OrElse(i.version, "1"));
    PlainField("Chain ID", i.chainId);
    PlainField("Nonce", i.nonce);
    PlainField("Issued At", i.issuedAt);
  }

  lemma PlainFields(i: SiweInput)
    requires PlainInput(i)
    ensures AllPlain(FieldLines(i))
  {
    PlainMandatory(i);
    PlainOptional("Expiration Time", i.expirationTime);
    PlainOptional("Not Before", i.notBefore);
    PlainOptional("Request ID", i.requestId);
    PlainResources(i.resources);
  }

  lemma SuffixHalves()
    ensures PREAMBLE_SUFFIX == " wants you to sign in" + " with your Ethereum account:"
  {
  }

  lemma FirstHalf()
    ensures '\n' !in " wants you to sign in"
  {
    assert " wants you to sign in" == " wants yo" + "u to sign" + " in";
    assert '\n' !in " wants yo" && '\n' !in "u to sign" && '\n' !in " in";
  }

  lemma SecondHalf()
    ensures '\n' !in " with your Ethereum account:"
  {
    assert " with your Ethereum account:" == " with you" + "r Ethereu" + "m account:";
    assert '\n' !in " with you" && '\n' !in "r Ethereu" && '\n' !in "m account:";
  }

  lemma SuffixPlain()
    ensures '\n' !in PREAMBLE_SUFFIX && PREAMBLE_SUFFIX[|PREAMBLE_SUFFIX| - 1] == ':'
  {
    SuffixHalves();
    FirstHalf();
    SecondHalf();
  }

  lemma PlainHead(i: SiweInput)
    requires PlainInput(i)
    ensures AllPlain(Head(i))
  {
    var line := i.domain + PREAMBLE_SUFFIX;
    SuffixPlain();
    assert line[|line| - 1] == ':' && '\n' !in line;
  }

  lemma PlainStatement(statement: Option<string>)
    requires statement.Some? ==> forall p | p in Split(statement.value, '\n') :: Unreturned(p)
    ensures AllPlain(StatementLines(statement))
  {
    if statement.Some? { SplitPieces(statement.value, '\n'); }
  }

  /** A printed message comes back as the lines it was printed from. */
  lemma ReadsBackLines(i: SiweInput)
    requires PlainInput(i)
    ensures Split(Normalized(FormatSiweMessage(i)), '\n') == Lines(i)
  {
    PrintedLines(i);
    PlainHead(i);
    PlainStatement(i.statement);
    PlainFields(i);
    NormalizedLines(Lines(i));
    SplitJoin(Lines(i), '\n');
  }

  // ------------------------------------------------------------------ reading fields

  /** A field's name as the message writes them: one or more words without a colon. */
  predicate IsName(key: string) {
    key != "" && ':' !in key && !IsSpace(key[0])
  }

  lemma {:induction false} IndexAfter(key: string, value: string)
    requires ':' !in key
    ensures IndexOf(Field(key, value), ": ") == Some(|key|)
    decreases |key|
  {
    var s := Field(key, value);
    if key == "" {
      assert s[..2] == ": ";
    } else {
      assert s[0] == key[0] && s[1..] == Field(key[1..], value);
      assert s[..2][0] == key[0];
      IndexAfter(key[1..], value);
    }
  }

  /** Outside the resources block a field line sets its field, unless it was set before. */
  lemma ReadsField(st: Reading, key: string, value: string)
    requires IsName(key) && !(st.inResources && StartsWith(Field(key, value), "- "))
    ensures ReadLine(st, Field(key, value)) ==
            if key in st.scalars then Fail(Twice(key))
            else Ok(Reading(st.scalars[key := value], st.resources, false))
  {
    var line := Field(key, value);
    IndexAfter(key, value);
    assert line[0] == key[0] && !Blank(line);
    assert line[..|key|] == key && line[|key| + 2..] == value;
    assert line[|key| + 1] == ' ' && ' ' !in "Resources:";
  }

  lemma {:induction false} ReadAppend(st: Reading, a: seq<string>, b: seq<string>)
    ensures ReadLines(st, a + b) == match ReadLines(st, a) case Fail(f) => Fail(f) case Ok(next) => ReadLines(next, b)
    decreases |a|
  {
    if a == [] {
      assert a + b == b;
    } else {
      assert (a + b)[0] == a[0] && (a + b)[1..] == a[1..] + b;
      match ReadLine(st, a[0])
      case Fail(f) =>
      case Ok(next) => ReadAppend(next, a[1..], b);
    }
  }

  function WithOptional(m: map<string, string>, key: string, value: Option<string>): map<string, string> {
    match value case Some(v) => m[key := v] case None => m
  }

  lemma ReadsOptional(st: Reading, key: string, value: Option<string>)
    requires IsName(key) && !st.inResources && key !in st.scalars
    ensures ReadLines(st, OptionalField(key, value)) == Ok(Reading(WithOptional(st.scalars, key, value), st.resources, false))
  {
    if value.Some? {
      ReadsField(st, key, value.value);
      assert OptionalField(key, value)[1..] == [];
    }
  }

  lemma ReadsDash(st: Reading, resource: string)
    requires st.inResources
    ensures ReadLine(st, "- " + resource) == Ok(st.(resources := st.resources + [resource]))
  {
    hide ReadScalar, Blank;
    var line := "- " + resource;
    assert line[..2] == "- " && line[2..] == resource;
  }

  lemma {:induction false} ReadStep(st: Reading, line: string, rest: seq<string>)
    ensures ReadLines(st, []) == Ok(st)
    ensures ReadLines(st, [line] + rest) ==
            match ReadLine(st, line) case Fail(f) => Fail(f) case Ok(next) => ReadLines(next, rest)
  {
    hide ReadLine;
    assert ([line] + rest)[1..] == rest;
  }

  lemma {:induction false} ReadsDashed(st: Reading, resources: seq<string>)
    requires st.inResources
    ensures ReadLines(st, Dashed(resources)) == Ok(st.(resources := st.resources + resources))
    decreases |resources|
  {
    hide ReadLine, ReadLines;
    if resources == [] {
      ReadStep(st, "", []);
      assert st.resources + resources == st.resources;
    } else {
      var next := st.(resources := st.resources + [resources[0]]);
      ReadsDash(st, resources[0]);
      ReadStep(st, "- " + resources[0], Dashed(resources[1..]));
      ReadsDashed(next, resources[1..]);
      assert next.resources + resources[1..] == st.resources + resources;
    }
  }

  lemma ReadsResources(st: Reading, resources: seq<string>)
    requires !st.inResources && st.resources == []
    ensures ReadLines(st, ResourceLines(resources)) == Ok(Reading(st.scalars, resources, resources != []))
  {
    if resources != [] {
      var lines := ResourceLines(resources);
      assert lines[0] == "Resources:" && lines[1..] == Dashed(resources);
      ReadsDashed(st.(inResources := true), resources);
      assert st.resources + resources == resources;
      assert ReadLine(st, lines[0]) == Ok(st.(inResources := true));
    } else {
      assert ResourceLines(resources) == [];
    }
  }

  function MandatoryScalars(i: SiweInput): map<string, string> {
    map["URI" := i.uri]["Version" := OrElse(i.version, "1")]["Chain ID" := i.chainId]["Nonce" := i.nonce]["Issued At" := i.issuedAt]
  }

  lemma MandatoryNames()
    ensures IsName("URI") && IsName("Version") && IsName("Chain ID") && IsName("Nonce") && IsName("Issued At")
  {
  }

  lemma ReadsMandatory(i: SiweInput)
    ensures ReadLines(NOTHING_READ, Mandatory(i)) == Ok(Reading(MandatoryScalars(i), [], false))
  {
    hide IsName, ReadLine, ReadLines, Field, OrElse;
    MandatoryNames();
    var lines, m0 := Mandatory(i), map["URI" := i.uri];
    var m1 := m0["Version" := OrElse(i.version, "1")];
    var m2 := m1["Chain ID" := i.chainId];
    var m3 := m2["Nonce" := i.nonce];
    ReadsField(NOTHING_READ, "URI", i.uri);
    assert NOTHING_READ.scalars["URI" := i.uri] == m0;
    ReadsField(Reading(m0, [], false), "Version", OrElse(i.version, "1"));
    ReadsField(Reading(m1, [], false), "Chain ID", i.chainId);
    ReadsField(Reading(m2, [], false), "Nonce", i.nonce);
    ReadsField(Reading(m3, [], false), "Issued At", i.issuedAt);
    ReadsFive(NOTHING_READ, lines, Reading(m0, [], false), Reading(m1, [], false), Reading(m2, [], false),
              Reading(m3, [], false), Reading(MandatoryScalars(i), [], false));
  }

  lemma ReadsFive(st: Reading, lines: seq<string>, a: Reading, b: Reading, c: Reading, d: Reading, e: Reading)
    requires |lines| == 5 && ReadLine(st, lines[0]) == Ok(a) && ReadLine(a, lines[1]) == Ok(b)
    requires ReadLine(b, lines[2]) == Ok(c) && ReadLine(c, lines[3]) == Ok(d) && ReadLine(d, lines[4]) == Ok(e)
    ensures ReadLines(st, lines) == Ok(e)
  {
    hide ReadLine;
    assert ReadLines(e, lines[5..]) == Ok(e);
    assert ReadLines(d, lines[4..]) == Ok(e);
    assert ReadLines(c, lines[3..]) == Ok(e);
    assert ReadLines(b, lines[2..]) == Ok(e);
    assert ReadLines(a, lines[1..]) == Ok(e);
  }

  function Scalars(i: SiweInput): map<string, string> {
    WithOptional(WithOptional(WithOptional(MandatoryScalars(i), "Expiration Time", i.expirationTime), "Not Before", i.notBefore),
                 "Request ID", i.requestId)
  }

  /** The block of fields reads as what it was printed from. */
  lemma ReadsFields(i: SiweInput)
    ensures ReadLines(NOTHING_READ, FieldLines(i)) == Ok(Reading(Scalars(i), i.resources, i.resources != []))
  {
    hide ReadLines, MandatoryScalars;
    var m0 := MandatoryScalars(i);
    var m1 := WithOptional(m0, "Expiration Time", i.expirationTime);
    var m2 := WithOptional(m1, "Not Before", i.notBefore);
    NoOptional(i);
    ReadsMandatory(i);
    ReadsOptional(Reading(m0, [], false), "Expiration Time", i.expirationTime);
    ReadsOptional(Reading(m1, [], false), "Not Before", i.notBefore);
    ReadsOptional(Reading(m2, [], false), "Request ID", i.requestId);
    ReadsResources(Reading(Scalars(i), [], false), i.resources);
    var l0, l1, l2, l3 := Mandatory(i), OptionalField("Expiration Time", i.expirationTime),
                          OptionalField("Not Before", i.notBefore), OptionalField("Request ID", i.requestId);
    ReadAppend(NOTHING_READ, l0, l1);
    ReadAppend(NOTHING_READ, l0 + l1, l2);
    ReadAppend(NOTHING_READ, l0 + l1 + l2, l3);
    ReadAppend(NOTHING_READ, l0 + l1 + l2 + l3, ResourceLines(i.resources));
  }

  lemma NoOptional(i: SiweInput)
    ensures forall k :: k in {"Expiration Time", "Not Before", "Request ID"} ==> k !in MandatoryScalars(i) && IsName(k)
  {
  }

  /** The printed fields collect to the fields of the input exactly when none of the mandatory
      ones is empty. */
  lemma Collects(i: SiweInput, statement: Option<string>)
    ensures var r := Collect(i.domain, i.address, statement, Reading(Scalars(i), i.resources, i.resources != []));
            if i.uri != "" && OrElse(i.version, "1") != "" && i.chainId != "" && i.nonce != "" && i.issuedAt != ""
            then r == Ok(FieldsOf(i).(statement := statement)) else r.Fail?
  {
    var m, k := Scalars(i), MandatoryScalars(i);
    assert m["URI"] == i.uri && m["Version"] == OrElse(i.version, "1") && m["Chain ID"] == i.chainId;
    assert m["Nonce"] == i.nonce && m["Issued At"] == i.issuedAt;
    assert Get(m, "Expiration Time") == i.expirationTime;
    assert Get(m, "Not Before") == i.notBefore;
    assert Get(m, "Request ID") == i.requestId;
  }

  // ------------------------------------------------------------------ the statement

  lemma {:induction false} FieldStartSkips(lines: seq<string>, from: nat, at: nat)
    requires from <= at < |lines| && StartsWith(lines[at], "URI: ")
    requires forall k :: from <= k < at ==> !StartsWith(lines[k], "URI: ")
    ensures FieldStart(lines, from) == Some(at)
    decreases at - from
  {
    if from < at { FieldStartSkips(lines, from + 1, at); }
  }

  lemma {:induction false} NonBlankKeeps(lines: seq<string>)
    ensures NonBlank(lines) == lines <==> forall p | p in lines :: !Blank(p)
    ensures |NonBlank(lines)| <= |lines| && forall p | p in NonBlank(lines) :: p in lines
    decreases |lines|
  {
    if lines != [] {
      NonBlankKeeps(lines[1..]);
      assert lines == [lines[0]] + lines[1..];
    }
  }

  lemma {:induction false} NonBlankTail(lines: seq<string>)
    ensures NonBlank(lines + [""]) == NonBlank(lines)
    decreases |lines|
  {
    if lines == [] {
      assert ([] + [""])[1..] == [] && lines + [""] == [""];
    } else {
      assert (lines + [""])[1..] == lines[1..] + [""];
      NonBlankTail(lines[1..]);
    }
  }

  /** A statement comes back from its lines exactly when none of them is blank. */
  lemma StatementReads(statement: Option<string>)
    ensures StatementOf(StatementLines(statement)) == statement <==>
            (statement.Some? ==> forall p | p in Split(statement.value, '\n') :: !Blank(p))
  {
    if statement.Some? {
      var parts := Split(statement.value, '\n');
      NonBlankTail(parts);
      NonBlankKeeps(parts);
      JoinSplit(statement.value, '\n');
      SplitPieces(statement.value, '\n');
      if NonBlank(parts) != [] && Join(NonBlank(parts), '\n') == statement.value {
        forall k | 0 <= k < |NonBlank(parts)| ensures '\n' !in NonBlank(parts)[k] { assert NonBlank(parts)[k] in parts; }
        SplitJoin(NonBlank(parts), '\n');
      }
    }
  }

  lemma UriLine(line: string)
    requires StartsWith(line, "URI: ")
    ensures line == Field("URI", line[5..])
  {
    assert line == line[..5] + line[5..];
  }

  /** Once a URI was read, another one is an error, wherever it comes. */
  lemma {:induction false} SecondUriFails(st: Reading, lines: seq<string>, k: nat)
    requires "URI" in st.scalars && k < |lines| && StartsWith(lines[k], "URI: ")
    ensures ReadLines(st, lines).Fail?
    decreases |lines|
  {
    if StartsWith(lines[0], "URI: ") {
      UriLine(lines[0]);
      assert lines[0][0] == 'U';
      ReadsField(st, "URI", lines[0][5..]);
    } else {
      match ReadLine(st, lines[0])
      case Fail(f) =>
      case Ok(next) => SecondUriFails(next, lines[1..], k - 1);
    }
  }

  lemma TwoUrisFail(lines: seq<string>, k: nat)
    requires 0 < k < |lines| && StartsWith(lines[0], "URI: ") && StartsWith(lines[k], "URI: ")
    ensures ReadLines(NOTHING_READ, lines).Fail?
  {
    UriLine(lines[0]);
    ReadsField(NOTHING_READ, "URI", lines[0][5..]);
    SecondUriFails(Reading(map["URI" := lines[0][5..]], [], false), lines[1..], k - 1);
    assert NOTHING_READ.scalars["URI" := lines[0][5..]] == map["URI" := lines[0][5..]];
  }

  // ------------------------------------------------------------------ the round trip

  lemma ReadsPreamble(i: SiweInput)
    ensures var lines := Lines(i);
            ParseLines(lines) == if i.domain == "" then Fail(NoDomain)
                                 else if !IsAddressLike(i.address) then Fail(BadAddress)
                                 else ParseBody(i.domain, i.address, lines)
  {
    var first := i.domain + PREAMBLE_SUFFIX;
    assert first[|first| - |PREAMBLE_SUFFIX|..] == PREAMBLE_SUFFIX;
    assert first[..|first| - |PREAMBLE_SUFFIX|] == i.domain;
  }

  /** With a fitting statement the body reads as the fields printed. */
  lemma ReadsBody(i: SiweInput)
    requires i.statement.Some? ==> forall p | p in Split(i.statement.value, '\n') :: !StartsWith(p, "URI: ")
    ensures ParseBody(i.domain, i.address, Lines(i)) ==
            Collect(i.domain, i.address, StatementOf(StatementLines(i.statement)), Reading(Scalars(i), i.resources, i.resources != []))
  {
    hide StatementOf, Collect, ReadLines;
    var lines, at := Lines(i), 3 + |StatementLines(i.statement)|;
    assert lines[3..at] == StatementLines(i.statement) && lines[at..] == FieldLines(i);
    assert lines[at] == FieldLines(i)[0] == Field("URI", i.uri);
    assert lines[at][..5] == "URI: ";
    forall k | 3 <= k < at ensures !StartsWith(lines[k], "URI: ") {
      assert lines[k] == StatementLines(i.statement)[k - 3];
    }
    FieldStartSkips(lines, 3, at);
    ReadsFields(i);
  }

  lemma FirstUri(parts: seq<string>) returns (k: nat)
    requires exists p | p in parts :: StartsWith(p, "URI: ")
    ensures k < |parts| && StartsWith(parts[k], "URI: ") && forall j :: 0 <= j < k ==> !StartsWith(parts[j], "URI: ")
  {
    if StartsWith(parts[0], "URI: ") {
      k := 0;
    } else {
      var m := FirstUri(parts[1..]);
      k := m + 1;
      forall j | 0 <= j < k ensures !StartsWith(parts[j], "URI: ") { assert j > 0 ==> parts[j] == parts[1..][j - 1]; }
    }
  }

  /** A statement line that begins like the first field makes the message unreadable. */
  lemma UriInStatementFails(i: SiweInput)
    requires i.statement.Some? && exists p | p in Split(i.statement.value, '\n') :: StartsWith(p, "URI: ")
    ensures ParseBody(i.domain, i.address, Lines(i)).Fail?
  {
    hide StatementOf, Collect, ReadLines;
    var parts, lines := Split(i.statement.value, '\n'), Lines(i);
    var k := FirstUri(parts);
    var at, end := 3 + k, 3 + |StatementLines(i.statement)|;
    forall j | 3 <= j <= at ensures lines[j] == parts[j - 3] {}
    FieldStartSkips(lines, 3, at);
    assert lines[end] == FieldLines(i)[0] == Field("URI", i.uri);
    assert lines[end][..5] == "URI: ";
    assert lines[at..][end - at] == lines[end];
    TwoUrisFail(lines[at..], end - at);
  }

  /** A printed message reads back as exactly the input's fields if and only if the domain and the
      mandatory fields are non-empty, the address is one, and no line of the statement is blank or
      begins with "URI: ". */
  lemma RoundTripsExactly(i: SiweInput)
    requires PlainInput(i)
    ensures ParseSiweMessage(FormatSiweMessage(i)) == Ok(FieldsOf(i)) <==> Fits(i)
  {
    hide ParseBody, Collect, StatementOf, Lines, FormatSiweMessage;
    ReadsBackLines(i);
    ReadsPreamble(i);
    StatementReads(i.statement);
    if i.statement.Some? && exists p | p in Split(i.statement.value, '\n') :: StartsWith(p, "URI: ") {
      UriInStatementFails(i);
    } else {
      ReadsBody(i);
      Collects(i, StatementOf(StatementLines(i.statement)));
    }
  }
}
