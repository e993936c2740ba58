/** ERC-4361 messages, printed and read back. */
module Siwe {
  import opened Numbers
  import opened Text

  const PREAMBLE_SUFFIX := " wants you to sign in with your Ethereum account:"

  datatype SiweInput = SiweInput(domain: string, address: string, statement: Option<string>, uri: string,
                                 version: Option<string>, chainId: string, nonce: string, issuedAt: string,
                                 expirationTime: Option<string>, notBefore: Option<string>, requestId: Option<string>,
                                 resources: seq<string>)

  datatype SiweFields = SiweFields(domain: string, address: string, statement: Option<string>, uri: string, version: string,
                                   chainId: string, nonce: string, issuedAt: string, expirationTime: Option<string>,
                                   notBefore: Option<string>, requestId: Option<string>, resources: seq<string>)

  datatype Failure =
    | NoPreamble | NoDomain | BadAddress | NoBlankLine | NoUri
    | Unreadable(line: string) | Twice(key: string) | Missing(key: string)

  datatype Result<T> = Ok(value: T) | Fail(failure: Failure)

  predicate IsHex(c: char) {
    '0' <= c <= '9' || 'a' <= c <= 'f' || 'A' <= c <= 'F'
  }

  predicate IsAddressLike(s: string) {
    |s| == 42 && s[0] == '0' && s[1] == 'x' && forall i | 2 <= i < 42 :: IsHex(s[i])
  }

  // ------------------------------------------------------------------ printing

  function OrElse(x: Option<string>, otherwise: string): string {
    match x case Some(s) => s case None => otherwise
  }

  function Field(key: string, value: string): string {
    key + ": " + value
  }

  function OptionalField(key: string, value: Option<string>): seq<string> {
    match value case Some(v) => [Field(key, v)] case None => []
  }

  function Dashed(resources: seq<string>): seq<string> {
    if resources == [] then [] else ["- " + resources[0]] + Dashed(resources[1..])
  }

  function ResourceLines(resources: seq<string>): seq<string> {
    if resources == [] then [] else ["Resources:"] + Dashed(resources)
  }

  function Mandatory(i: SiweInput): seq<string> {
    [Field("URI", i.uri), Field("Version", OrElse(i.version, "1")), Field("Chain ID", i.chainId), Field("Nonce", i.nonce),
     Field("Issued At", i.issuedAt)]
  }

  function FieldLines(i: SiweInput): seq<string> {
    Mandatory(i) + OptionalField("Expiration Time", i.expirationTime) + OptionalField("Not Before", i.notBefore)
    + OptionalField("Request ID", i.requestId) + ResourceLines(i.resources)
  }

  function Head(i: SiweInput): seq<string> {
    [i.domain + PREAMBLE_SUFFIX, i.address, ""]
  }

  function Pieces(i: SiweInput): seq<string> {
    match i.statement
    case Some(s) => Head(i) + [s, ""] + FieldLines(i)
    case None => Head(i) + FieldLines(i)
  }

  function FormatSiweMessage(i: SiweInput): string {
    Join(Pieces(i), '\n')
  }

  // ------------------------------------------------------------------ reading

  /** Line endings made uniform: a carriage return before a line feed goes. */
  function Normalized(s: string): string {
    if s == "" then ""
    else if StartsWith(s, "\r\n") then "\n" + Normalized(s[2..])
    else [s[0]] + Normalized(s[1..])
  }

  datatype Reading = Reading(scalars: map<string, string>, resources: seq<string>, inResources: bool)

  const NOTHING_READ := Reading(map[], [], false)

  /** A line outside the resources block. */
  function ReadScalar(st: Reading, line: string): Result<Reading> {
    if line == "Resources:" then Ok(st.(inResources := true))
    else if Blank(line) then Ok(st)
    else
      match IndexOf(line, ": ")
      case None => Fail(Unreadable(line))
      case Some(at) =>
        IndexOfFits(line, ": ");
        if line[..at] in st.scalars then Fail(Twice(line[..at]))
        else Ok(st.(scalars := st.scalars[line[..at] := line[at + 2..]]))
  }

  function ReadLine(st: Reading, line: string): Result<Reading> {
    if st.inResources && StartsWith(line, "- ") then Ok(st.(resources := st.resources + [line[2..]]))
    else if st.inResources && Blank(line) then Ok(st)
    else ReadScalar(st.(inResources := false), line)
  }

  function ReadLines(st: Reading, lines: seq<string>): Result<Reading>
    decreases |lines|
  {
    if lines == [] then Ok(st)
    else match ReadLine(st, lines[0]) case Fail(f) => Fail(f) case Ok(next) => ReadLines(next, lines[1..])
  }

  function FieldStart(lines: seq<string>, from: nat): Option<nat>
    requires from <= |lines|
    decreases |lines| - from
  {
    if from == |lines| then None else if StartsWith(lines[from], "URI: ") then Some(from) else FieldStart(lines, from + 1)
  }

  function NonBlank(lines: seq<string>): seq<string> {
    if lines == [] then []
    else if Blank(lines[0]) then NonBlank(lines[1..])
    else [lines[0]] + NonBlank(lines[1..])
  }

  function StatementOf(lines: seq<string>): Option<string> {
    if NonBlank(lines) == [] then None else Some(Join(NonBlank(lines), '\n'))
  }

  function Get(scalars: map<string, string>, key: string): Option<string> {
    if key in scalars then Some(scalars[key]) else None
  }

  /** Missing counts empty. */
  predicate Absent(scalars: map<string, string>, key: string) {
    key !in scalars || scalars[key] == ""
  }

  function Collect(domain: string, address: string, statement: Option<string>, st: Reading): Result<SiweFields> {
    var m := st.scalars;
    if Absent(m, "URI") then Fail(Missing("URI"))
    else if Absent(m, "Version") then Fail(Missing("Version"))
    else if Absent(m, "Chain ID") then Fail(Missing("Chain ID"))
    else if Absent(m, "Nonce") then Fail(Missing("Nonce"))
    else if Absent(m, "Issued At") then Fail(Missing("Issued At"))
    else
      Ok(SiweFields(domain, address, statement, m["URI"], m["Version"], m["Chain ID"], m["Nonce"], m["Issued At"],
                    Get(m, "Expiration Time"), Get(m, "Not Before"), Get(m, "Request ID"), st.resources))
  }

  function ParseBody(domain: string, address: string, lines: seq<string>): Result<SiweFields>
    requires |lines| >= 3
  {
    match FieldStart(lines, 3)
    case None => Fail(NoUri)
    case Some(at) =>
      FieldStartIn(lines, 3);
      match ReadLines(NOTHING_READ, lines[at..])
      case Fail(f) => Fail(f)
      case Ok(st) => Collect(domain, address, StatementOf(lines[3..at]), st)
  }

  function ParseLines(lines: seq<string>): Result<SiweFields>
    requires lines != []
  {
    if !EndsWith(lines[0], PREAMBLE_SUFFIX) then Fail(NoPreamble)
    else
      var domain := lines[0][..|lines[0]| - |PREAMBLE_SUFFIX|];
      if domain == "" then Fail(NoDomain)
      else if |lines| < 2 || !IsAddressLike(lines[1]) then Fail(BadAddress)
      else if |lines| < 3 || lines[2] != "" then Fail(NoBlankLine)
      else ParseBody(domain, lines[1], lines)
  }

  function ParseSiweMessage(message: string): Result<SiweFields> {
    ParseLines(Split(Normalized(message), '\n'))
  }

  lemma {:induction false} IndexOfFits(s: string, p: string)
    ensures IndexOf(s, p).Some? ==> IndexOf(s, p).value + |p| <= |s|
    decreases |s|
  {
    if !StartsWith(s, p) && s != "" { IndexOfFits(s[1..], p); }
  }

  lemma {:induction false} FieldStartIn(lines: seq<string>, from: nat)
    requires from <= |lines|
    ensures FieldStart(lines, from).Some? ==> from <= FieldStart(lines, from).value < |lines|
    decreases |lines| - from
  {
    if from < |lines| { FieldStartIn(lines, from + 1); }
  }

  // ------------------------------------------------------------------ the same with loops

  method Format(i: SiweInput) returns (message: string)
    ensures message == FormatSiweMessage(i)
  {
    var lines := [i.domain + PREAMBLE_SUFFIX, i.address, ""];
    if i.statement.Some? { lines := lines + [i.statement.value, ""]; }
    ghost var head := lines;
    var fields := Mandatory(i);
    fields := PushOptional(fields, "Expiration Time", i.expirationTime);
    fields := PushOptional(fields, "Not Before", i.notBefore);
    fields := PushOptional(fields, "Request ID", i.requestId);
    if |i.resources| > 0 { fields := PushDashed(fields + ["Resources:"], i.resources); }
    assert fields == FieldLines(i);
    message := Join(lines + fields, '\n');
  }

  method PushOptional(lines: seq<string>, key: string, value: Option<string>) returns (out: seq<string>)
    ensures out == lines + OptionalField(key, value)
  {
    out := lines;
    if value.Some? { out := out + [Field(key, value.value)]; }
  }

  method PushDashed(lines: seq<string>, resources: seq<string>) returns (out: seq<string>)
    ensures out == lines + Dashed(resources)
  {
    out := lines;
    assert resources[0..] == resources;
    for n := 0 to |resources|
      invariant out + Dashed(resources[n..]) == lines + Dashed(resources)
    {
      out := out + ["- " + resources[n]];
    }
    assert resources[|resources|..] == [];
  }

  method Parse(message: string) returns (r: Result<SiweFields>)
    ensures r == ParseSiweMessage(message)
  {
    var lines := Split(Normalized(message), '\n');
    var preamble := lines[0];
    if !EndsWith(preamble, PREAMBLE_SUFFIX) { return Fail(NoPreamble); }
    var domain := preamble[..|preamble| - |PREAMBLE_SUFFIX|];
    if domain == "" { return Fail(NoDomain); }
    if |lines| < 2 || !IsAddressLike(lines[1]) { return Fail(BadAddress); }
    if |lines| < 3 || lines[2] != "" { return Fail(NoBlankLine); }
    r := ReadBody(domain, lines[1], lines);
  }

  method ReadBody(domain: string, address: string, lines: seq<string>) returns (r: Result<SiweFields>)
    requires |lines| >= 3
    ensures r == ParseBody(domain, address, lines)
  {
    var at := 3;
    while at < |lines| && !StartsWith(lines[at], "URI: ")
      invariant 3 <= at <= |lines|
      invariant FieldStart(lines, 3) == FieldStart(lines, at)
    {
      at := at + 1;
    }
    if at == |lines| { return Fail(NoUri); }
    var st := NOTHING_READ;
    var n := at;
    while n < |lines|
      invariant at <= n <= |lines|
      invariant ReadLines(NOTHING_READ, lines[at..]) == ReadLines(st, lines[n..])
    {
      var line := lines[n];
      assert lines[n..][0] == line && lines[n..][1..] == lines[n + 1..];
      var step := ReadLine(st, line);
      if step.Fail? { return Fail(step.failure); }
      st := step.value;
      n := n + 1;
    }
    r := Collect(domain, address, StatementOf(lines[3..at]), st);
  }
}
