/** Store keys: one string per book and field, written and read back. */
module BookKeys {
  import opened Numbers
  import opened Text

  datatype Field = Principal | Vested | Capacity

  datatype BookId = BookId(settler: string, marketId: nat, outcome: nat)

  const U64 := 0x1_0000_0000_0000_0000
  const U32 := 0x1_0000_0000

  function FieldName(f: Field): string {
    match f
    case Principal => "principal"
    case Vested => "vested"
    case Capacity => "capacity"
  }

  function FromName(s: string): Option<Field> {
    if s == "principal" then Some(Principal)
    else if s == "vested" then Some(Vested)
    else if s == "capacity" then Some(Capacity)
    else None
  }

  function KeyParts(b: BookId, f: Field): seq<string> {
    ["book", b.settler, Decimal(b.marketId), Decimal(b.outcome), FieldName(f)]
  }

  function BookKey(b: BookId, f: Field): string {
    "book:" + b.settler + ":" + Decimal(b.marketId) + ":" + Decimal(b.outcome) + ":" + FieldName(f)
  }

  /** The book and field of a key, or None for a key of any other shape. */
  function ParseBookKey(key: string): Option<(BookId, Field)> {
    var parts := Split(key, ':');
    if |parts| != 5 || parts[0] != "book" then None
    else
      match (ParseUnsigned(parts[2], U64), ParseUnsigned(parts[3], U32), FromName(parts[4]))
      case (Some(m), Some(o), Some(f)) => Some((BookId(parts[1], m, o), f))
      case _ => None
  }

  predicate Fits(b: BookId) {
    b.marketId < U64 && b.outcome < U32
  }

  lemma KeyIsJoined(b: BookId, f: Field)
    ensures BookKey(b, f) == Join(KeyParts(b, f), ':')
  {
    var parts := KeyParts(b, f);
    assert parts[1..][1..] == parts[2..] && parts[2..][1..] == parts[3..] && parts[3..][1..] == parts[4..];
    assert Join(parts[4..], ':') == FieldName(f);
    assert Join(parts[3..], ':') == Decimal(b.outcome) + ":" + FieldName(f);
    assert Join(parts[2..], ':') == Decimal(b.marketId) + ":" + Join(parts[3..], ':');
  }

  /** A colon in the settler gives the key more than five parts. */
  lemma KeyOverflows(b: BookId, f: Field)
    requires ':' in b.settler
    ensures |Split(BookKey(b, f), ':')| > 5
  {
    hide Split, Decimal, FieldName;
    var name, outcome, market := FieldName(f), Decimal(b.outcome), Decimal(b.marketId);
    SplitAt(outcome, ':', name);
    SplitAt(market, ':', outcome + ":" + name);
    SplitAt(b.settler, ':', market + ":" + (outcome + ":" + name));
    SplitAt("book", ':', b.settler + ":" + (market + ":" + (outcome + ":" + name)));
    SplitPieces(b.settler, ':');
    assert BookKey(b, f) == "book" + [':'] + (b.settler + ":" + (market + ":" + (outcome + ":" + name)));
  }

  /** A key reads back as what it was written from exactly when the settler holds no colon;
      a settler with one is rejected, never misread. */
  lemma KeyRoundTrip(b: BookId, f: Field)
    requires Fits(b)
    ensures ParseBookKey(BookKey(b, f)) == if ':' in b.settler then None else Some((b, f))
  {
    if ':' in b.settler {
      KeyOverflows(b, f);
    } else {
      var parts := KeyParts(b, f);
      KeyIsJoined(b, f);
      DecimalFree(b.marketId, ':');
      DecimalFree(b.outcome, ':');
      SplitJoin(parts, ':');
      ParseDecimal(b.marketId, U64);
      ParseDecimal(b.outcome, U32);
    }
  }

  /** Whatever parses names a book whose own key reads back the same. */
  lemma ParsedIsCanonical(key: string)
    requires ParseBookKey(key).Some?
    ensures var (b, f) := ParseBookKey(key).value;
            Fits(b) && ':' !in b.settler && ParseBookKey(BookKey(b, f)) == ParseBookKey(key)
  {
    SplitPieces(key, ':');
    var (b, f) := ParseBookKey(key).value;
    assert ':' !in Split(key, ':')[1];
    KeyRoundTrip(b, f);
  }

  /** A key that parses is one that was written, for the book it names, exactly when both its
      numbers are in plain decimal. */
  lemma ParsedIsWrittenIff(key: string)
    requires ParseBookKey(key).Some?
    ensures var ((b, f), parts) := (ParseBookKey(key).value, Split(key, ':'));
            |parts| == 5 && (key == BookKey(b, f) <==> Plain(parts[2]) && Plain(parts[3]))
  {
    hide Split, Decimal, Plain, ParseUnsigned;
    var ((b, f), parts) := (ParseBookKey(key).value, Split(key, ':'));
    JoinSplit(key, ':');
    KeyIsJoined(b, f);
    SplitPieces(key, ':');
    DecimalFree(b.marketId, ':');
    DecimalFree(b.outcome, ':');
    SplitJoin(KeyParts(b, f), ':');
    PrintsAsRead(parts[2], U64);
    PrintsAsRead(parts[3], U32);
    assert key == BookKey(b, f) <==> parts == KeyParts(b, f);
    assert parts == ["book", parts[1], parts[2], parts[3], parts[4]];
  }

  /** A key this module never writes, read as market 7 all the same. */
  lemma SignedKeyIsRead() returns (key: string)
    ensures key == "book:0xa:+7:1:principal"
    ensures ParseBookKey(key) == Some((BookId("0xa", 7, 1), Principal))
    ensures forall b, f :: Fits(b) && ':' !in b.settler ==> key != BookKey(b, f)
  {
    hide Split, Join, ParseUnsigned, BookKey;
    key := "book:0xa:+7:1:principal";
    SignedKeyJoins();
    SplitJoin(["book", "0xa", "+7", "1", "principal"], ':');
    ReadsSeven();
    ParsedIsWrittenIff(key);
    forall b, f | Fits(b) && ':' !in b.settler ensures key != BookKey(b, f) { KeyRoundTrip(b, f); }
  }

  lemma JoinCons(a: string, rest: seq<string>, c: char)
    requires rest != []
    ensures Join([a] + rest, c) == a + [c] + Join(rest, c)
  {
    assert ([a] + rest)[1..] == rest;
  }

  lemma SignedKeyJoins()
    ensures Join(["book", "0xa", "+7", "1", "principal"], ':') == "book:0xa:+7:1:principal"
  {
    assert Join(["principal"], ':') == "principal";
    hide Join;
    JoinCons("1", ["principal"], ':');
    JoinCons("+7", ["1", "principal"], ':');
    JoinCons("0xa", ["+7", "1", "principal"], ':');
    JoinCons("book", ["0xa", "+7", "1", "principal"], ':');
    assert ["book"] + ["0xa", "+7", "1", "principal"] == ["book", "0xa", "+7", "1", "principal"];
  }

  lemma ReadsSeven()
    ensures ParseUnsigned("+7", U64) == Some(7) && ParseUnsigned("1", U32) == Some(1)
  {
    assert "+7"[1..] == "7" && "7"[..0] == "" && "1"[..0] == "";
  }

  /** Different books or fields never share a key. */
  lemma KeysDiffer(b: BookId, f: Field, c: BookId, g: Field)
    requires Fits(b) && Fits(c) && ':' !in b.settler && ':' !in c.settler
    ensures BookKey(b, f) == BookKey(c, g) <==> b == c && f == g
  {
    KeyRoundTrip(b, f);
    KeyRoundTrip(c, g);
  }
}
