/**
 Accounting keys (internal/monitor/ipkey.go): one string names an address, and
 for relayed traffic also the landing node it was forwarded to. Go decodes the
 key one way and the ranking queries decode it again in SQL.
 */
module IpKey {
  import opened Text
  import opened Wrappers

  const PREFIX: string := "relay:"
  const SEPARATOR: char := '|'

  datatype Decoded = Decoded(address: string, landing: string, relayed: bool)

  function Encode(address: string, landing: string, relayed: bool): string {
    if !relayed then address
    else if landing == "" then PREFIX + address
    else PREFIX + landing + [SEPARATOR] + address
  }

  /** strings.CutPrefix. */
  function CutPrefix(s: string, prefix: string): Option<string> {
    if prefix <= s then Some(s[|prefix|..]) else None
  }

  /** strings.Cut at a one-character separator. */
  function Cut(s: string, separator: char): Option<(string, string)> {
    if s == [] then None
    else if s[0] == separator then Some(([], s[1..]))
    else match Cut(s[1..], separator)
      case None => None
      case Some((before, after)) => Some(([s[0]] + before, after))
  }

  function Decode(key: string): Decoded {
    match CutPrefix(key, PREFIX)
    case None => Decoded(key, "", false)
    case Some(rest) =>
      match Cut(rest, SEPARATOR)
      case Some((id, addr)) => Decoded(addr, id, true)
      case None => Decoded(rest, "", true)
  }

  function Address(key: string): string {
    Decode(key).address
  }

  // ------------------------------------------------------------ round trips

  lemma {:induction false} CutMeans(s: string, separator: char)
    ensures Cut(s, separator).None? <==> separator !in s
    ensures Cut(s, separator).Some? ==>
      var (before, after) := Cut(s, separator).value;
      separator !in before && s == before + [separator] + after
  {
    if s != [] && s[0] != separator {
      CutMeans(s[1..], separator);
      assert s == [s[0]] + s[1..];
    }
  }

  /** strings.Cut finds the first separator. */
  lemma {:induction false} CutFirst(before: string, separator: char, after: string)
    requires separator !in before
    ensures Cut(before + [separator] + after, separator) == Some((before, after))
  {
    var s := before + [separator] + after;
    if before == [] {
      assert s == [separator] + after;
    } else {
      assert s[1..] == before[1..] + [separator] + after;
      CutFirst(before[1..], separator, after);
      assert [before[0]] + before[1..] == before;
    }
  }

  predicate Encodable(address: string, landing: string, relayed: bool) {
    if !relayed then !(PREFIX <= address)
    else if landing == "" then SEPARATOR !in address
    else SEPARATOR !in landing
  }

  /** Decoding undoes encoding exactly on the parts no marker or separator can be confused with. */
  lemma DecodeEncode(address: string, landing: string, relayed: bool)
    ensures Decode(Encode(address, landing, relayed)) == Decoded(address, if relayed then landing else "", relayed)
       <==> Encodable(address, landing, relayed)
  {
    var key := Encode(address, landing, relayed);
    if relayed {
      var rest := if landing == "" then address else landing + [SEPARATOR] + address;
      assert key == PREFIX + rest;
      assert key[|PREFIX|..] == rest;
      CutMeans(rest, SEPARATOR);
      if landing != "" && SEPARATOR !in landing {
        CutFirst(landing, SEPARATOR, address);
      }
    }
  }

  /** Every stored key but the one form Encode never writes re-encodes to itself. */
  lemma EncodeDecode(key: string)
    ensures var d := Decode(key);
      Encode(d.address, d.landing, d.relayed) == key <==> !(PREFIX + [SEPARATOR] <= key)
  {
    if PREFIX <= key {
      var rest := key[|PREFIX|..];
      assert key == PREFIX + rest;
      CutMeans(rest, SEPARATOR);
      assert PREFIX + [SEPARATOR] <= key <==> rest != [] && rest[0] == SEPARATOR by {
        if rest != [] && rest[0] == SEPARATOR {
          assert key[..|PREFIX| + 1] == PREFIX + [SEPARATOR];
        }
      }
      if rest != [] && rest[0] == SEPARATOR {
        assert |Encode(Decode(key).address, "", true)| == |key| - 1;
      }
    }
  }

  // ------------------------------------------------------------ the SQL form

  datatype Expr =
    | Column
    | TextLiteral(text: string)
    | IntLiteral(value: int)
    | Substr(of: Expr, start: Expr, length: Option<Expr>)
    | Instr(haystack: Expr, needle: Expr)
    | Add(left: Expr, right: Expr)
    | Equal(left: Expr, right: Expr)
    | Greater(left: Expr, right: Expr)
    | Case(condition: Expr, yes: Expr, no: Expr)

  datatype Value = TextValue(text: string) | IntValue(value: int) | Malformed

  function RestSQL(): Expr {
    Substr(Column, IntLiteral(|PREFIX| + 1), None)
  }

  function CutSQL(): Expr {
    Instr(RestSQL(), TextLiteral([SEPARATOR]))
  }

  function HeadSQL(): Expr {
    Substr(Column, IntLiteral(1), Some(IntLiteral(|PREFIX|)))
  }

  function TailSQL(): Expr {
    Substr(RestSQL(), Add(CutSQL(), IntLiteral(1)), None)
  }

  /** The expression IPKeyAddressSQL renders for a column. */
  function AddressSQL(): Expr {
    Case(Equal(HeadSQL(), TextLiteral(PREFIX)),
         Case(Greater(CutSQL(), IntLiteral(0)), TailSQL(), RestSQL()),
         Column)
  }

  /** SQLite's substr for a positive start position. */
  function SqlSubstr(s: string, start: int, length: int): Value {
    if start < 1 || length < 0 then Malformed
    else if start > |s| then TextValue("")
    else if start - 1 + length >= |s| then TextValue(s[start - 1..])
    else TextValue(s[start - 1..start - 1 + length])
  }

  /** SQLite's instr: the 1-based position of the first occurrence, or 0. */
  function SqlInstr(s: string, needle: string): nat {
    if needle <= s then 1
    else if s == [] then 0
    else var rest := SqlInstr(s[1..], needle); if rest == 0 then 0 else rest + 1
  }

  function Eval(e: Expr, column: string): Value {
    match e
    case Column => TextValue(column)
    case TextLiteral(text) => TextValue(text)
    case IntLiteral(value) => IntValue(value)
    case Substr(of, start, None) =>
      (match (Eval(of, column), Eval(start, column))
       case (TextValue(s), IntValue(i)) => SqlSubstr(s, i, |s|)
       case _ => Malformed)
    case Substr(of, start, Some(length)) =>
      (match (Eval(of, column), Eval(start, column), Eval(length, column))
       case (TextValue(s), IntValue(i), IntValue(n)) => SqlSubstr(s, i, n)
       case _ => Malformed)
    case Instr(haystack, needle) =>
      (match (Eval(haystack, column), Eval(needle, column))
       case (TextValue(s), TextValue(n)) => IntValue(SqlInstr(s, n))
       case _ => Malformed)
    case Add(left, right) =>
      (match (Eval(left, column), Eval(right, column))
       case (IntValue(a), IntValue(b)) => IntValue(a + b)
       case _ => Malformed)
    case Equal(left, right) => IntValue(if Eval(left, column) == Eval(right, column) then 1 else 0)
    case Greater(left, right) =>
      (match (Eval(left, column), Eval(right, column))
       case (IntValue(a), IntValue(b)) => IntValue(if a > b then 1 else 0)
       case _ => Malformed)
    case Case(condition, yes, no) =>
      if Eval(condition, column) == IntValue(1) then Eval(yes, column) else Eval(no, column)
  }

  lemma {:induction false} InstrIsCut(s: string, separator: char)
    ensures match Cut(s, separator)
      case None => SqlInstr(s, [separator]) == 0
      case Some((before, _)) => SqlInstr(s, [separator]) == |before| + 1
  {
    if s != [] {
      assert [separator] <= s <==> s[0] == separator;
      if s[0] != separator {
        InstrIsCut(s[1..], separator);
      }
    }
  }

  lemma HeadReads(key: string)
    ensures Eval(HeadSQL(), key) == TextValue(PREFIX) <==> PREFIX <= key
  {
    assert Eval(HeadSQL(), key) == SqlSubstr(key, 1, |PREFIX|);
    assert key[0..] == key;
    assert |key| > |PREFIX| ==> key[1 - 1..1 - 1 + |PREFIX|] == key[..|PREFIX|];
  }

  lemma RestReads(key: string)
    requires PREFIX <= key
    ensures Eval(RestSQL(), key) == TextValue(key[|PREFIX|..])
    ensures Eval(CutSQL(), key) == IntValue(SqlInstr(key[|PREFIX|..], [SEPARATOR]))
  {
    assert Eval(RestSQL(), key) == SqlSubstr(key, |PREFIX| + 1, |key|);
    var rest, needle := RestSQL(), TextLiteral([SEPARATOR]);
    EvalInstr(rest, needle, key);
    assert Eval(rest, key).text == key[|PREFIX|..];
    assert Eval(needle, key) == TextValue([SEPARATOR]);
    assert Eval(Instr(rest, needle), key) == IntValue(SqlInstr(key[|PREFIX|..], [SEPARATOR]));
    assert CutSQL() == Instr(rest, needle);
  }

  lemma EvalCase(condition: Expr, yes: Expr, no: Expr, key: string)
    ensures Eval(Case(condition, yes, no), key)
         == if Eval(condition, key) == IntValue(1) then Eval(yes, key) else Eval(no, key)
  {
  }

  lemma EvalInstr(haystack: Expr, needle: Expr, key: string)
    requires Eval(haystack, key).TextValue? && Eval(needle, key).TextValue?
    ensures Eval(Instr(haystack, needle), key)
         == IntValue(SqlInstr(Eval(haystack, key).text, Eval(needle, key).text))
  {
  }

  lemma TailReads(key: string, id: string, addr: string)
    requires PREFIX <= key && Cut(key[|PREFIX|..], SEPARATOR) == Some((id, addr))
    ensures Eval(TailSQL(), key) == TextValue(addr)
  {
    var rest := key[|PREFIX|..];
    RestReads(key);
    InstrIsCut(rest, SEPARATOR);
    CutMeans(rest, SEPARATOR);
    var start := Add(CutSQL(), IntLiteral(1));
    assert Eval(IntLiteral(1), key) == IntValue(1);
    assert Eval(start, key) == IntValue(|id| + 2);
    assert Eval(TailSQL(), key) == SqlSubstr(rest, |id| + 2, |rest|);
    assert rest[|id| + 1..] == addr;
  }

  /** The SQL the ranking queries embed reads the same address as the Go decoder. */
  lemma SqlReadsAddress(key: string)
    ensures Eval(AddressSQL(), key) == TextValue(Address(key))
  {
    HeadReads(key);
    var marked := Equal(HeadSQL(), TextLiteral(PREFIX));
    assert Eval(marked, key) == IntValue(if PREFIX <= key then 1 else 0);
    var split := Greater(CutSQL(), IntLiteral(0));
    EvalCase(marked, Case(split, TailSQL(), RestSQL()), Column, key);
    if PREFIX <= key {
      RestReads(key);
      InstrIsCut(key[|PREFIX|..], SEPARATOR);
      assert Eval(IntLiteral(0), key) == IntValue(0);
      EvalCase(split, TailSQL(), RestSQL(), key);
      match Cut(key[|PREFIX|..], SEPARATOR)
      case None =>
      case Some((id, addr)) => TailReads(key, id, addr);
    }
  }

  // ------------------------------------------------------- caller-supplied keys

  predicate IsHex(c: char) {
    '0' <= c <= '9' || 'a' <= c <= 'f'
  }

  predicate AllHex(id: string) {
    forall i :: 0 <= i < |id| ==> IsHex(id[i])
  }

  function SanitizeLanding(landing: string): string {
    if AllHex(Key(landing)) then Key(landing) else ""
  }

  /** parse is netip.ParseAddr followed by Addr.String. */
  function ParseKey(raw: string, parse: string -> Option<string>): Option<string> {
    var d := Decode(Trim(raw));
    match parse(d.address)
    case None => None
    case Some(address) => Some(Encode(address, SanitizeLanding(d.landing), d.relayed))
  }

  function Separators(s: string): nat {
    if s == [] then 0 else (if s[0] == SEPARATOR then 1 else 0) + Separators(s[1..])
  }

  /** An address as it is printed: it reads back as itself and cannot be taken for a marked key. */
  ghost predicate Printed(address: string, parse: string -> Option<string>) {
    && parse(address) == Some(address)
    && address != "" && !IsSpace(address[0]) && !IsSpace(address[|address| - 1])
    && !(PREFIX <= address)
  }

  /** The text does not end in white space, and its address is printed with as many separators as it was given. */
  ghost predicate PrintsWell(text: string, parse: string -> Option<string>) {
    parse(text).Some? && text != "" && !IsSpace(text[|text| - 1]) ==>
      Printed(parse(text).value, parse) && Separators(parse(text).value) == Separators(text)
  }

  /** What comes before a separator in an address, which can only be inside a zone, is no landing ID. */
  ghost predicate ZoneIsNoLanding(zone: string, tail: string, parse: string -> Option<string>) {
    parse(zone + [SEPARATOR] + tail).Some? ==> SanitizeLanding(zone) == ""
  }

  /** What is used of netip.ParseAddr and Addr.String. */
  ghost predicate AddressParser(parse: string -> Option<string>) {
    && parse("") == None
    && (forall text: string :: PrintsWell(text, parse))
    && (forall zone: string, tail: string :: ZoneIsNoLanding(zone, tail, parse))
  }

  lemma EmptyLanding()
    ensures SanitizeLanding("") == ""
  {
    TrimFixed("");
  }

  lemma SanitizeFixed(landing: string)
    ensures SanitizeLanding(SanitizeLanding(landing)) == SanitizeLanding(landing)
  {
    if AllHex(Key(landing)) {
      KeyIdempotent(landing);
    } else {
      EmptyLanding();
    }
  }

  lemma NoSeparatorInHex(id: string)
    requires AllHex(id)
    ensures SEPARATOR !in id
  {
  }

  lemma SanitizedHex(landing: string)
    ensures AllHex(SanitizeLanding(landing))
  {
  }

  lemma ReadsBack(address: string, landing: string, relayed: bool)
    requires address != "" && !IsSpace(address[0]) && !IsSpace(address[|address| - 1])
    requires !(PREFIX <= address) && SEPARATOR !in landing
    requires !relayed || landing != "" || SEPARATOR !in address
    ensures Decode(Trim(Encode(address, landing, relayed))) == Decoded(address, if relayed then landing else "", relayed)
  {
    var key := Encode(address, landing, relayed);
    assert key[|key| - 1] == address[|address| - 1];
    assert key[0] == if relayed then PREFIX[0] else address[0];
    TrimFixed(key);
    DecodeEncode(address, landing, relayed);
  }

  lemma DecodesTo(id: string, address: string)
    requires SEPARATOR !in id
    ensures Decode(PREFIX + id + [SEPARATOR] + address) == Decoded(address, id, true)
  {
    var key := PREFIX + id + [SEPARATOR] + address;
    assert key[|PREFIX|..] == id + [SEPARATOR] + address;
    CutFirst(id, SEPARATOR, address);
  }

  lemma TrimmedKey(id: string, address: string)
    requires SEPARATOR !in id
    requires var tail := [SEPARATOR] + address; !IsSpace(tail[|tail| - 1])
    ensures Decode(Trim(PREFIX + id + [SEPARATOR] + address)) == Decoded(address, id, true)
  {
    var key := PREFIX + id + [SEPARATOR] + address;
    assert key[0] == PREFIX[0];
    assert key[|key| - 1] == ([SEPARATOR] + address)[|address|];
    TrimFixed(key);
    DecodesTo(id, address);
  }

  lemma {:induction false} SeparatorsAppend(a: string, b: string)
    ensures Separators(a + b) == Separators(a) + Separators(b)
  {
    if a == [] {
      assert a + b == b;
    } else {
      assert (a + b)[1..] == a[1..] + b;
      SeparatorsAppend(a[1..], b);
    }
  }

  lemma {:induction false} SeparatorsMean(s: string)
    ensures Separators(s) > 0 <==> SEPARATOR in s
  {
    if s != [] {
      assert s == [s[0]] + s[1..];
      SeparatorsMean(s[1..]);
    }
  }

  /** The address ParseKey takes out of a key. */
  function Given(raw: string): Decoded {
    Decode(Trim(raw))
  }

  lemma {:induction false} DecodedEnd(key: string)
    requires key != "" && !IsSpace(key[|key| - 1]) && Decode(key).address != ""
    ensures var a := Decode(key).address; !IsSpace(a[|a| - 1])
  {
    if PREFIX <= key {
      var rest := key[|PREFIX|..];
      CutMeans(rest, SEPARATOR);
      assert rest != [] ==> rest[|rest| - 1] == key[|key| - 1];
      match Cut(rest, SEPARATOR)
      case None =>
      case Some((before, after)) => assert after != [] ==> after[|after| - 1] == rest[|rest| - 1];
    }
  }

  /** A parsed key: its address is printed, and holds the separator exactly if the given one did. */
  lemma GivenIsPrinted(raw: string, parse: string -> Option<string>)
    requires AddressParser(parse) && ParseKey(raw, parse).Some?
    ensures var a := parse(Given(raw).address).value;
      && Printed(a, parse) && Separators(a) == Separators(Given(raw).address)
      && (SEPARATOR in a <==> SEPARATOR in Given(raw).address)
  {
    var text := Given(raw).address;
    TrimEnds(raw);
    hide Trim, Decode, Printed, SanitizeLanding;
    assert text != "";
    assert Trim(raw) != "" by { EmptyDecodes(); }
    DecodedEnd(Trim(raw));
    assert PrintsWell(text, parse);
    SeparatorsMean(text);
    SeparatorsMean(parse(text).value);
  }

  lemma EmptyDecodes()
    ensures Decode("") == Decoded("", "", false)
  {
  }

  /** Whether a relayed key is printed without a landing around an address that holds the separator. */
  predicate Ambiguous(raw: string) {
    var d := Given(raw);
    d.relayed && SanitizeLanding(d.landing) == "" && SEPARATOR in d.address
  }

  /**
   A key this process printed is accepted again unchanged, exactly unless it was
   printed without a landing around an address that holds the separator.
   */
  lemma ParseKeyIdempotentExactly(raw: string, parse: string -> Option<string>)
    requires AddressParser(parse) && ParseKey(raw, parse).Some?
    ensures ParseKey(ParseKey(raw, parse).value, parse) == ParseKey(raw, parse) <==> !Ambiguous(raw)
  {
    var d := Given(raw);
    var address, landing := parse(d.address).value, SanitizeLanding(d.landing);
    GivenIsPrinted(raw, parse);
    if Ambiguous(raw) {
      MisreadAs(address, parse);
      EncodedMarker(address);
    } else {
      hide Trim, Key, Decode, SanitizeLanding, Printed, AddressParser;
      SanitizeFixed(d.landing);
      SanitizedHex(d.landing);
      NoSeparatorInHex(landing);
      EmptyLanding();
      PrintedReadsBack(address, landing, d.relayed, parse);
    }
  }

  lemma EncodedMarker(address: string)
    ensures Encode(address, "", true) == PREFIX + address
  {
  }

  lemma PrintedReadsBack(address: string, landing: string, relayed: bool, parse: string -> Option<string>)
    requires Printed(address, parse) && SEPARATOR !in landing
    requires !relayed || landing != "" || SEPARATOR !in address
    ensures Decode(Trim(Encode(address, landing, relayed))) == Decoded(address, if relayed then landing else "", relayed)
    ensures parse(address) == Some(address)
  {
    ReadsBack(address, landing, relayed);
  }

  /**
   What becomes of such a key when it comes back: the part of the address before the
   separator reads as a landing, and the rest is refused or accepted as another address.
   */
  lemma MisreadAs(address: string, parse: string -> Option<string>)
    requires AddressParser(parse) && Printed(address, parse) && SEPARATOR in address
    ensures Cut(address, SEPARATOR).Some?
    ensures var (zone, tail) := Cut(address, SEPARATOR).value;
      ParseKey(PREFIX + address, parse) == match parse(tail) case None => None case Some(other) => Some(PREFIX + other)
    ensures ParseKey(PREFIX + address, parse) != Some(PREFIX + address)
  {
    hide ParseKey, AddressParser, Printed, SanitizeLanding, Cut, IsSpace, Separators;
    AddressParts(address, parse);
    var (zone, tail) := Cut(address, SEPARATOR).value;
    MarkedReads(zone, tail, parse);
    AnotherAddress(zone, tail, parse);
    SamePrefix();
  }

  lemma AddressParts(address: string, parse: string -> Option<string>)
    requires AddressParser(parse) && Printed(address, parse) && SEPARATOR in address
    ensures Cut(address, SEPARATOR).Some? && parse(address).Some?
    ensures var (zone, tail) := Cut(address, SEPARATOR).value;
      && address == zone + [SEPARATOR] + tail
      && SEPARATOR !in zone && SanitizeLanding(zone) == ""
      && var text := [SEPARATOR] + tail; !IsSpace(text[|text| - 1])
  {
    hide SanitizeLanding, IsSpace;
    CutMeans(address, SEPARATOR);
    var (zone, tail) := Cut(address, SEPARATOR).value;
    assert ZoneIsNoLanding(zone, tail, parse);
    assert ([SEPARATOR] + tail)[|tail|] == address[|address| - 1];
  }

  lemma SamePrefix()
    ensures forall a: string, b: string :: PREFIX + a == PREFIX + b ==> a == b
  {
    forall a: string, b: string | PREFIX + a == PREFIX + b ensures a == b {
      assert (PREFIX + a)[|PREFIX|..] == a && (PREFIX + b)[|PREFIX|..] == b;
    }
  }

  /** What stands behind the separator is not the whole address: it is printed with fewer separators. */
  lemma AnotherAddress(zone: string, tail: string, parse: string -> Option<string>)
    requires AddressParser(parse) && parse(zone + [SEPARATOR] + tail).Some?
    requires var text := [SEPARATOR] + tail; !IsSpace(text[|text| - 1])
    ensures parse(tail).Some? ==> parse(tail).value != zone + [SEPARATOR] + tail
  {
    if parse(tail).Some? {
      FewerSeparators(zone, tail);
      assert tail != "";
      assert tail[|tail| - 1] == ([SEPARATOR] + tail)[|tail|];
      assert PrintsWell(tail, parse);
    }
  }

  /** A marked address with a separator in it, read as a key. */
  lemma MarkedReads(zone: string, tail: string, parse: string -> Option<string>)
    requires SEPARATOR !in zone && SanitizeLanding(zone) == ""
    requires var text := [SEPARATOR] + tail; !IsSpace(text[|text| - 1])
    ensures ParseKey(PREFIX + (zone + [SEPARATOR] + tail), parse)
         == match parse(tail) case None => None case Some(other) => Some(PREFIX + other)
  {
    hide Trim, Key, Decode, SanitizeLanding;
    TrimmedKey(zone, tail);
    assert PREFIX + (zone + [SEPARATOR] + tail) == PREFIX + zone + [SEPARATOR] + tail;
  }

  lemma FewerSeparators(zone: string, tail: string)
    ensures Separators(zone + [SEPARATOR] + tail) > Separators(tail)
  {
    SeparatorsAppend(zone, [SEPARATOR] + tail);
    assert zone + [SEPARATOR] + tail == zone + ([SEPARATOR] + tail);
    assert ([SEPARATOR] + tail)[1..] == tail;
  }

  /**
   Such a key comes from a key with an empty landing. With nothing that parses behind
   the separator it is refused when it comes back, otherwise it is taken for a key of
   the address behind the separator.
   */
  lemma ParseKeySeparatorFails(zone: string, tail: string, parse: string -> Option<string>)
    requires SEPARATOR !in zone && SanitizeLanding(zone) == ""
    requires Printed(zone + [SEPARATOR] + tail, parse)
    ensures var address := zone + [SEPARATOR] + tail;
      && ParseKey(PREFIX + [SEPARATOR] + address, parse) == Some(PREFIX + address)
      && ParseKey(PREFIX + address, parse) == match parse(tail) case None => None case Some(other) => Some(PREFIX + other)
  {
    hide Trim, Key, Decode, SanitizeLanding;
    var address := zone + [SEPARATOR] + tail;
    assert ([SEPARATOR] + tail)[|tail|] == address[|address| - 1] == ([SEPARATOR] + address)[|address|];
    TrimmedKey("", address);
    assert PREFIX + [SEPARATOR] + address == PREFIX + "" + [SEPARATOR] + address;
    EmptyLanding();
    MarkedReads(zone, tail, parse);
  }

  /** One relayed client's key is taken for another's. */
  lemma ZoneHidesAddress(parse: string -> Option<string>)
    requires parse("fe80::1%a" + "|" + "::1") == Some("fe80::1%a" + "|" + "::1") && parse("::1") == Some("::1")
    ensures ParseKey(PREFIX + "|" + ("fe80::1%a" + "|" + "::1"), parse) == Some(PREFIX + ("fe80::1%a" + "|" + "::1"))
    ensures ParseKey(PREFIX + ("fe80::1%a" + "|" + "::1"), parse) == Some(PREFIX + "::1")
  {
    var zone, tail := "fe80::1%a", "::1";
    hide ParseKey, SanitizeLanding;
    NotHex(zone, 4);
    var address := zone + "|" + tail;
    assert address[0] == 'f' && address[|address| - 1] == '1';
    assert !(PREFIX <= address) by { assert PREFIX[0] == 'r'; }
    ParseKeySeparatorFails(zone, tail, parse);
  }

  lemma NotHex(s: string, at: nat)
    requires at < |s| && !IsHex(LowerChar(s[at])) && !IsSpace(s[0]) && !IsSpace(s[|s| - 1])
    ensures SanitizeLanding(s) == ""
  {
    TrimFixed(s);
    assert Key(s)[at] == LowerChar(s[at]);
  }

  /** The landing IDs the hub generates are kept as they are, in any case and with space around them; anything else is dropped. */
  lemma LandingKept(landing: string)
    ensures SanitizeLanding(landing) ==
      if forall i :: 0 <= i < |Key(landing)| ==> Key(landing)[i] in "0123456789abcdef" then Key(landing) else ""
  {
    HexAlphabet();
    hide Key, IsHex;
  }

  lemma HexAlphabet()
    ensures forall c: char :: IsHex(c) <==> c in "0123456789abcdef"
  {
    var digits := "0123456789abcdef";
    assert forall k :: 0 <= k < 10 ==> digits[k] as int == '0' as int + k;
    assert forall k :: 10 <= k < 16 ==> digits[k] as int == 'a' as int + (k - 10);
    forall c: char | IsHex(c) ensures c in digits {
      assert digits[if c <= '9' then c as int - '0' as int else 10 + (c as int - 'a' as int)] == c;
    }
  }

  /** So a relayed key of a generated landing ID is accepted as it is printed. */
  lemma GeneratedKeyAccepted(landing: string, address: string, parse: string -> Option<string>)
    requires Printed(address, parse) && landing != "" && forall i :: 0 <= i < |landing| ==> landing[i] in "0123456789abcdef"
    ensures var key := PREFIX + landing + [SEPARATOR] + address;
      Decode(key) == Decoded(address, landing, true) && ParseKey(key, parse) == Some(key)
  {
    HexAlphabet();
    assert forall i :: 0 <= i < |landing| ==> IsHex(landing[i]) && !IsSpace(landing[i]) && LowerChar(landing[i]) == landing[i];
    TrimFixed(landing);
    assert Lower(landing) == landing;
    assert AllHex(landing);
    NoSeparatorInHex(landing);
    DecodeEncode(address, landing, true);
    PrintedReadsBack(address, landing, true, parse);
    hide Trim, Lower;
  }
}
