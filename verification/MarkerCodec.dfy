/** The bytes of a lock marker: canonical JSON naming the owner's pid and creation token. */
module MarkerCodec {
  import opened Wrappers
  import opened Digits
  import opened Json
  import opened Utf8

  const MAX_BYTES := 256
  const MAX_TOKEN := 64
  const MAX_PID := 4294967295

  datatype Owner = Owner(pid: nat, token: string)

  predicate LegalOwner(o: Owner) {
    && 1 <= o.pid <= MAX_PID
    && 0 < |o.token| <= MAX_TOKEN
    && forall i | 0 <= i < |o.token| :: IsLowerHex(o.token[i])
  }

  function Document(o: Owner): Json {
    Obj([Member("pid", Int(o.pid)), Member("token", Str(o.token)), Member("version", Int(1))])
  }

  function EncodeMarker(o: Owner): Option<Bytes> {
    if LegalOwner(o) then Some(Encode(Print(Document(o), true))) else None
  }

  /** The hook that rejects repeated and unsorted keys leaves one order for the three keys. */
  function OwnerOf(v: Json): Option<Owner> {
    if !v.Obj? || |v.members| != 3 then None
    else
      var p, t, n := v.members[0], v.members[1], v.members[2];
      if p.key != "pid" || t.key != "token" || n.key != "version" then None
      else if !p.value.Int? || p.value.n < 0 || !t.value.Str? || n.value != Int(1) then None
      else Some(Owner(p.value.n, t.value.s))
  }

  predicate NoSpace(t: string) {
    forall i | 0 <= i < |t| :: !IsSpace(t[i])
  }

  /** Whitespace is refused before parsing, other spellings by re-encoding. */
  function OwnerInText(text: string): Option<Owner> {
    if !NoSpace(text) then None
    else match Parse(text, true)
      case Err(_) => None
      case Ok(v) => OwnerOf(v)
  }

  function DecodeMarker(data: Bytes): (r: Option<Owner>) {
    if data == [] || |data| > MAX_BYTES then None
    else
      var text := Decode(data);
      if text.None? then None
      else
        var o := OwnerInText(text.value);
        if o.None? || EncodeMarker(o.value) != Some(data) then None else o
  }

  // ---------- the text of a marker ----------

  predicate Verbatim(s: string) {
    forall i | 0 <= i < |s| :: IsDigit(s[i]) || 'a' <= s[i] <= 'z'
  }

  lemma {:induction false} VerbatimNeedsNoEscape(s: string)
    requires Verbatim(s)
    ensures EscapeAll(s, true) == s
  {
    if s != "" {
      assert EscapeChar(s[0], true) == [s[0]];
      VerbatimNeedsNoEscape(s[1..]);
      assert [s[0]] + s[1..] == s;
    }
  }

  function Quoted(s: string): string { "\"" + s + "\"" }

  function Pair(key: string, value: string): string { Quoted(key) + ":" + value }

  function MarkerText(o: Owner): string {
    "{" + (Pair("pid", Decimal(o.pid)) + "," + (Pair("token", Quoted(o.token)) + "," + Pair("version", Decimal(1)))) + "}"
  }

  lemma PrintedPair(m: Member, value: string)
    requires Verbatim(m.key) && Print(m.value, true) == value
    ensures PrintMember(m, true) == Pair(m.key, value)
  {
    VerbatimNeedsNoEscape(m.key);
  }

  lemma ThreeMembers(a: Member, b: Member, c: Member)
    ensures PrintMembers([a, b, c], true)
         == PrintMember(a, true) + "," + (PrintMember(b, true) + "," + PrintMember(c, true))
  {
    assert [a, b, c][1..] == [b, c] && [b, c][1..] == [c];
    assert PrintMembers([c], true) == PrintMember(c, true);
    assert PrintMembers([b, c], true) == PrintMember(b, true) + "," + PrintMembers([c], true);
    assert PrintMembers([a, b, c], true) == PrintMember(a, true) + "," + PrintMembers([b, c], true);
  }

  lemma PrintedMarker(o: Owner)
    requires LegalOwner(o)
    ensures Print(Document(o), true) == MarkerText(o)
  {
    VerbatimNeedsNoEscape(o.token);
    var p, t, v := Member("pid", Int(o.pid)), Member("token", Str(o.token)), Member("version", Int(1));
    PrintedPair(p, Decimal(o.pid));
    PrintedPair(t, Quoted(o.token));
    PrintedPair(v, Decimal(1));
    ThreeMembers(p, t, v);
    assert Document(o).members == [p, t, v];
    assert Print(Document(o), true) == "{" + PrintMembers([p, t, v], true) + "}";
    assert PrintMember(p, true) == Pair("pid", Decimal(o.pid));
    assert PrintMember(t, true) == Pair("token", Quoted(o.token));
    assert PrintMember(v, true) == Pair("version", Decimal(1));
    assert PrintMembers([p, t, v], true) == Pair("pid", Decimal(o.pid)) + "," + (Pair("token", Quoted(o.token)) + "," + Pair("version", Decimal(1)));
  }

  predicate Ascii(s: string) {
    forall i | 0 <= i < |s| :: s[i] as int < 0x80
  }

  lemma {:induction false} AsciiEncodes(s: string)
    requires Ascii(s)
    ensures |Encode(s)| == |s| && forall i | 0 <= i < |s| :: Encode(s)[i] == s[i] as int
  {
    if s != "" {
      AsciiEncodes(s[1..]);
      forall i | 0 < i < |s| ensures Encode(s)[i] == s[i] as int {
        assert Encode(s)[i] == Encode(s[1..])[i - 1];
      }
    }
  }

  lemma DecimalLength(n: nat)
    requires n <= MAX_PID
    ensures |Decimal(n)| <= 10
  {
    ShorterBy(n, 10);
  }

  lemma {:induction false} ShorterBy(n: nat, k: nat)
    requires 0 < k && n < Pow10(k)
    ensures |Decimal(n)| <= k
  {
    if n >= 10 {
      ShorterBy(n / 10, k - 1);
    }
  }

  predicate Inner(s: string) { Ascii(s) && NoSpace(s) && '}' !in s }

  lemma InnerList(a: string, b: string)
    requires Inner(a) && Inner(b)
    ensures Inner(a + "," + b)
  {
  }

  lemma InnerPair(key: string, value: string)
    requires Inner(key) && Inner(value)
    ensures Inner(Pair(key, value))
  {
  }

  lemma InnerQuoted(s: string)
    requires Inner(s)
    ensures Inner(Quoted(s))
  {
  }

  lemma Braced(s: string)
    requires Inner(s)
    ensures var t := "{" + s + "}";
      Ascii(t) && NoSpace(t) && t[|t| - 1] == '}' && (forall i | 0 <= i < |t| - 1 :: t[i] != '}')
  {
  }

  lemma InnerOwner(o: Owner)
    requires LegalOwner(o)
    ensures Inner(Decimal(o.pid)) && Inner(o.token) && Inner(Decimal(1))
  {
  }

  lemma MarkerIsShort(o: Owner)
    requires LegalOwner(o)
    ensures 0 < |MarkerText(o)| <= MAX_BYTES
  {
    DecimalLength(o.pid);
    assert Decimal(1) == "1";
  }

  lemma MarkerShape(o: Owner)
    requires LegalOwner(o)
    ensures var t := MarkerText(o);
      && 0 < |t| <= MAX_BYTES && Ascii(t) && NoSpace(t)
      && t[|t| - 1] == '}' && (forall i | 0 <= i < |t| - 1 :: t[i] != '}')
  {
    var p, q, v := Pair("pid", Decimal(o.pid)), Pair("token", Quoted(o.token)), Pair("version", Decimal(1));
    MarkerIsShort(o);
    assert Inner(p) && Inner(q) && Inner(v) by {
      InnerOwner(o);
      InnerQuoted(o.token);
      InnerPair("pid", Decimal(o.pid));
      InnerPair("token", Quoted(o.token));
      InnerPair("version", Decimal(1));
    }
    InnerList(q, v);
    InnerList(p, q + "," + v);
    Braced(p + "," + (q + "," + v));
  }

  lemma MarkerBytes(o: Owner)
    requires LegalOwner(o)
    ensures var t, b := MarkerText(o), EncodeMarker(o).value;
      |b| == |t| && forall i | 0 <= i < |t| :: b[i] == t[i] as int
  {
    PrintedMarker(o);
    MarkerShape(o);
    AsciiEncodes(MarkerText(o));
  }

  // ---------- main results ----------

  lemma TextOwner(o: Owner)
    requires LegalOwner(o)
    ensures OwnerInText(Print(Document(o), true)) == Some(o)
  {
    PrintedMarker(o);
    MarkerShape(o);
    ParseOfPrint(Document(o), true, true);
  }

  /** Decoding gives back every legal owner. */
  lemma DecodeOfEncodeMarker(o: Owner)
    requires LegalOwner(o)
    ensures DecodeMarker(EncodeMarker(o).value) == Some(o)
  {
    MarkerBytes(o);
    MarkerShape(o);
    DecodeOfEncode(Print(Document(o), true));
    TextOwner(o);
  }

  /** Decoding accepts nothing outside the encoder's image. */
  lemma DecodedIsEncoded(data: Bytes)
    ensures forall o :: DecodeMarker(data) == Some(o) <==> EncodeMarker(o) == Some(data)
  {
    forall o | EncodeMarker(o) == Some(data) ensures DecodeMarker(data) == Some(o) {
      DecodeOfEncodeMarker(o);
    }
  }

  /** The closing brace occurs once, at the end, so no encoding is a proper prefix of another. */
  lemma EncodingsAreNotPrefixes(o: Owner, o': Owner, k: nat)
    requires LegalOwner(o) && LegalOwner(o') && k <= |EncodeMarker(o).value|
    requires EncodeMarker(o').value == EncodeMarker(o).value[..k]
    ensures k == |EncodeMarker(o).value|
  {
    MarkerBytes(o);
    MarkerShape(o);
    MarkerBytes(o');
    MarkerShape(o');
    assert EncodeMarker(o').value[k - 1] == EncodeMarker(o).value[k - 1];
  }

  /** A proper prefix of an encoded marker, such as a half-written file, is never accepted. */
  lemma ProperPrefixRejected(o: Owner, k: nat)
    requires LegalOwner(o) && k < |EncodeMarker(o).value|
    ensures DecodeMarker(EncodeMarker(o).value[..k]) == None
  {
    var r := DecodeMarker(EncodeMarker(o).value[..k]);
    if r.Some? {
      EncodingsAreNotPrefixes(o, r.value, k);
    }
  }

  /** Bytes are a marker exactly if they are the canonical text of a pid of 32 bits that is not zero and
      of a token of 1 to 64 lower-case hexadecimal digits. */
  lemma MarkerBytesExactly(data: Bytes, o: Owner)
    ensures DecodeMarker(data) == Some(o) <==>
      && 0 < o.pid < 0x1_0000_0000 && 1 <= |o.token| <= 64 && (forall c | c in o.token :: '0' <= c <= '9' || 'a' <= c <= 'f')
      && data == Encode(Print(Document(o), true))
  {
    if LegalOwner(o) {
      DecodeOfEncodeMarker(o);
    }
    if DecodeMarker(data).Some? {
      DecodedIsEncoded(data);
    }
    assert (forall i | 0 <= i < |o.token| :: IsLowerHex(o.token[i])) <==> (forall c | c in o.token :: IsLowerHex(c)) by {
      assert forall i | 0 <= i < |o.token| :: o.token[i] in o.token;
    }
  }
}
