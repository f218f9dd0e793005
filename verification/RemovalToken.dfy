/**
 The removal preview token (crates/multiplex-cli/src/local.rs): a fixed prefix and six decimal
 numbers, separated by colons.
 */
module RemovalToken {
  import opened Wrappers

  datatype Manifest = Manifest(
    metadataBytes: nat, journalBytes: nat, transcriptBytes: nat, artifactBytes: nat, fileCount: nat)
  {
    predicate RequiresTitle() { transcriptBytes > 0 || artifactBytes > 0 }
  }

  datatype Token = Token(revision: nat, manifest: Manifest)

  /** Every field fits a u64. */
  predicate InRange(t: Token) {
    && t.revision <= U64_MAX
    && t.manifest.metadataBytes <= U64_MAX
    && t.manifest.journalBytes <= U64_MAX
    && t.manifest.transcriptBytes <= U64_MAX
    && t.manifest.artifactBytes <= U64_MAX
    && t.manifest.fileCount <= U64_MAX
  }

  const PREFIX: string := "tr-remove-v1"
  const MAX_TOKEN_BYTES: nat := 256

  // ---------------------------------------------------------------- decimal numbers

  function Digit(d: nat): char
    requires d < 10
  {
    '0' + d as char
  }

  predicate IsDigit(c: char) { '0' <= c <= '9' }

  function Decimal(n: nat): string
    decreases n
  {
    if n < 10 then [Digit(n)] else Decimal(n / 10) + [Digit(n % 10)]
  }

  /** Accumulates digits, refusing any other character and any value above the 64-bit range. */
  function ParseDigits(s: string, acc: nat): Option<nat>
    decreases |s|
  {
    if s == [] then Some(acc)
    else if !IsDigit(s[0]) then None
    else
      var next := acc * 10 + (s[0] - '0') as nat;
      if next > U64_MAX then None else ParseDigits(s[1..], next)
  }

  /** The library's unsigned parser: one optional plus sign, then at least one digit. */
  function ParseU64(s: string): Option<nat> {
    var digits := if s != [] && s[0] == '+' then s[1..] else s;
    if digits == [] then None else ParseDigits(digits, 0)
  }

  lemma {:induction false} ParseDigitsSnoc(s: string, acc: nat, d: nat)
    requires d < 10
    ensures ParseDigits(s + [Digit(d)], acc) ==
            match ParseDigits(s, acc)
            case None => None
            case Some(v) => if v * 10 + d > U64_MAX then None else Some(v * 10 + d)
    decreases |s|
  {
    var t := s + [Digit(d)];
    if s == [] {
      assert t[1..] == [];
    } else {
      assert t[1..] == s[1..] + [Digit(d)];
      if IsDigit(s[0]) {
        ParseDigitsSnoc(s[1..], acc * 10 + (s[0] - '0') as nat, d);
      }
    }
  }

  lemma {:induction false} DecimalParses(n: nat)
    requires n <= U64_MAX
    ensures ParseDigits(Decimal(n), 0) == Some(n)
    ensures forall c :: c in Decimal(n) ==> IsDigit(c)
    decreases n
  {
    if n < 10 {
      assert Decimal(n)[1..] == [];
    } else {
      DecimalParses(n / 10);
      ParseDigitsSnoc(Decimal(n / 10), 0, n % 10);
    }
  }

  lemma ParseDecimal(n: nat)
    requires n <= U64_MAX
    ensures ParseU64(Decimal(n)) == Some(n)
    ensures ':' !in Decimal(n) && forall c :: c in Decimal(n) ==> IsDigit(c)
  {
    DecimalParses(n);
    assert Decimal(n) != [];
    assert Decimal(n)[0] in Decimal(n);
  }

  function Pow10(k: nat): nat { if k == 0 then 1 else 10 * Pow10(k - 1) }

  lemma {:induction false} DecimalLength(n: nat, k: nat)
    requires 1 <= k && n < Pow10(k)
    ensures 1 <= |Decimal(n)| <= k
    decreases k
  {
    if n >= 10 {
      assert k > 1;
      DecimalLength(n / 10, k - 1);
    }
  }

  // ---------------------------------------------------------------- colon-separated fields

  function Split(s: string): (parts: seq<string>)
    ensures parts != []
    decreases |s|
  {
    if s == [] then [[]]
    else
      var rest := Split(s[1..]);
      if s[0] == ':' then [[]] + rest else [[s[0]] + rest[0]] + rest[1..]
  }

  lemma {:induction false} SplitField(field: string, rest: string)
    requires ':' !in field
    ensures Split(field + ":" + rest) == [field] + Split(rest)
    decreases |field|
  {
    var s := field + ":" + rest;
    if field == [] {
      assert s[1..] == rest;
    } else {
      assert s[1..] == field[1..] + ":" + rest;
      SplitField(field[1..], rest);
      assert [s[0]] + field[1..] == field;
    }
  }

  lemma {:induction false} SplitLast(field: string)
    requires ':' !in field
    ensures Split(field) == [field]
    decreases |field|
  {
    if field != [] {
      SplitLast(field[1..]);
      assert [field[0]] + field[1..] == field;
    }
  }

  function Join(fields: seq<string>): string
    requires fields != []
    decreases |fields|
  {
    if |fields| == 1 then fields[0] else fields[0] + ":" + Join(fields[1..])
  }

  /** Splitting undoes joining, provided no field holds a colon. */
  lemma {:induction false} SplitJoin(fields: seq<string>)
    requires fields != [] && forall f :: f in fields ==> ':' !in f
    ensures Split(Join(fields)) == fields
    decreases |fields|
  {
    assert fields[0] in fields;
    if |fields| == 1 {
      SplitLast(fields[0]);
    } else {
      SplitField(fields[0], Join(fields[1..]));
      SplitJoin(fields[1..]);
    }
  }

  lemma {:induction false} JoinFits(fields: seq<string>)
    requires fields != [] && forall f :: f in fields ==> Ascii(f) && |f| <= 20
    ensures Ascii(Join(fields)) && |Join(fields)| <= 21 * |fields|
    decreases |fields|
  {
    assert fields[0] in fields;
    if |fields| > 1 {
      JoinFits(fields[1..]);
    }
  }

  // ---------------------------------------------------------------- the codec

  function Fields(t: Token): (fields: seq<string>)
    ensures |fields| == 7
  {
    [PREFIX, Decimal(t.revision), Decimal(t.manifest.metadataBytes), Decimal(t.manifest.journalBytes),
     Decimal(t.manifest.transcriptBytes), Decimal(t.manifest.artifactBytes), Decimal(t.manifest.fileCount)]
  }

  function Encode(t: Token): string { Join(Fields(t)) }

  /** How many bytes a character takes in UTF-8. */
  function Utf8Length(s: string): nat
    decreases |s|
  {
    if s == [] then 0
    else
      var c := s[0] as int;
      (if c < 0x80 then 1 else if c < 0x800 then 2 else if c < 0x10000 then 3 else 4) + Utf8Length(s[1..])
  }

  function Parse(value: string): Option<Token> {
    if Utf8Length(value) > MAX_TOKEN_BYTES then None
    else
      var parts := Split(value);
      if |parts| < 7 || parts[0] != PREFIX then None
      else
        match (ParseU64(parts[1]), ParseU64(parts[2]), ParseU64(parts[3]), ParseU64(parts[4]),
               ParseU64(parts[5]), ParseU64(parts[6]))
        case (Some(revision), Some(metadata), Some(journal), Some(transcript), Some(artifact), Some(files)) =>
          var token := Token(revision, Manifest(metadata, journal, transcript, artifact, files));
          if |parts| > 7 || Encode(token) != value then None else Some(token)
        case _ => None
  }

  predicate Ascii(s: string) { forall c :: c in s ==> c < '\U{80}' }

  lemma {:induction false} AsciiBytes(s: string)
    requires Ascii(s)
    ensures Utf8Length(s) == |s|
    decreases |s|
  {
    if s != [] {
      assert s[0] in s && forall c :: c in s[1..] ==> c in s;
      AsciiBytes(s[1..]);
    }
  }

  /** Each number takes one to twenty ASCII digits. */
  lemma FieldFits(n: nat)
    requires n <= U64_MAX
    ensures 1 <= |Decimal(n)| <= 20 && Ascii(Decimal(n)) && ':' !in Decimal(n)
  {
    TwentyDigits();
    DecimalLength(n, 20);
    ParseDecimal(n);
  }

  lemma TwentyDigits()
    ensures U64_MAX < Pow10(20)
  {
    assert Pow10(5) == 100_000;
    assert Pow10(10) == 10_000_000_000;
    assert Pow10(15) == 1_000_000_000_000_000;
    assert Pow10(20) == 100_000_000_000_000_000_000;
  }

  lemma FieldsFit(t: Token)
    requires InRange(t)
    ensures forall f :: f in Fields(t) ==> Ascii(f) && |f| <= 20 && ':' !in f
  {
    forall i | 1 <= i < 7 ensures Ascii(Fields(t)[i]) && |Fields(t)[i]| <= 20 && ':' !in Fields(t)[i] {
      var n := match i
        case 1 => t.revision
        case 2 => t.manifest.metadataBytes
        case 3 => t.manifest.journalBytes
        case 4 => t.manifest.transcriptBytes
        case 5 => t.manifest.artifactBytes
        case _ => t.manifest.fileCount;
      FieldFits(n);
    }
  }

  lemma EncodingFits(t: Token)
    requires InRange(t)
    ensures Utf8Length(Encode(t)) <= MAX_TOKEN_BYTES && Split(Encode(t)) == Fields(t)
  {
    FieldsFit(t);
    JoinFits(Fields(t));
    AsciiBytes(Encode(t));
    SplitJoin(Fields(t));
  }

  /** Every token over 64-bit fields survives encoding and parsing, within the length limit. */
  lemma RoundTrip(t: Token)
    requires InRange(t)
    ensures Utf8Length(Encode(t)) <= MAX_TOKEN_BYTES && Parse(Encode(t)) == Some(t)
  {
    EncodingFits(t);
    var m := t.manifest;
    ParseDecimal(t.revision); ParseDecimal(m.metadataBytes); ParseDecimal(m.journalBytes);
    ParseDecimal(m.transcriptBytes); ParseDecimal(m.artifactBytes); ParseDecimal(m.fileCount);
  }

  lemma {:induction false} ParsedInRange(s: string, acc: nat)
    requires acc <= U64_MAX && ParseDigits(s, acc).Some?
    ensures ParseDigits(s, acc).value <= U64_MAX
    decreases |s|
  {
    if s != [] { ParsedInRange(s[1..], acc * 10 + (s[0] - '0') as nat); }
  }

  /** A string is accepted exactly when it is the encoding of a token in range, and then of the one it yields. */
  lemma ParseExact(s: string)
    ensures Parse(s).Some? <==> exists t :: InRange(t) && s == Encode(t)
    ensures Parse(s).Some? ==> InRange(Parse(s).value) && s == Encode(Parse(s).value)
  {
    if Parse(s).Some? {
      var parts := Split(s);
      forall i | 1 <= i < 7 ensures ParseU64(parts[i]).value <= U64_MAX {
        var p := parts[i];
        ParsedInRange(if p != [] && p[0] == '+' then p[1..] else p, 0);
      }
      assert InRange(Parse(s).value);
    }
    if t :| InRange(t) && s == Encode(t) {
      RoundTrip(t);
    }
  }

  /** Different tokens have different encodings. */
  lemma EncodeInjective(a: Token, b: Token)
    requires InRange(a) && InRange(b) && Encode(a) == Encode(b)
    ensures a == b
  {
    RoundTrip(a);
    RoundTrip(b);
  }
}
