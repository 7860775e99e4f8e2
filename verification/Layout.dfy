/**
 Part names read from the outside: a decoder for id components, and the layout of a whole
 name, without reference to how either is rendered.
 */
module Layout {
  import opened Options
  import opened Naming
  import opened Text

  // --------------------------------------------------------------- components

  function HexDigit(c: char): Option<nat> {
    if '0' <= c <= '9' then Some((c - '0') as int)
    else if 'a' <= c <= 'f' then Some((c - 'a') as int + 10)
    else None
  }

  /** Letters and digits stand for themselves; an underscore and two hex digits for one byte, high half first. */
  function Decode(s: string): Option<Id> {
    if s == "" then Some([])
    else if 'a' <= s[0] <= 'z' || '0' <= s[0] <= '9' then
      match Decode(s[1..])
      case None => None
      case Some(rest) => Some([s[0] as int] + rest)
    else if s[0] == '_' && |s| >= 3 && HexDigit(s[1]).Some? && HexDigit(s[2]).Some? then
      match Decode(s[3..])
      case None => None
      case Some(rest) => Some([16 * HexDigit(s[1]).value + HexDigit(s[2]).value] + rest)
    else None
  }

  lemma HexReads(n: nat)
    requires n < 16
    ensures HexDigit(HEX[n]) == Some(n)
  {
    assert HEX[0] == '0' && HEX[1] == '1' && HEX[2] == '2' && HEX[3] == '3';
    assert HEX[4] == '4' && HEX[5] == '5' && HEX[6] == '6' && HEX[7] == '7';
    assert HEX[8] == '8' && HEX[9] == '9' && HEX[10] == 'a' && HEX[11] == 'b';
    assert HEX[12] == 'c' && HEX[13] == 'd' && HEX[14] == 'e' && HEX[15] == 'f';
  }

  /** One byte: 97 to 122 and 48 to 57 are written as they are, every other one as its two hex digits. */
  lemma ByteReads(b: Byte)
    ensures 97 <= b <= 122 || 48 <= b <= 57 ==> EncodeByte(b) == [b as char]
    ensures !(97 <= b <= 122 || 48 <= b <= 57) ==>
              && |EncodeByte(b)| == 3 && EncodeByte(b)[0] == '_'
              && HexDigit(EncodeByte(b)[1]) == Some(b / 16) && HexDigit(EncodeByte(b)[2]) == Some(b % 16)
  {
    HexReads(b / 16);
    HexReads(b % 16);
  }

  lemma DecodePlain(c: char, rest: string)
    requires Decode(rest).Some? && ('a' <= c <= 'z' || '0' <= c <= '9')
    ensures Decode([c] + rest) == Some([c as int] + Decode(rest).value)
  {
    assert ([c] + rest)[1..] == rest;
  }

  lemma DecodeEscape(hi: char, lo: char, rest: string)
    requires Decode(rest).Some? && HexDigit(hi).Some? && HexDigit(lo).Some?
    ensures Decode(['_', hi, lo] + rest) ==
            Some([16 * HexDigit(hi).value + HexDigit(lo).value] + Decode(rest).value)
  {
    assert (['_', hi, lo] + rest)[3..] == rest;
  }

  lemma DecodeByte(b: Byte, rest: string)
    requires Decode(rest).Some?
    ensures Decode(EncodeByte(b) + rest) == Some([b] + Decode(rest).value)
  {
    ByteReads(b);
    var e := EncodeByte(b);
    if 97 <= b <= 122 || 48 <= b <= 57 {
      DecodePlain(b as char, rest);
    } else {
      assert e == ['_', e[1], e[2]];
      DecodeEscape(e[1], e[2], rest);
    }
  }

  /** Decoding undoes the encoding of every byte string. */
  lemma {:induction false} DecodeEncode(raw: Id)
    ensures Decode(Encode(raw)) == Some(raw)
  {
    if raw != [] {
      DecodeEncode(raw[1..]);
      DecodeByte(raw[0], Encode(raw[1..]));
      assert [raw[0]] + raw[1..] == raw;
    }
  }

  // -------------------------------------------------------------------- names

  /** The digits are the number's plain decimal form. */
  predicate Denotes(digits: string, n: nat) {
    digits != "" && AllDigits(digits) && Value(digits) == n && (digits[0] == '0' ==> digits == "0")
  }

  lemma {:induction false} DecimalLeads(n: nat)
    ensures Decimal(n) != "" && (Decimal(n)[0] == '0' ==> n == 0)
  {
    if n >= 10 {
      DecimalLeads(n / 10);
      assert Decimal(n)[0] == Decimal(n / 10)[0];
    } else {
      DigitValue(n);
    }
  }

  lemma DecimalDenotes(n: nat)
    ensures Denotes(Decimal(n), n)
  {
    ValueOfDecimal(n);
    DecimalLeads(n);
    assert HEX[0] == '0';
  }

  ghost predicate ReadsTail(tail: string, disc: PartDiscriminator) {
    match disc
    case Window => tail == "primary.parquet"
    case Snapshot(n) => exists d :: Denotes(d, n) && tail == "snapshot-" + d + ".parquet"
    case Supplement(origin, first, last) =>
      exists e, a, b ::
        && Decode(e) == Some(origin) && Denotes(a, first) && Denotes(b, last)
        && tail == "supplement-" + e + "-" + a + "-" + b + ".parquet"
  }

  ghost predicate ReadsFile(file: string, window: nat, disc: PartDiscriminator) {
    exists d, tail :: Denotes(d, window) && ReadsTail(tail, disc) && file == "w" + d + "-" + tail
  }

  lemma TailReads(disc: PartDiscriminator)
    ensures ReadsTail(Tail(disc), disc)
  {
    match disc
    case Window => PrimaryReads();
    case Snapshot(n) => SnapshotReads(n);
    case Supplement(o, f, l) => SupplementReads(o, f, l);
  }

  lemma PrimaryReads()
    ensures Tail(Window) == "primary.parquet"
  {
  }

  lemma SnapshotReads(n: nat)
    ensures ReadsTail(Tail(Snapshot(n)), Snapshot(n))
  {
    var d := Decimal(n);
    DecimalDenotes(n);
    assert "snapshot" + ['-'] == "snapshot-" && ['.'] + EXTENSION == ".parquet";
    assert Tail(Snapshot(n)) == "snapshot" + ['-'] + (d + ['.'] + EXTENSION);
    assert d + ['.'] + EXTENSION == d + (['.'] + EXTENSION);
    Flatten("snapshot-", d, ".parquet");
  }

  lemma Flatten(a: string, b: string, c: string)
    ensures a + (b + c) == a + b + c
  {
  }

  lemma SupplementReads(o: Id, f: nat, l: nat)
    ensures ReadsTail(Tail(Supplement(o, f, l)), Supplement(o, f, l))
  {
    var e, a, b := Encode(o), Decimal(f), Decimal(l);
    DecodeEncode(o);
    DecimalDenotes(f);
    DecimalDenotes(l);
    SupplementText(e, a, b);
    assert Tail(Supplement(o, f, l)) == Join("supplement", '-', Join(e, '-', Join(a, '-', Join(b, '.', EXTENSION))));
  }

  lemma SupplementText(e: string, a: string, b: string)
    ensures Join("supplement", '-', Join(e, '-', Join(a, '-', Join(b, '.', EXTENSION))))
            == "supplement-" + e + "-" + a + "-" + b + ".parquet"
  {
    var last := Join(b, '.', EXTENSION);
    assert "supplement" + ['-'] == "supplement-" && ['.'] + EXTENSION == ".parquet" && "-" == ['-'];
    assert last == b + ".parquet";
    assert Join(a, '-', last) == a + "-" + b + ".parquet";
    assert Join(e, '-', Join(a, '-', last)) == e + "-" + a + "-" + b + ".parquet";
  }

  /** A name has three segments: the dataset, the partition, and a file for the window and the kind. */
  lemma NameReads(key: FenceKey)
    ensures var parts := Split(PartName(key));
            && |parts| == 3
            && Decode(parts[0]) == Some(key.dataset) && Decode(parts[1]) == Some(key.partition)
            && ReadsFile(parts[2], key.window, key.disc)
  {
    var d, p, f := Encode(key.dataset), Encode(key.partition), FileName(key.window, key.disc);
    EncodeAlphabet(key.dataset);
    EncodeAlphabet(key.partition);
    FileNamePlain(key.window, key.disc);
    SplitFirst(d, Join(p, '/', f));
    SplitFirst(p, f);
    SplitWhole(f);
    assert Split(PartName(key)) == [d] + ([p] + [f]);
    DecodeEncode(key.dataset);
    DecodeEncode(key.partition);
    DecimalDenotes(key.window);
    TailReads(key.disc);
    assert f == "w" + Decimal(key.window) + "-" + Tail(key.disc);
  }
}
