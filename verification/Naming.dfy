/**
 Deterministic part naming: the object name of one part is a pure function of
 its fence key, and distinct fence keys get distinct names.
 */
module Naming {

  /** Ids are opaque byte strings (the UTF-8 bytes of the source's string ids). */
  type Byte = b: int | 0 <= b < 256
  type Id = seq<Byte>

  datatype PartDiscriminator =
    | Window
    | Supplement(origin: Id, firstSeq: nat, lastSeq: nat)
    | Snapshot(asOfSeq: nat)

  /** What the SQL fence keys a part by. */
  datatype FenceKey = FenceKey(dataset: Id, partition: Id, window: nat, disc: PartDiscriminator)

  const HEX := "0123456789abcdef"
  const EXTENSION := "parquet"

  predicate IsPlain(b: Byte) {
    'a' as int <= b <= 'z' as int || '0' as int <= b <= '9' as int
  }

  function EncodeByte(b: Byte): string {
    if IsPlain(b) then [b as char] else ['_', HEX[b / 16], HEX[b % 16]]
  }

  function Encode(raw: Id): string {
    if raw == [] then "" else EncodeByte(raw[0]) + Encode(raw[1..])
  }

  /** Decimal rendering of an unsigned integer. */
  function Decimal(n: nat): string {
    if n < 10 then [HEX[n]] else Decimal(n / 10) + [HEX[n % 10]]
  }

  function Join(left: string, sep: char, right: string): string {
    left + [sep] + right
  }

  /** The name's tail: kind token, discriminator, extension. */
  function Tail(disc: PartDiscriminator): string {
    match disc
    case Window => Join("primary", '.', EXTENSION)
    case Supplement(origin, first, last) =>
      Join("supplement", '-', Join(Encode(origin), '-', Join(Decimal(first), '-', Join(Decimal(last), '.', EXTENSION))))
    case Snapshot(asOf) => Join("snapshot", '-', Join(Decimal(asOf), '.', EXTENSION))
  }

  /** `{dataset}/{partition}/w{window}-{kind}[-{discriminator}].parquet` */
  function PartName(key: FenceKey): string {
    Join(Encode(key.dataset), '/', Join(Encode(key.partition), '/', FileName(key.window, key.disc)))
  }

  function FileName(window: nat, disc: PartDiscriminator): string {
    Join(['w'] + Decimal(window), '-', Tail(disc))
  }

  // ---------------------------------------------------------------- encoding

  lemma {:induction false} EncodeAppend(a: Id, b: Id)
    ensures Encode(a + b) == Encode(a) + Encode(b)
  {
    if a == [] {
      assert a + b == b;
    } else {
      assert (a + b)[1..] == a[1..] + b;
      EncodeAppend(a[1..], b);
    }
  }

  /** The byte loop of `encode_component`. */
  method EncodeComponent(raw: Id) returns (out: string)
    ensures out == Encode(raw)
    ensures forall c <- out :: c != '/' && c != '-' && c != '.'
  {
    out := "";
    for i := 0 to |raw|
      invariant out == Encode(raw[..i])
    {
      if IsPlain(raw[i]) {
        out := out + [raw[i] as char];
      } else {
        out := out + ['_', HEX[raw[i] / 16], HEX[raw[i] % 16]];
      }
      assert raw[..i + 1] == raw[..i] + [raw[i]];
      EncodeAppend(raw[..i], [raw[i]]);
    }
    assert raw[..|raw|] == raw;
    EncodeAlphabet(raw);
  }

  /** The encoding's alphabet: neither separator of the layout occurs in it. */
  lemma {:induction false} EncodeAlphabet(raw: Id)
    ensures forall c <- Encode(raw) :: 'a' <= c <= 'z' || '0' <= c <= '9' || c == '_'
  {
    if raw != [] {
      EncodeAlphabet(raw[1..]);
    }
  }

  lemma {:induction false} EncodeInjective(a: Id, b: Id)
    requires Encode(a) == Encode(b)
    ensures a == b
  {
    if a == [] || b == [] {
      assert |a| == |b|;
    } else {
      var ea, eb := EncodeByte(a[0]), EncodeByte(b[0]);
      assert Encode(a)[0] == ea[0] && Encode(b)[0] == eb[0];
      assert IsPlain(a[0]) == IsPlain(b[0]);
      assert Encode(a)[..|ea|] == ea && Encode(b)[..|eb|] == eb;
      assert a[0] == b[0] by {
        assert ea == eb;
        if !IsPlain(a[0]) {
          HexInjective(a[0] / 16, b[0] / 16, ea[1], eb[1]);
          HexInjective(a[0] % 16, b[0] % 16, ea[2], eb[2]);
        }
      }
      assert Encode(a)[|ea|..] == Encode(a[1..]) && Encode(b)[|eb|..] == Encode(b[1..]);
      EncodeInjective(a[1..], b[1..]);
      assert a == [a[0]] + a[1..] && b == [b[0]] + b[1..];
    }
  }

  lemma HexInjective(m: nat, n: nat, c: char, d: char)
    requires m < 16 && n < 16 && c == HEX[m] && d == HEX[n] && c == d
    ensures m == n
  {
  }

  // ----------------------------------------------------------------- decimal

  lemma {:induction false} DecimalDigits(n: nat)
    ensures Decimal(n) != "" && forall c <- Decimal(n) :: '0' <= c <= '9'
  {
    if n >= 10 {
      DecimalDigits(n / 10);
    }
  }

  lemma {:induction false} DecimalInjective(m: nat, n: nat)
    requires Decimal(m) == Decimal(n)
    ensures m == n
    decreases m
  {
    var dm, dn := Decimal(m), Decimal(n);
    DecimalDigits(m / 10);
    DecimalDigits(n / 10);
    assert dm[|dm| - 1] == HEX[m % 10] && dn[|dn| - 1] == HEX[n % 10];
    HexInjective(m % 10, n % 10, dm[|dm| - 1], dn[|dn| - 1]);
    if m >= 10 {
      assert |dm| > 1;
      assert dm[..|dm| - 1] == Decimal(m / 10);
      assert dn[..|dn| - 1] == Decimal(n / 10);
      DecimalInjective(m / 10, n / 10);
    }
  }

  // ------------------------------------------------------------------ layout

  /** A separator that occurs in neither left part splits a join uniquely. */
  lemma SplitUnique(a: string, b: string, sep: char, x: string, y: string)
    requires sep !in a && sep !in b
    requires Join(a, sep, x) == Join(b, sep, y)
    ensures a == b && x == y
  {
    var s := Join(a, sep, x);
    assert s[|a|] == sep && s[|b|] == sep;
    assert forall k | 0 <= k < |a| :: s[k] == a[k] && a[k] != sep;
    assert forall k | 0 <= k < |b| :: s[k] == b[k] && b[k] != sep;
    assert |a| == |b|;
    assert a == s[..|a|] && b == s[..|b|];
    assert x == s[|a| + 1..] && y == s[|b| + 1..];
  }

  lemma SplitDecimal(m: nat, n: nat, sep: char, x: string, y: string)
    requires !('0' <= sep <= '9')
    requires Join(Decimal(m), sep, x) == Join(Decimal(n), sep, y)
    ensures m == n && x == y
  {
    DecimalDigits(m);
    DecimalDigits(n);
    SplitUnique(Decimal(m), Decimal(n), sep, x, y);
    DecimalInjective(m, n);
  }

  lemma SplitEncoded(a: Id, b: Id, sep: char, x: string, y: string)
    requires sep == '/' || sep == '-'
    requires Join(Encode(a), sep, x) == Join(Encode(b), sep, y)
    ensures a == b && x == y
  {
    EncodeAlphabet(a);
    EncodeAlphabet(b);
    SplitUnique(Encode(a), Encode(b), sep, x, y);
    EncodeInjective(a, b);
  }

  lemma TailKind(d: PartDiscriminator)
    ensures |Tail(d)| > 1
    ensures Tail(d)[1] == match d case Window => 'r' case Supplement(_, _, _) => 'u' case Snapshot(_) => 'n'
  {
  }

  lemma TailInjective(d: PartDiscriminator, e: PartDiscriminator)
    requires Tail(d) == Tail(e)
    ensures d == e
  {
    TailKind(d);
    TailKind(e);
    match d {
      case Window =>
      case Snapshot(m) =>
        var n := e.asOfSeq;
        var x, y := Join(Decimal(m), '.', EXTENSION), Join(Decimal(n), '.', EXTENSION);
        SplitUnique("snapshot", "snapshot", '-', x, y);
        SplitDecimal(m, n, '.', EXTENSION, EXTENSION);
      case Supplement(o, f, l) =>
        var x, x' := Join(Decimal(l), '.', EXTENSION), Join(Decimal(e.lastSeq), '.', EXTENSION);
        var y, y' := Join(Decimal(f), '-', x), Join(Decimal(e.firstSeq), '-', x');
        SplitUnique("supplement", "supplement", '-', Join(Encode(o), '-', y), Join(Encode(e.origin), '-', y'));
        SplitEncoded(o, e.origin, '-', y, y');
        SplitDecimal(f, e.firstSeq, '-', x, x');
        SplitDecimal(l, e.lastSeq, '.', EXTENSION, EXTENSION);
    }
  }

  lemma FileNameInjective(m: nat, d: PartDiscriminator, n: nat, e: PartDiscriminator)
    requires FileName(m, d) == FileName(n, e)
    ensures m == n && d == e
  {
    var x, y := Tail(d), Tail(e);
    DecimalDigits(m);
    DecimalDigits(n);
    SplitUnique(['w'] + Decimal(m), ['w'] + Decimal(n), '-', x, y);
    assert (['w'] + Decimal(m))[1..] == Decimal(m) && (['w'] + Decimal(n))[1..] == Decimal(n);
    DecimalInjective(m, n);
    TailInjective(d, e);
  }

  /** The fence key is recoverable from the name, for arbitrary byte-string ids. */
  lemma PartNameInjective(k: FenceKey, k': FenceKey)
    ensures PartName(k) == PartName(k') <==> k == k'
  {
    if PartName(k) == PartName(k') {
      var y, y' := FileName(k.window, k.disc), FileName(k'.window, k'.disc);
      SplitEncoded(k.dataset, k'.dataset, '/', Join(Encode(k.partition), '/', y), Join(Encode(k'.partition), '/', y'));
      SplitEncoded(k.partition, k'.partition, '/', y, y');
      FileNameInjective(k.window, k.disc, k'.window, k'.disc);
    }
  }

  // ------------------------------------------------------------ object paths

  /** Split at every '/'. */
  function Split(s: string): (parts: seq<string>)
    ensures parts != []
  {
    if s == "" then [""]
    else
      var rest := Split(s[1..]);
      if s[0] == '/' then [""] + rest else [[s[0]] + rest[0]] + rest[1..]
  }

  function NonEmpty(parts: seq<string>): seq<string> {
    if parts == [] then []
    else if parts[0] == "" then NonEmpty(parts[1..])
    else [parts[0]] + NonEmpty(parts[1..])
  }

  function JoinPath(parts: seq<string>): string {
    if parts == [] then "" else if |parts| == 1 then parts[0] else Join(parts[0], '/', JoinPath(parts[1..]))
  }

  /** Where a name is stored: the object store's path drops empty segments. */
  function Location(name: string): string {
    JoinPath(NonEmpty(Split(name)))
  }

  function ObjectPath(key: FenceKey): string {
    Location(PartName(key))
  }

  lemma {:induction false} SplitFirst(a: string, rest: string)
    requires '/' !in a
    ensures Split(Join(a, '/', rest)) == [a] + Split(rest)
  {
    var s := Join(a, '/', rest);
    if a == "" {
      assert s[1..] == rest;
    } else {
      assert s[1..] == Join(a[1..], '/', rest);
      assert a[0] in a && forall c <- a[1..] :: c in a;
      SplitFirst(a[1..], rest);
      assert [s[0]] + a[1..] == a;
    }
  }

  lemma {:induction false} SplitWhole(a: string)
    requires '/' !in a
    ensures Split(a) == [a]
  {
    if a != "" {
      assert a[0] in a && forall c <- a[1..] :: c in a;
      SplitWhole(a[1..]);
      assert [a[0]] + a[1..] == a;
    }
  }

  /** A path of proper segments splits back into them. */
  lemma {:induction false} SplitPath(parts: seq<string>)
    requires parts != [] && forall i | 0 <= i < |parts| :: '/' !in parts[i]
    ensures Split(JoinPath(parts)) == parts
  {
    if |parts| == 1 {
      SplitWhole(parts[0]);
    } else {
      SplitFirst(parts[0], JoinPath(parts[1..]));
      SplitPath(parts[1..]);
    }
  }

  lemma FileNamePlain(window: nat, disc: PartDiscriminator)
    ensures '/' !in FileName(window, disc) && FileName(window, disc) != ""
  {
    DecimalDigits(window);
    TailPlain(disc);
  }

  lemma TailPlain(disc: PartDiscriminator)
    ensures '/' !in Tail(disc)
  {
    match disc
    case Window =>
    case Snapshot(n) => DecimalDigits(n);
    case Supplement(o, f, l) =>
      EncodeAlphabet(o);
      DecimalDigits(f);
      DecimalDigits(l);
  }

  /** The segments a key's object is stored under. */
  function Segments(key: FenceKey): seq<string> {
    NonEmpty([Encode(key.dataset), Encode(key.partition), FileName(key.window, key.disc)])
  }

  lemma SegmentsOfName(key: FenceKey)
    ensures NonEmpty(Split(PartName(key))) == Segments(key)
    ensures Segments(key) != [] && forall i | 0 <= i < |Segments(key)| :: '/' !in Segments(key)[i]
  {
    var d, p, f := Encode(key.dataset), Encode(key.partition), FileName(key.window, key.disc);
    EncodeAlphabet(key.dataset);
    EncodeAlphabet(key.partition);
    FileNamePlain(key.window, key.disc);
    SplitFirst(d, Join(p, '/', f));
    SplitFirst(p, f);
    SplitWhole(f);
    assert [d] + ([p] + [f]) == [d, p, f];
    SegmentCases(d, p, f);
  }

  lemma SegmentCases(d: string, p: string, f: string)
    requires f != ""
    ensures NonEmpty([d, p, f]) ==
            (if d == "" then [] else [d]) + (if p == "" then [] else [p]) + [f]
  {
    assert [d, p, f][1..] == [p, f];
    assert [p, f][1..] == [f];
    assert NonEmpty([f]) == [f];
    assert NonEmpty([p, f]) == (if p == "" then [] else [p]) + [f];
  }

  /** One key has no dataset, the other no partition, and what is left is the same. */
  predicate Swapped(k: FenceKey, k': FenceKey) {
    && k.dataset == [] && k'.partition == [] && k.partition == k'.dataset
    && k.window == k'.window && k.disc == k'.disc
  }

  lemma SegmentsCollide(k: FenceKey, k': FenceKey)
    ensures Segments(k) == Segments(k') <==> k == k' || Swapped(k, k') || Swapped(k', k)
  {
    var f, f' := FileName(k.window, k.disc), FileName(k'.window, k'.disc);
    FileNamePlain(k.window, k.disc);
    FileNamePlain(k'.window, k'.disc);
    SegmentCases(Encode(k.dataset), Encode(k.partition), f);
    SegmentCases(Encode(k'.dataset), Encode(k'.partition), f');
    EncodeEmpty(k.dataset);
    EncodeEmpty(k.partition);
    EncodeEmpty(k'.dataset);
    EncodeEmpty(k'.partition);
    if Segments(k) == Segments(k') {
      SegmentsDetermine(k, k');
    }
  }

  lemma EncodeEmpty(a: Id)
    ensures Encode(a) == "" <==> a == []
  {
  }

  lemma SegmentsDetermine(k: FenceKey, k': FenceKey)
    requires Segments(k) == Segments(k')
    requires forall a <- {k, k'} :: Segments(a) ==
               (if Encode(a.dataset) == "" then [] else [Encode(a.dataset)])
               + (if Encode(a.partition) == "" then [] else [Encode(a.partition)]) + [FileName(a.window, a.disc)]
    requires forall a <- {k.dataset, k.partition, k'.dataset, k'.partition} :: Encode(a) == "" <==> a == []
    ensures k == k' || Swapped(k, k') || Swapped(k', k)
  {
    var s, s' := Segments(k), Segments(k');
    assert s[|s| - 1] == FileName(k.window, k.disc) && s'[|s'| - 1] == FileName(k'.window, k'.disc);
    FileNameInjective(k.window, k.disc, k'.window, k'.disc);
    if k.dataset != [] {
      assert s[0] == Encode(k.dataset);
    }
    if k'.dataset != [] {
      assert s'[0] == Encode(k'.dataset);
    }
    if k.partition != [] {
      assert s[|s| - 2] == Encode(k.partition);
    }
    if k'.partition != [] {
      assert s'[|s'| - 2] == Encode(k'.partition);
    }
    SameEncodings(k, k');
  }

  lemma SameEncodings(k: FenceKey, k': FenceKey)
    ensures Encode(k.dataset) == Encode(k'.dataset) ==> k.dataset == k'.dataset
    ensures Encode(k.partition) == Encode(k'.partition) ==> k.partition == k'.partition
    ensures Encode(k.dataset) == Encode(k'.partition) ==> k.dataset == k'.partition
    ensures Encode(k.partition) == Encode(k'.dataset) ==> k.partition == k'.dataset
  {
    if Encode(k.dataset) == Encode(k'.dataset) { EncodeInjective(k.dataset, k'.dataset); }
    if Encode(k.partition) == Encode(k'.partition) { EncodeInjective(k.partition, k'.partition); }
    if Encode(k.dataset) == Encode(k'.partition) { EncodeInjective(k.dataset, k'.partition); }
    if Encode(k.partition) == Encode(k'.dataset) { EncodeInjective(k.partition, k'.dataset); }
  }

  /**
   Names are injective, but the paths objects are stored under are not quite: two keys share
   an object exactly when they are one key, or one lacks its dataset id, the other its
   partition id, and the id that is left is the same.
   */
  lemma ObjectPathsCollideExactlyWhen(k: FenceKey, k': FenceKey)
    ensures ObjectPath(k) == ObjectPath(k') <==> k == k' || Swapped(k, k') || Swapped(k', k)
  {
    SegmentsOfName(k);
    SegmentsOfName(k');
    SplitPath(Segments(k));
    SplitPath(Segments(k'));
    SegmentsCollide(k, k');
  }

  /** One fence key's PUT replaces its own object, and no other's unless the two are swapped empty ids. */
  lemma PutTouchesOneKey<T>(objects: map<string, T>, key: FenceKey, bytes: T, other: FenceKey)
    requires !Swapped(key, other) && !Swapped(other, key)
    ensures var after := objects[ObjectPath(key) := bytes];
            && (other == key ==> after[ObjectPath(other)] == bytes)
            && (other != key ==>
                  && (ObjectPath(other) in after <==> ObjectPath(other) in objects)
                  && (ObjectPath(other) in objects ==> after[ObjectPath(other)] == objects[ObjectPath(other)]))
  {
    ObjectPathsCollideExactlyWhen(key, other);
  }
}
