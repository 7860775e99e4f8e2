/**
 Postgres connection strings in URI and keyword form: reading the address, and
 replacing it without disturbing anything else.
 */
module Dsn {
  import opened Options
  import opened Naming
  import opened Text

  const DEFAULT_PORT: nat := 5432

  datatype Address = Address(host: string, port: nat)
  datatype DsnError = Ipv6Host | BadPort | NoHost | NotKeywords | Empty
  datatype Field = Field(key: string, value: string)

  // ----------------------------------------------------------------- URI form

  /** Split at the first "://". */
  function SplitScheme(s: string): Option<(string, string)> {
    if |s| < 3 then None
    else if s[0] == ':' && s[1] == '/' && s[2] == '/' then Some(("", s[3..]))
    else
      match SplitScheme(s[1..])
      case None => None
      case Some((scheme, rest)) => Some(([s[0]] + scheme, rest))
  }

  /** Where the authority ends: at the first '/' or '?'. */
  function AuthorityEnd(s: string): (n: nat)
    ensures n <= |s|
    ensures forall k | 0 <= k < n :: s[k] != '/' && s[k] != '?'
    ensures n < |s| ==> s[n] == '/' || s[n] == '?'
  {
    if s == "" || s[0] == '/' || s[0] == '?' then 0 else 1 + AuthorityEnd(s[1..])
  }

  function Authority(rest: string): string {
    rest[..AuthorityEnd(rest)]
  }

  function Tail(rest: string): string {
    rest[AuthorityEnd(rest)..]
  }

  /** Up to and including the last '@', or nothing. */
  function UserInfo(authority: string): string {
    authority[..LastIndex(authority, '@') + 1]
  }

  function HostPort(authority: string): string {
    authority[LastIndex(authority, '@') + 1..]
  }

  function ParseHostPort(hp: string): Result<Address, DsnError> {
    if (hp != "" && hp[0] == '[') || Count(hp, ':') > 1 then Err(Ipv6Host)
    else
      var c := LastIndex(hp, ':');
      if c < 0 then Ok(Address(hp, DEFAULT_PORT))
      else
        match ParseU16(hp[c + 1..])
        case None => Err(BadPort)
        case Some(port) => Ok(Address(hp[..c], port))
  }

  // ------------------------------------------------------------- keyword form

  /** The Unicode White_Space characters. */
  predicate IsSpace(c: char) {
    var n := c as int;
    9 <= n <= 13 || n == 32 || n == 0x85 || n == 0xA0 || n == 0x1680 || 0x2000 <= n <= 0x200A
    || n == 0x2028 || n == 0x2029 || n == 0x202F || n == 0x205F || n == 0x3000
  }

  /** The separators one by one: the six of ASCII, and nineteen beyond. */
  const SPACES := "\t\n\U{0B}\U{0C}\r \U{85}\U{A0}\U{1680}\U{2028}\U{2029}\U{202F}\U{205F}\U{3000}"
                  + "\U{2000}\U{2001}\U{2002}\U{2003}\U{2004}\U{2005}\U{2006}\U{2007}\U{2008}\U{2009}\U{200A}"

  lemma SpacesListed(c: char)
    ensures IsSpace(c) <==> c in SPACES
  {
  }

  function WordEnd(s: string): (n: nat)
    ensures n <= |s|
    ensures forall k | 0 <= k < n :: !IsSpace(s[k])
    ensures n < |s| ==> IsSpace(s[n])
  {
    if s == "" || IsSpace(s[0]) then 0 else 1 + WordEnd(s[1..])
  }

  /** The maximal runs of non-space characters. */
  function Tokens(s: string): seq<string>
    decreases |s|
  {
    if s == "" then []
    else if IsSpace(s[0]) then Tokens(s[1..])
    else [s[..WordEnd(s)]] + Tokens(s[WordEnd(s)..])
  }

  function JoinAll(ts: seq<string>): string {
    if ts == [] then "" else if |ts| == 1 then ts[0] else ts[0] + " " + JoinAll(ts[1..])
  }

  predicate StartsWith(s: string, prefix: string) {
    |prefix| <= |s| && s[..|prefix|] == prefix
  }

  function KeywordPrefix(dsn: string): (prefix: string)
    ensures StartsWith(dsn, prefix)
  {
    if StartsWith(dsn, "postgresql:") then "postgresql:"
    else if StartsWith(dsn, "postgres:") then "postgres:"
    else ""
  }

  function Body(dsn: string): string {
    dsn[|KeywordPrefix(dsn)|..]
  }

  predicate HasEquals(t: string) {
    '=' in t
  }

  function SplitField(t: string): Field {
    var i := FirstIndex(t, '=');
    if i < 0 then Field(t, "") else Field(t[..i], t[i + 1..])
  }

  function Render(f: Field): string {
    f.key + "=" + f.value
  }

  function Fields(ts: seq<string>): (fs: seq<Field>)
    ensures |fs| == |ts| && forall i | 0 <= i < |ts| :: fs[i] == SplitField(ts[i])
  {
    seq(|ts|, i requires 0 <= i < |ts| => SplitField(ts[i]))
  }

  function Rendered(fs: seq<Field>): (ts: seq<string>)
    ensures |fs| == |ts| && forall i | 0 <= i < |ts| :: ts[i] == Render(fs[i])
  {
    seq(|fs|, i requires 0 <= i < |fs| => Render(fs[i]))
  }

  function Keywords(dsn: string): Result<seq<Field>, DsnError> {
    var ts := Tokens(Body(dsn));
    if exists t <- ts :: !HasEquals(t) then Err(NotKeywords)
    else if ts == [] then Err(Empty)
    else Ok(Fields(ts))
  }

  /** The loop that collects the fields stops at the first token that is none. */
  method KeywordTokens(dsn: string) returns (r: Result<seq<Field>, DsnError>)
    ensures r == Keywords(dsn)
  {
    var ts := Tokens(Body(dsn));
    var pairs: seq<Field> := [];
    for n := 0 to |ts|
      invariant |pairs| == n && forall i | 0 <= i < n :: HasEquals(ts[i]) && pairs[i] == SplitField(ts[i])
    {
      if !HasEquals(ts[n]) {
        return Err(NotKeywords);
      }
      pairs := pairs + [SplitField(ts[n])];
    }
    if pairs == [] {
      return Err(Empty);
    }
    assert pairs == Fields(ts);
    return Ok(pairs);
  }

  function Find(fs: seq<Field>, key: string): Option<string> {
    if fs == [] then None else if fs[0].key == key then Some(fs[0].value) else Find(fs[1..], key)
  }

  function ParseKeywords(dsn: string): Result<Address, DsnError> {
    match Keywords(dsn)
    case Err(e) => Err(e)
    case Ok(fs) =>
      match Find(fs, "host")
      case None => Err(NoHost)
      case Some(host) =>
        match Find(fs, "port")
        case None => Ok(Address(host, DEFAULT_PORT))
        case Some(text) =>
          match ParseU16(text)
          case None => Err(BadPort)
          case Some(port) => Ok(Address(host, port))
  }

  // -------------------------------------------------------- parse and rewrite

  function Parse(dsn: string): Result<Address, DsnError> {
    match SplitScheme(dsn)
    case Some((_, rest)) => ParseHostPort(HostPort(Authority(rest)))
    case None => ParseKeywords(dsn)
  }

  predicate IsAddress(f: Field) {
    f.key == "host" || f.key == "port"
  }

  function Others(fs: seq<Field>): seq<Field> {
    if fs == [] then []
    else if IsAddress(fs[0]) then Others(fs[1..])
    else [fs[0]] + Others(fs[1..])
  }

  function NewAddress(a: Address): string {
    a.host + ":" + Decimal(a.port)
  }

  function AddressFields(a: Address): seq<Field> {
    [Field("host", a.host), Field("port", Decimal(a.port))]
  }

  function Rewrite(dsn: string, a: Address): Result<string, DsnError> {
    match SplitScheme(dsn)
    case Some((scheme, rest)) =>
      Ok(scheme + "://" + (UserInfo(Authority(rest)) + NewAddress(a) + Tail(rest)))
    case None =>
      match Keywords(dsn)
      case Err(e) => Err(e)
      case Ok(fs) => Ok(KeywordPrefix(dsn) + JoinAll(Rendered(AddressFields(a) + Others(fs))))
  }

  // ------------------------------------------------------ URI form: round trip

  /** A host the URI form can carry. */
  predicate UriHost(h: string) {
    '/' !in h && '?' !in h && '@' !in h && ':' !in h && !(h != "" && h[0] == '[')
  }

  /** The scheme split depends on nothing after the first "://". */
  lemma {:induction false} SchemeStays(s: string, rest: string)
    requires SplitScheme(s).Some?
    ensures var (scheme, tail) := SplitScheme(s).value;
            s == scheme + "://" + tail && SplitScheme(scheme + "://" + rest) == Some((scheme, rest))
  {
    if s[0] == ':' && s[1] == '/' && s[2] == '/' {
      assert s == "" + "://" + s[3..];
      assert ("" + "://" + rest)[3..] == rest;
    } else {
      SchemeStays(s[1..], rest);
      var (scheme, tail) := SplitScheme(s[1..]).value;
      var full := [s[0]] + scheme;
      var t := full + "://" + rest;
      assert t[1..] == scheme + "://" + rest;
      assert s == full + "://" + tail;
      assert forall k | 0 <= k < 3 :: t[k] == s[k];
    }
  }

  /** Userinfo, new address and tail are found again where they were put. */
  lemma AuthorityStays(rest: string, hp: string)
    requires '/' !in hp && '?' !in hp && '@' !in hp
    ensures var next := UserInfo(Authority(rest)) + hp + Tail(rest);
            && Tail(next) == Tail(rest)
            && UserInfo(Authority(next)) == UserInfo(Authority(rest))
            && HostPort(Authority(next)) == hp
  {
    var user, tail := UserInfo(Authority(rest)), Tail(rest);
    var authority, next := user + hp, user + hp + tail;
    assert forall k | 0 <= k < |user| :: user[k] == rest[k];
    AuthorityEndsAt(next, |authority|);
    assert next[..|authority|] == authority;
    assert next[|authority|..] == tail;
    LastIndexAt(authority, '@', |user| - 1);
    assert authority[..|user|] == user && authority[|user|..] == hp;
  }

  lemma AuthorityEndsAt(s: string, n: nat)
    requires n <= |s| && (forall k | 0 <= k < n :: s[k] != '/' && s[k] != '?')
    requires n < |s| ==> s[n] == '/' || s[n] == '?'
    ensures AuthorityEnd(s) == n
  {
  }

  lemma LastIndexAt(s: string, c: char, i: int)
    requires -1 <= i < |s| && (i >= 0 ==> s[i] == c) && forall k | i < k < |s| :: s[k] != c
    ensures LastIndex(s, c) == i
  {
  }

  /** A port that is given is never replaced by the default: it parses, or the whole string is refused. */
  lemma PortFailsClosed(host: string, text: string)
    requires UriHost(host) && ':' !in text
    ensures ParseHostPort(host + ":" + text) ==
            match ParseU16(text)
            case None => Err(BadPort)
            case Some(port) => Ok(Address(host, port))
  {
    var hp := host + ":" + text;
    CountAppend(host + ":", text, ':');
    CountAppend(host, ":", ':');
    CountZero(host, ':');
    CountZero(text, ':');
    assert ":"[1..] == "";
    LastIndexAt(hp, ':', |host|);
    assert hp[..|host|] == host && hp[|host| + 1..] == text;
  }

  /** A bracket in front, or two colons, is an IPv6 host; nothing else is, and every other fault is the port's. */
  lemma Ipv6ExactlyWhen(hp: string)
    ensures ParseHostPort(hp) == Err(Ipv6Host) <==>
            (hp != "" && hp[0] == '[') || exists i, j | 0 <= i < j < |hp| :: hp[i] == hp[j] == ':'
    ensures ParseHostPort(hp).Err? ==> ParseHostPort(hp).error in {Ipv6Host, BadPort}
  {
    TwoColons(hp);
  }

  lemma {:induction false} TwoColons(s: string)
    ensures Count(s, ':') > 1 <==> exists i, j | 0 <= i < j < |s| :: s[i] == s[j] == ':'
  {
    if s != "" {
      TwoColons(s[1..]);
      CountZero(s[1..], ':');
      forall i, j | 0 <= i < j < |s[1..]| && s[1..][i] == s[1..][j] == ':' ensures s[i + 1] == s[j + 1] == ':' {
      }
      if ':' in s[1..] && s[0] == ':' {
        var j :| 0 <= j < |s[1..]| && s[1..][j] == ':';
        assert s[0] == s[j + 1] == ':';
      }
      forall i, j | 0 <= i < j < |s| && s[i] == s[j] == ':' ensures Count(s, ':') > 1 {
        assert s[1..][j - 1] == ':';
        if i > 0 {
          assert s[1..][i - 1] == ':';
        }
      }
    }
  }

  /** Only an absent port gets the default. */
  lemma AbsentPortDefaults(host: string)
    requires UriHost(host)
    ensures ParseHostPort(host) == Ok(Address(host, 5432))
  {
    CountZero(host, ':');
  }

  lemma ParseNewAddress(a: Address)
    requires UriHost(a.host) && a.port <= 0xFFFF
    ensures ParseHostPort(NewAddress(a)) == Ok(a)
  {
    DecimalDigits(a.port);
    ParseDecimal(a.port);
    PortFailsClosed(a.host, Decimal(a.port));
  }

  lemma OneColon(hp: string)
    requires Count(hp, ':') <= 1 && LastIndex(hp, ':') >= 0
    ensures ':' !in hp[..LastIndex(hp, ':')]
  {
    var c := LastIndex(hp, ':');
    var host, port := hp[..c], hp[c + 1..];
    assert hp == host + ":" + port;
    CountAppend(host + ":", port, ':');
    CountAppend(host, ":", ':');
    CountZero(host, ':');
    assert ":"[1..] == "";
  }

  /** Whatever the URI form reads as a host, it could carry. */
  lemma ParsedHostIsUriHost(hp: string)
    requires '/' !in hp && '?' !in hp && '@' !in hp
    requires ParseHostPort(hp).Ok?
    ensures UriHost(ParseHostPort(hp).value.host)
  {
    var c := LastIndex(hp, ':');
    if c >= 0 {
      OneColon(hp);
      assert ParseHostPort(hp).value.host == hp[..c];
    }
  }

  lemma PrefixLacks(s: string, n: nat, c: char)
    requires n <= |s| && forall k | 0 <= k < n :: s[k] != c
    ensures c !in s[..n]
  {
  }

  lemma SuffixLacks(s: string, n: nat, c: char)
    requires n <= |s| && (c !in s || forall k | n <= k < |s| :: s[k] != c)
    ensures c !in s[n..]
  {
    forall k | 0 <= k < |s[n..]| ensures s[n..][k] != c {
      assert s[n..][k] == s[n + k];
      assert s[n + k] in s;
    }
  }

  lemma HostPortPlain(rest: string)
    ensures var hp := HostPort(Authority(rest)); '/' !in hp && '?' !in hp && '@' !in hp
  {
    var authority, end := Authority(rest), AuthorityEnd(rest);
    var at := LastIndex(authority, '@') + 1;
    PrefixLacks(rest, end, '/');
    PrefixLacks(rest, end, '?');
    SuffixLacks(authority, at, '/');
    SuffixLacks(authority, at, '?');
    SuffixLacks(authority, at, '@');
  }

  lemma NewAddressPlain(a: Address)
    ensures UriHost(a.host) ==> '/' !in NewAddress(a) && '?' !in NewAddress(a) && '@' !in NewAddress(a)
  {
    DecimalDigits(a.port);
  }

  // -------------------------------------------------- keyword form: round trip

  /** No "://" anywhere. */
  predicate Schemeless(s: string) {
    forall i | 0 <= i < |s| - 2 :: !(s[i] == ':' && s[i + 1] == '/' && s[i + 2] == '/')
  }

  lemma {:induction false} SchemelessIff(s: string)
    ensures SplitScheme(s).None? <==> Schemeless(s)
  {
    if |s| >= 3 {
      SchemelessIff(s[1..]);
      if Schemeless(s[1..]) && !(s[0] == ':' && s[1] == '/' && s[2] == '/') {
        forall i | 0 <= i < |s| - 2 ensures !(s[i] == ':' && s[i + 1] == '/' && s[i + 2] == '/') {
          if i > 0 { assert s[i] == s[1..][i - 1]; }
        }
      }
      if Schemeless(s) {
        forall i | 0 <= i < |s[1..]| - 2
          ensures !(s[1..][i] == ':' && s[1..][i + 1] == '/' && s[1..][i + 2] == '/')
        {
          assert s[1..][i] == s[i + 1];
        }
      }
    }
  }

  lemma SchemelessSlice(s: string, i: nat, j: nat)
    requires Schemeless(s) && i <= j <= |s|
    ensures Schemeless(s[i..j])
  {
    forall k | 0 <= k < |s[i..j]| - 2 ensures !(s[i..j][k] == ':' && s[i..j][k + 1] == '/' && s[i..j][k + 2] == '/') {
      assert s[i..j][k] == s[i + k];
    }
  }

  /** Joining cannot make a "://" unless the right part begins with a slash. */
  lemma SchemelessJoin(a: string, b: string)
    requires Schemeless(a) && Schemeless(b) && (b == "" || b[0] != '/')
    ensures Schemeless(a + b)
  {
    var s := a + b;
    forall i | 0 <= i < |s| - 2 ensures !(s[i] == ':' && s[i + 1] == '/' && s[i + 2] == '/') {
      if i + 2 < |a| {
        assert s[i] == a[i];
      } else if i >= |a| {
        assert s[i] == b[i - |a|];
      } else {
        assert s[|a|] == b[0];
      }
    }
  }

  lemma {:induction false} SchemelessJoinAll(ts: seq<string>)
    requires forall i | 0 <= i < |ts| :: Schemeless(ts[i])
    ensures Schemeless(JoinAll(ts))
  {
    if |ts| > 1 {
      SchemelessJoinAll(ts[1..]);
      var rest := JoinAll(ts[1..]);
      assert (" " + rest)[0] == ' ';
      SpaceFirst(rest);
      SchemelessJoin(ts[0], " " + rest);
      assert ts[0] + " " + rest == ts[0] + (" " + rest);
    }
  }

  lemma SpaceFirst(s: string)
    requires Schemeless(s)
    ensures Schemeless(" " + s)
  {
    var t := " " + s;
    forall i | 0 <= i < |t| - 2 ensures !(t[i] == ':' && t[i + 1] == '/' && t[i + 2] == '/') {
      if i > 0 { assert t[i] == s[i - 1]; }
    }
  }

  predicate Word(t: string) {
    t != "" && forall k | 0 <= k < |t| :: !IsSpace(t[k])
  }

  lemma {:induction false} TokensAreWords(s: string)
    ensures forall i | 0 <= i < |Tokens(s)| :: Word(Tokens(s)[i])
    decreases |s|
  {
    if s != "" {
      if IsSpace(s[0]) {
        TokensAreWords(s[1..]);
      } else {
        TokensAreWords(s[WordEnd(s)..]);
      }
    }
  }

  lemma {:induction false} TokensSchemeless(s: string)
    requires Schemeless(s)
    ensures forall i | 0 <= i < |Tokens(s)| :: Schemeless(Tokens(s)[i])
    decreases |s|
  {
    if s != "" {
      var n := if IsSpace(s[0]) then 1 else WordEnd(s);
      SchemelessSlice(s, 0, n);
      SchemelessSlice(s, n, |s|);
      assert s[n..|s|] == s[n..] && s[0..n] == s[..n];
      TokensSchemeless(s[n..]);
    }
  }

  lemma WordEndAt(s: string, n: nat)
    requires n <= |s| && (forall k | 0 <= k < n :: !IsSpace(s[k])) && (n < |s| ==> IsSpace(s[n]))
    ensures WordEnd(s) == n
  {
  }

  /** Joining words with single spaces and splitting at whitespace gives them back. */
  lemma {:induction false} TokensOfJoin(ts: seq<string>)
    requires forall i | 0 <= i < |ts| :: Word(ts[i])
    ensures Tokens(JoinAll(ts)) == ts
  {
    if |ts| == 1 {
      WordEndAt(ts[0], |ts[0]|);
      assert ts[0][|ts[0]|..] == "" && ts[0][..|ts[0]|] == ts[0];
    } else if |ts| > 1 {
      TokensOfJoin(ts[1..]);
      var s, rest := JoinAll(ts), JoinAll(ts[1..]);
      WordEndAt(s, |ts[0]|);
      assert s[..|ts[0]|] == ts[0] && s[|ts[0]|..] == " " + rest;
      assert (" " + rest)[1..] == rest;
      assert Tokens(" " + rest) == Tokens(rest);
    }
  }

  lemma SplitRender(f: Field)
    requires '=' !in f.key
    ensures SplitField(Render(f)) == f && HasEquals(Render(f))
  {
    var t := Render(f);
    assert t[|f.key|] == '=';
    FirstIndexAt(t, '=', |f.key|);
    assert t[..|f.key|] == f.key && t[|f.key| + 1..] == f.value;
  }

  lemma FirstIndexAt(s: string, c: char, i: nat)
    requires i < |s| && s[i] == c && forall k | 0 <= k < i :: s[k] != c
    ensures FirstIndex(s, c) == i
  {
  }

  lemma RenderSplit(t: string)
    requires HasEquals(t)
    ensures Render(SplitField(t)) == t && '=' !in SplitField(t).key
  {
  }

  /** A field of a keyword string: its rendering is one word holding no "://". */
  predicate Sound(f: Field) {
    '=' !in f.key && Word(Render(f)) && Schemeless(Render(f))
  }

  lemma KeywordsSound(dsn: string)
    requires Keywords(dsn).Ok? && Schemeless(dsn)
    ensures forall i | 0 <= i < |Keywords(dsn).value| :: Sound(Keywords(dsn).value[i])
  {
    var body, fs := Body(dsn), Keywords(dsn).value;
    SchemelessSlice(dsn, |KeywordPrefix(dsn)|, |dsn|);
    assert dsn[|KeywordPrefix(dsn)|..|dsn|] == body;
    TokensAreWords(body);
    TokensSchemeless(body);
    forall i | 0 <= i < |fs| ensures Sound(fs[i]) {
      RenderSplit(Tokens(body)[i]);
    }
  }

  lemma {:induction false} OthersMembers(fs: seq<Field>)
    requires forall i | 0 <= i < |fs| :: Sound(fs[i])
    ensures forall i | 0 <= i < |Others(fs)| :: Sound(Others(fs)[i]) && !IsAddress(Others(fs)[i])
  {
    if fs != [] {
      OthersMembers(fs[1..]);
    }
  }

  lemma {:induction false} OthersOfOthers(fs: seq<Field>)
    ensures Others(Others(fs)) == Others(fs)
  {
    if fs != [] {
      OthersOfOthers(fs[1..]);
    }
  }

  lemma OthersOfAddressed(a: Address, fs: seq<Field>)
    ensures Others(AddressFields(a) + Others(fs)) == Others(fs)
  {
    var all := AddressFields(a) + Others(fs);
    assert all[1..][1..] == Others(fs);
    OthersOfOthers(fs);
  }

  /** Reading back a rendered list of sound fields gives the list. */
  lemma FieldsReadBack(prefix: string, fs: seq<Field>)
    requires forall i | 0 <= i < |fs| :: Sound(fs[i])
    requires fs != [] && KeywordPrefix(prefix + JoinAll(Rendered(fs))) == prefix
    ensures Keywords(prefix + JoinAll(Rendered(fs))) == Ok(fs)
  {
    var ts := Rendered(fs);
    var dsn := prefix + JoinAll(ts);
    assert Body(dsn) == JoinAll(ts);
    TokensOfJoin(ts);
    forall i | 0 <= i < |fs| ensures HasEquals(ts[i]) && SplitField(ts[i]) == fs[i] {
      SplitRender(fs[i]);
    }
    assert Fields(ts) == fs;
  }

  lemma PrefixStays(dsn: string, rest: string)
    requires StartsWith(rest, "host=")
    ensures KeywordPrefix(KeywordPrefix(dsn) + rest) == KeywordPrefix(dsn)
  {
    var p := KeywordPrefix(dsn);
    var s := p + rest;
    assert s[..|p|] == p;
    assert s[|p|] == rest[0] == 'h';
    assert "postgresql:"[8] == 'q' && "postgresql:"[0] == 'p' && "postgres:"[0] == 'p';
  }

  /** A host the keyword form can carry. */
  predicate KeywordHost(h: string) {
    Schemeless(h) && forall k | 0 <= k < |h| :: !IsSpace(h[k])
  }

  lemma NoColonFirst(a: string, b: string)
    requires ':' !in a
    ensures Schemeless(a + b) <==> Schemeless(b)
  {
    var s := a + b;
    if Schemeless(b) {
      forall i | 0 <= i < |s| - 2 ensures !(s[i] == ':' && s[i + 1] == '/' && s[i + 2] == '/') {
        if i < |a| { assert s[i] in a; } else { assert s[i] == b[i - |a|]; }
      }
    }
    if Schemeless(s) {
      SchemelessSlice(s, |a|, |s|);
      assert s[|a|..|s|] == b;
    }
  }

  lemma HostFieldSound(h: string)
    ensures Sound(Field("host", h)) <==> KeywordHost(h)
    ensures Schemeless(Render(Field("host", h))) <==> Schemeless(h)
  {
    var t := Render(Field("host", h));
    assert t == "host=" + h;
    NoColonFirst("host=", h);
    assert forall k | 0 <= k < |h| :: t[k + 5] == h[k];
  }

  lemma PortFieldSound(port: nat)
    ensures Sound(Field("port", Decimal(port)))
  {
    var digits := Decimal(port);
    DecimalDigits(port);
    forall k | 0 <= k < |digits| ensures Unspaced(digits[k]) {
      assert digits[k] in digits;
    }
    UnspacedJoin("port=", digits);
    assert Render(Field("port", digits)) == "port=" + digits;
    UnspacedWord("port=" + digits);
  }

  /** Neither whitespace nor a colon. */
  predicate Unspaced(c: char) {
    !IsSpace(c) && c != ':'
  }

  lemma UnspacedJoin(a: string, b: string)
    requires (forall k | 0 <= k < |a| :: Unspaced(a[k])) && (forall k | 0 <= k < |b| :: Unspaced(b[k]))
    ensures forall k | 0 <= k < |a + b| :: Unspaced((a + b)[k])
  {
  }

  lemma UnspacedWord(t: string)
    requires t != "" && forall k | 0 <= k < |t| :: Unspaced(t[k])
    ensures Word(t) && Schemeless(t)
  {
    assert forall k | 0 <= k < |t| :: !IsSpace(t[k]) && t[k] != ':';
  }

  /** The keyword rewrite reads back as the new address followed by every other field. */
  lemma KeywordRewriteFields(dsn: string, a: Address)
    requires SplitScheme(dsn).None? && Keywords(dsn).Ok? && KeywordHost(a.host)
    ensures var next := Rewrite(dsn, a).value;
            && SplitScheme(next).None?
            && KeywordPrefix(next) == KeywordPrefix(dsn)
            && Keywords(next) == Ok(AddressFields(a) + Others(Keywords(dsn).value))
  {
    SchemelessIff(dsn);
    KeywordsSound(dsn);
    var fs := Others(Keywords(dsn).value);
    OthersMembers(Keywords(dsn).value);
    AddressedSound(a, fs);
    LeadsWithHost(a, fs);
    AddressedReadsBack(dsn, AddressFields(a) + fs);
  }

  lemma AddressedSound(a: Address, fs: seq<Field>)
    requires KeywordHost(a.host) && forall i | 0 <= i < |fs| :: Sound(fs[i])
    ensures forall i | 0 <= i < |AddressFields(a) + fs| :: Sound((AddressFields(a) + fs)[i])
  {
    HostFieldSound(a.host);
    PortFieldSound(a.port);
    var all := AddressFields(a) + fs;
    forall i | 0 <= i < |all| ensures Sound(all[i]) {
      if i >= 2 {
        assert all[i] == fs[i - 2];
      }
    }
  }

  lemma AddressedReadsBack(dsn: string, all: seq<Field>)
    requires all != [] && forall i | 0 <= i < |all| :: Sound(all[i])
    requires StartsWith(JoinAll(Rendered(all)), "host=")
    ensures var next := KeywordPrefix(dsn) + JoinAll(Rendered(all));
            SplitScheme(next).None? && KeywordPrefix(next) == KeywordPrefix(dsn) && Keywords(next) == Ok(all)
  {
    PrefixStays(dsn, JoinAll(Rendered(all)));
    FieldsReadBack(KeywordPrefix(dsn), all);
    RenderedSchemeless(dsn, all);
  }

  lemma LeadsWithHost(a: Address, fs: seq<Field>)
    ensures StartsWith(JoinAll(Rendered(AddressFields(a) + fs)), "host=")
    ensures exists tail: string ::
              JoinAll(Rendered(AddressFields(a) + fs)) == "host=" + a.host + tail && (tail == "" || tail[0] == ' ')
  {
    var ts := Rendered(AddressFields(a) + fs);
    var s := JoinAll(ts);
    assert ts[0] == Render(Field("host", a.host)) == "host=" + a.host;
    var tail := " " + JoinAll(ts[1..]);
    assert s == "host=" + a.host + tail;
    assert s[..5] == "host=";
  }

  lemma RenderedSchemeless(dsn: string, fs: seq<Field>)
    requires fs != [] && (forall i | 0 <= i < |fs| :: Schemeless(Render(fs[i])))
    requires StartsWith(JoinAll(Rendered(fs)), "host=")
    ensures SplitScheme(KeywordPrefix(dsn) + JoinAll(Rendered(fs))).None?
  {
    var s := JoinAll(Rendered(fs));
    SchemelessJoinAll(Rendered(fs));
    assert s[0] == 'h';
    PrefixSchemeless(dsn);
    SchemelessJoin(KeywordPrefix(dsn), s);
    SchemelessIff(KeywordPrefix(dsn) + s);
  }

  lemma PrefixSchemeless(dsn: string)
    ensures Schemeless(KeywordPrefix(dsn))
  {
    var p := KeywordPrefix(dsn);
    assert '/' !in p;
    forall i | 0 <= i < |p| ensures p[i] != '/' {
      assert p[i] in p;
    }
  }

  // ------------------------------------------------------------- main results

  lemma UriRewriteParts(dsn: string, a: Address)
    requires SplitScheme(dsn).Some?
    ensures var next := Rewrite(dsn, a).value;
            var (scheme, rest) := SplitScheme(dsn).value;
            SplitScheme(next) == Some((scheme, UserInfo(Authority(rest)) + NewAddress(a) + Tail(rest)))
  {
    var (scheme, rest) := SplitScheme(dsn).value;
    SchemeStays(dsn, UserInfo(Authority(rest)) + NewAddress(a) + Tail(rest));
  }

  /** URI form: the new address reads back exactly when the host is one a URI can carry. */
  lemma UriRoundTrip(dsn: string, a: Address)
    requires SplitScheme(dsn).Some? && a.port <= 0xFFFF
    ensures Parse(Rewrite(dsn, a).value) == Ok(a) <==> UriHost(a.host)
  {
    var (scheme, rest) := SplitScheme(dsn).value;
    UriRewriteParts(dsn, a);
    var next := UserInfo(Authority(rest)) + NewAddress(a) + Tail(rest);
    if UriHost(a.host) {
      NewAddressPlain(a);
      AuthorityStays(rest, NewAddress(a));
      ParseNewAddress(a);
    } else {
      UriHostOfParse(Rewrite(dsn, a).value);
    }
  }

  lemma UriHostOfParse(dsn: string)
    requires SplitScheme(dsn).Some?
    ensures Parse(dsn).Ok? ==> UriHost(Parse(dsn).value.host)
  {
    var (_, rest) := SplitScheme(dsn).value;
    HostPortPlain(rest);
    if Parse(dsn).Ok? {
      ParsedHostIsUriHost(HostPort(Authority(rest)));
    }
  }

  /** Keyword form: likewise, for hosts without whitespace and without "://". */
  lemma KeywordRoundTrip(dsn: string, a: Address)
    requires SplitScheme(dsn).None? && Keywords(dsn).Ok? && a.port <= 0xFFFF
    ensures Parse(Rewrite(dsn, a).value) == Ok(a) <==> KeywordHost(a.host)
  {
    if KeywordHost(a.host) {
      KeywordReadsBack(dsn, a);
    } else {
      KeywordReadsElse(dsn, a);
    }
  }

  lemma KeywordReadsBack(dsn: string, a: Address)
    requires SplitScheme(dsn).None? && Keywords(dsn).Ok? && a.port <= 0xFFFF && KeywordHost(a.host)
    ensures Parse(Rewrite(dsn, a).value) == Ok(a)
  {
    KeywordRewriteFields(dsn, a);
    ParseDecimal(a.port);
    FindAddress(a, Others(Keywords(dsn).value));
  }

  lemma FindAddress(a: Address, fs: seq<Field>)
    ensures Find(AddressFields(a) + fs, "host") == Some(a.host)
    ensures Find(AddressFields(a) + fs, "port") == Some(Decimal(a.port))
  {
    var all := AddressFields(a) + fs;
    assert all[0] == Field("host", a.host) && all[1..][0] == Field("port", Decimal(a.port));
    assert "host" != "port" by { assert "host"[0] == 'h' && "port"[0] == 'p'; }
    assert Find(all, "port") == Find(all[1..], "port");
  }

  lemma KeywordReadsElse(dsn: string, a: Address)
    requires SplitScheme(dsn).None? && Keywords(dsn).Ok? && !KeywordHost(a.host)
    ensures Parse(Rewrite(dsn, a).value) != Ok(a)
  {
    var next := Rewrite(dsn, a).value;
    if Schemeless(a.host) {
      StaysKeyword(dsn, a);
      if Parse(next).Ok? {
        SpacelessHost(next);
      }
    } else {
      BecomesUri(dsn, a);
      UriHostOfParse(next);
      HasColon(a.host);
    }
  }

  lemma HasColon(h: string)
    requires !Schemeless(h)
    ensures ':' in h
  {
  }

  lemma StaysKeyword(dsn: string, a: Address)
    requires SplitScheme(dsn).None? && Keywords(dsn).Ok? && Schemeless(a.host)
    ensures SplitScheme(Rewrite(dsn, a).value).None?
  {
    SchemelessIff(dsn);
    KeywordsSound(dsn);
    var fs := Keywords(dsn).value;
    OthersMembers(fs);
    HostFieldSound(a.host);
    PortFieldSound(a.port);
    LeadsWithHost(a, Others(fs));
    RenderedSchemeless(dsn, AddressFields(a) + Others(fs));
  }

  lemma SchemeInside(a: string, h: string, b: string)
    requires !Schemeless(h)
    ensures !Schemeless(a + h + b)
  {
    var s := a + h + b;
    var k :| 0 <= k < |h| - 2 && h[k] == ':' && h[k + 1] == '/' && h[k + 2] == '/';
    assert s[|a| + k] == ':' && s[|a| + k + 1] == '/' && s[|a| + k + 2] == '/';
  }

  lemma HostInside(prefix: string, h: string, tail: string, s: string)
    requires !Schemeless(h) && s == "host=" + h + tail
    ensures SplitScheme(prefix + s).Some?
  {
    assert prefix + s == (prefix + "host=") + h + tail;
    SchemeInside(prefix + "host=", h, tail);
    SchemelessIff(prefix + s);
  }

  lemma BecomesUri(dsn: string, a: Address)
    requires SplitScheme(dsn).None? && Keywords(dsn).Ok? && !Schemeless(a.host)
    ensures SplitScheme(Rewrite(dsn, a).value).Some?
  {
    var fs := Others(Keywords(dsn).value);
    var s := JoinAll(Rendered(AddressFields(a) + fs));
    LeadsWithHost(a, fs);
    var tail: string :| s == "host=" + a.host + tail && (tail == "" || tail[0] == ' ');
    HostInside(KeywordPrefix(dsn), a.host, tail, s);
  }

  /** A host the keyword form reads holds no whitespace. */
  lemma SpacelessHost(dsn: string)
    requires SplitScheme(dsn).None? && Parse(dsn).Ok?
    ensures forall k | 0 <= k < |Parse(dsn).value.host| :: !IsSpace(Parse(dsn).value.host[k])
  {
    var fs := Keywords(dsn).value;
    FindIsField(fs, "host");
    var i :| 0 <= i < |fs| && Find(fs, "host") == Some(fs[i].value);
    FieldsSpaceless(dsn, i);
  }

  lemma FieldsSpaceless(dsn: string, i: nat)
    requires Keywords(dsn).Ok? && i < |Keywords(dsn).value|
    ensures forall k | 0 <= k < |Keywords(dsn).value[i].value| :: !IsSpace(Keywords(dsn).value[i].value[k])
  {
    TokensAreWords(Body(dsn));
    ValueSpaceless(Tokens(Body(dsn))[i]);
  }

  lemma ValueSpaceless(t: string)
    requires Word(t)
    ensures forall k | 0 <= k < |SplitField(t).value| :: !IsSpace(SplitField(t).value[k])
  {
    var v, e := SplitField(t).value, FirstIndex(t, '=');
    forall k | 0 <= k < |v| ensures !IsSpace(v[k]) {
      assert v[k] == t[e + 1 + k];
    }
  }

  lemma {:induction false} FindIsField(fs: seq<Field>, key: string)
    requires Find(fs, key).Some?
    ensures exists i | 0 <= i < |fs| :: Find(fs, key) == Some(fs[i].value)
  {
    if fs[0].key != key {
      FindIsField(fs[1..], key);
      var i :| 0 <= i < |fs[1..]| && Find(fs[1..], key) == Some(fs[1..][i].value);
      assert fs[i + 1] == fs[1..][i];
    } else {
      assert Find(fs, key) == Some(fs[0].value);
    }
  }

  predicate Accepted(dsn: string) {
    SplitScheme(dsn).Some? || Keywords(dsn).Ok?
  }

  /** Hosts both forms carry, whatever the rest of the string is. */
  predicate PlainHost(h: string) {
    UriHost(h) && forall k | 0 <= k < |h| :: !IsSpace(h[k])
  }

  /** Every accepted string, either form: rewriting then parsing gives the new address. */
  lemma RoundTrip(dsn: string, a: Address)
    requires Accepted(dsn) && a.port <= 0xFFFF && PlainHost(a.host)
    ensures Rewrite(dsn, a).Ok? && Parse(Rewrite(dsn, a).value) == Ok(a)
  {
    if SplitScheme(dsn).Some? {
      UriRoundTrip(dsn, a);
    } else {
      KeywordRoundTrip(dsn, a);
    }
  }

  /** Scheme, userinfo, path and parameters of a URI, or prefix and other keywords in order, survive. */
  lemma OtherFieldsSurvive(dsn: string, a: Address)
    requires Accepted(dsn) && PlainHost(a.host)
    ensures SplitScheme(dsn).Some? ==>
              var next := SplitScheme(Rewrite(dsn, a).value);
              && next.Some? && next.value.0 == SplitScheme(dsn).value.0
              && UserInfo(Authority(next.value.1)) == UserInfo(Authority(SplitScheme(dsn).value.1))
              && Tail(next.value.1) == Tail(SplitScheme(dsn).value.1)
    ensures SplitScheme(dsn).None? ==>
              var next := Rewrite(dsn, a).value;
              && SplitScheme(next).None? && KeywordPrefix(next) == KeywordPrefix(dsn)
              && Keywords(next).Ok? && Others(Keywords(next).value) == Others(Keywords(dsn).value)
  {
    if SplitScheme(dsn).Some? {
      UriRewriteParts(dsn, a);
      NewAddressPlain(a);
      AuthorityStays(SplitScheme(dsn).value.1, NewAddress(a));
    } else {
      KeywordRewriteFields(dsn, a);
      OthersOfAddressed(a, Keywords(dsn).value);
    }
  }

  /** Only the last of two rewrites shows. */
  lemma RewriteTwice(dsn: string, a: Address, b: Address)
    requires Accepted(dsn) && PlainHost(a.host)
    ensures Rewrite(Rewrite(dsn, a).value, b) == Rewrite(dsn, b)
  {
    OtherFieldsSurvive(dsn, a);
    if SplitScheme(dsn).None? {
      KeywordRewriteFields(dsn, a);
    }
  }

  // ------------------------------------------------------ reading any string

  /** A URI's rest is userinfo, address and tail, each with what may be in it. */
  lemma UriSplits(rest: string)
    ensures var a := Authority(rest);
            && rest == UserInfo(a) + HostPort(a) + Tail(rest)
            && (UserInfo(a) == "" || UserInfo(a)[|UserInfo(a)| - 1] == '@')
            && '/' !in HostPort(a) && '?' !in HostPort(a) && '@' !in HostPort(a)
            && (Tail(rest) == "" || Tail(rest)[0] == '/' || Tail(rest)[0] == '?')
  {
    HostPortPlain(rest);
    assert rest == Authority(rest) + Tail(rest);
    assert Authority(rest) == UserInfo(Authority(rest)) + HostPort(Authority(rest));
  }

  /** Either prefix is stripped, once, and nothing else is. */
  lemma PrefixesStripped(b: string)
    ensures Body("postgresql:" + b) == b && Body("postgres:" + b) == b
    ensures !StartsWith(b, "postgresql:") && !StartsWith(b, "postgres:") ==> Body(b) == b
  {
    var long, short := "postgresql:" + b, "postgres:" + b;
    assert long[..11] == "postgresql:" && long[11..] == b;
    assert short[..9] == "postgres:" && short[9..] == b;
    assert short[8] == ':' && "postgresql:"[8] == 'q';
    assert !StartsWith(short, "postgresql:");
  }

  /** Any whitespace character separates, wherever it stands; with `OneWord` this fixes the tokens of every string. */
  lemma {:induction false} TokensAtSpace(a: string, c: char, b: string)
    requires IsSpace(c)
    ensures Tokens(a + [c] + b) == Tokens(a) + Tokens(b)
    decreases |a|
  {
    var s := a + [c] + b;
    if a == "" {
      assert s[1..] == b;
    } else if IsSpace(a[0]) {
      assert s[1..] == a[1..] + [c] + b;
      TokensAtSpace(a[1..], c, b);
    } else {
      var n := WordEnd(a);
      WordEndAt(s, n);
      assert s[..n] == a[..n] && s[n..] == a[n..] + [c] + b;
      TokensAtSpace(a[n..], c, b);
      assert Tokens(a) == [a[..n]] + Tokens(a[n..]);
    }
  }

  lemma OneWord(t: string)
    requires Word(t)
    ensures Tokens(t) == [t] && Tokens("") == []
  {
    WordEndAt(t, |t|);
    assert t[|t|..] == "" && t[..|t|] == t;
  }

  /** The first field with this key is at i. */
  predicate FirstAt(fs: seq<Field>, key: string, i: int) {
    0 <= i < |fs| && fs[i].key == key && forall j | 0 <= j < i :: fs[j].key != key
  }

  predicate Lacks(fs: seq<Field>, key: string) {
    forall i | 0 <= i < |fs| :: fs[i].key != key
  }

  lemma {:induction false} FindIsFirst(fs: seq<Field>, key: string)
    ensures Find(fs, key) == None <==> Lacks(fs, key)
    ensures forall i :: FirstAt(fs, key, i) ==> Find(fs, key) == Some(fs[i].value)
  {
    if fs != [] {
      FindIsFirst(fs[1..], key);
      if fs[0].key != key {
        forall i | FirstAt(fs, key, i) ensures Find(fs, key) == Some(fs[i].value) {
          assert FirstAt(fs[1..], key, i - 1);
        }
        if Lacks(fs[1..], key) {
          forall i | 0 <= i < |fs| ensures fs[i].key != key {
            assert i > 0 ==> fs[i] == fs[1..][i - 1];
          }
        }
        if Lacks(fs, key) {
          forall i | 0 <= i < |fs[1..]| ensures fs[1..][i].key != key {
            assert fs[1..][i] == fs[i + 1];
          }
        }
      }
    }
  }

  /** The other fields, field by field and in order: all but those keyed host or port. */
  lemma {:induction false} OthersExactly(a: seq<Field>, f: Field)
    ensures Others(a + [f]) == Others(a) + if f.key == "host" || f.key == "port" then [] else [f]
    ensures Others([]) == []
  {
    if a == [] {
      assert a + [f] == [f];
    } else {
      assert (a + [f])[1..] == a[1..] + [f];
      OthersExactly(a[1..], f);
    }
  }

  /** A blank body is empty; one with a token that lacks an equals sign is in no form at all. */
  lemma KeywordErrors(dsn: string)
    ensures Keywords(dsn) == Err(Empty) <==> forall k | 0 <= k < |Body(dsn)| :: IsSpace(Body(dsn)[k])
    ensures Keywords(dsn) == Err(NotKeywords) <==> exists t <- Tokens(Body(dsn)) :: '=' !in t
  {
    NoTokens(Body(dsn));
  }

  lemma {:induction false} NoTokens(s: string)
    ensures Tokens(s) == [] <==> forall k | 0 <= k < |s| :: IsSpace(s[k])
  {
    if s != "" && IsSpace(s[0]) {
      NoTokens(s[1..]);
      assert forall k | 0 < k < |s| :: s[k] == s[1..][k - 1];
      assert forall k | 0 <= k < |s[1..]| :: s[1..][k] == s[k + 1];
    }
  }

  /** Every keyword string: without a host it names none, whatever its port. */
  lemma KeywordHostMissing(dsn: string, fs: seq<Field>)
    requires SplitScheme(dsn).None? && Keywords(dsn) == Ok(fs)
    ensures Parse(dsn) == Err(NoHost) <==> Lacks(fs, "host")
  {
    FindIsFirst(fs, "host");
  }

  /** The first host field is the host; without a port field the port is 5432. */
  lemma KeywordPortMissing(dsn: string, fs: seq<Field>, h: int)
    requires SplitScheme(dsn).None? && Keywords(dsn) == Ok(fs) && FirstAt(fs, "host", h) && Lacks(fs, "port")
    ensures Parse(dsn) == Ok(Address(fs[h].value, 5432))
  {
    FindIsFirst(fs, "host");
    FindIsFirst(fs, "port");
  }

  /** The first port field is the port if it is one, and refuses the string if it is not. */
  lemma KeywordPortGiven(dsn: string, fs: seq<Field>, h: int, p: int)
    requires SplitScheme(dsn).None? && Keywords(dsn) == Ok(fs)
    requires FirstAt(fs, "host", h) && FirstAt(fs, "port", p)
    ensures Parse(dsn) ==
            match ParseU16(fs[p].value)
            case None => Err(BadPort)
            case Some(port) => Ok(Address(fs[h].value, port))
  {
    FindIsFirst(fs, "host");
    FindIsFirst(fs, "port");
  }
}
