/** Domain names (internal/storage/domains.go). */
module Domains {
  import opened Decimals
  import Letters
  import opened Options
  import opened Slugs

  const MAX_DOMAIN := 253

  datatype Error = InvalidSlug | InvalidBase | TooLong

  function Split(s: string): (r: seq<string>)
    ensures r != []
  {
    if s == "" then [""]
    else
      var rest := Split(s[1..]);
      if s[0] == '.' then [""] + rest else [[s[0]] + rest[0]] + rest[1..]
  }

  predicate Octet(s: string) {
    && 1 <= |s| <= 3
    && Digits(s)
    && (|s| > 1 ==> s[0] != '0')
    && Number(s) <= 255
  }

  /** What the library reads as an address; the other form has colons, which no domain may have. */
  predicate IsAddress(s: string) {
    var parts := Split(s);
    |parts| == 4 && forall p <- parts :: Octet(p)
  }

  predicate ValidDomain(s: string) {
    && s != "" && |s| <= MAX_DOMAIN
    && '_' !in s && '*' !in s && ':' !in s && '/' !in s && '\\' !in s
    && !IsAddress(s)
    && |Split(s)| >= 2
    && forall part <- Split(s) :: ValidSlug(part)
  }

  function TrimDot(s: string): string {
    if s != "" && s[|s| - 1] == '.' then s[..|s| - 1] else s
  }

  function NormalizeDomain(l: Letters.Letters, value: string): Option<string> {
    var domain := TrimDot(Letters.Fold(l, value));
    if ValidDomain(domain) then Some(domain) else None
  }

  function JoinDomain(l: Letters.Letters, slug: string, base: string): Result<string, Error> {
    if !ValidSlug(slug) then Err(InvalidSlug)
    else
      var normalized := NormalizeDomain(l, base);
      if normalized.None? then Err(InvalidBase)
      else if |slug + "." + normalized.value| > MAX_DOMAIN then Err(TooLong)
      else Ok(slug + "." + normalized.value)
  }

  lemma {:induction false} SplitEndsWith(s: string)
    requires s != "" && s[|s| - 1] == '.'
    ensures Split(s)[|Split(s)| - 1] == ""
  {
    if |s| > 1 {
      SplitEndsWith(s[1..]);
      assert |Split(s[1..])| > 1 by {
        SplitHasDots(s[1..]);
      }
    } else {
      assert s[1..] == "";
    }
  }

  lemma {:induction false} SplitHasDots(s: string)
    requires s != "" && s[|s| - 1] == '.'
    ensures |Split(s)| > 1
  {
    if |s| > 1 {
      SplitHasDots(s[1..]);
    }
  }

  lemma {:induction false} SplitJoined(part: string, rest: string)
    requires '.' !in part
    ensures Split(part + "." + rest) == [part] + Split(rest)
  {
    var s := part + "." + rest;
    if part == "" {
      assert s[1..] == rest;
    } else {
      assert s[1..] == part[1..] + "." + rest;
      SplitJoined(part[1..], rest);
      assert s[0] == part[0] && [part[0]] + part[1..] == part;
    }
  }

  function Dotted(labels: seq<string>): string
    requires labels != []
  {
    if |labels| == 1 then labels[0] else labels[0] + "." + Dotted(labels[1..])
  }

  lemma {:induction false} SplitPlain(part: string)
    requires '.' !in part
    ensures Split(part) == [part]
  {
    if part != "" {
      SplitPlain(part[1..]);
      assert [part[0]] + part[1..] == part;
    }
  }

  /** Splitting a name at its dots gives the labels it was made of. */
  lemma {:induction false} SplitDotted(labels: seq<string>)
    requires labels != [] && forall part <- labels :: '.' !in part
    ensures Split(Dotted(labels)) == labels
  {
    if |labels| == 1 {
      SplitPlain(labels[0]);
    } else {
      SplitDotted(labels[1..]);
      SplitJoined(labels[0], Dotted(labels[1..]));
    }
  }

  /** A number up to 255 as it is written. */
  ghost predicate SmallNumber(s: string) {
    exists n: nat :: n <= 255 && s == Decimal(n)
  }

  lemma OctetsAreNumbers(s: string)
    ensures Octet(s) <==> SmallNumber(s)
  {
    if Octet(s) {
      DecimalOfNumber(s);
      assert Number(s) <= 255 && s == Decimal(Number(s));
    }
    if n: nat :| n <= 255 && s == Decimal(n) {
      NumberOfDecimal(n);
      assert Power10(3) == 1000;
      DecimalIsShort(n, 3);
    }
  }

  /** A dotted name is a domain exactly when it has two valid labels or more and at most 253 characters, and is not
      four numbers up to 255. */
  lemma ValidExactly(labels: seq<string>)
    requires labels != [] && forall part <- labels :: '.' !in part
    ensures ValidDomain(Dotted(labels)) <==>
            && |labels| >= 2 && |Dotted(labels)| <= 253
            && (forall part <- labels :: ValidSlug(part))
            && !(|labels| == 4 && forall part <- labels :: SmallNumber(part))
  {
    hide ValidSlug, Octet, Split, Decimal, SmallNumber, Letters.Plain;
    var domain := Dotted(labels);
    SplitDotted(labels);
    forall part | part in labels ensures Octet(part) <==> SmallNumber(part) {
      OctetsAreNumbers(part);
    }
    if |labels| >= 2 && forall part <- labels :: ValidSlug(part) {
      forall part | part in labels ensures Letters.Plain(part) {
        SlugIsPlain(part);
      }
      PlainParts(domain);
      PlainChars(domain);
    }
    if ValidDomain(domain) {
      assert |labels| >= 2;
    }
  }

  lemma PlainChars(s: string)
    requires Letters.Plain(s)
    ensures '_' !in s && '*' !in s && ':' !in s && '/' !in s && '\\' !in s
  {
  }

  lemma LastDotIsInvalid(s: string)
    requires s != "" && s[|s| - 1] == '.'
    ensures !ValidDomain(s)
  {
    SplitEndsWith(s);
    assert Split(s)[|Split(s)| - 1] in Split(s) && !ValidSlug("");
  }

  lemma {:induction false} PlainParts(s: string)
    requires forall part <- Split(s) :: Letters.Plain(part)
    ensures Letters.Plain(s)
  {
    if s != "" {
      var rest := Split(s[1..]);
      if s[0] != '.' {
        assert Split(s)[0] == [s[0]] + rest[0];
        assert Letters.Plain([s[0]] + rest[0]);
        assert s[0] == ([s[0]] + rest[0])[0];
        forall part | part in rest ensures Letters.Plain(part) {
          PlainTail(s[0], rest[0]);
          assert part == rest[0] || part in Split(s)[1..];
        }
      } else {
        assert Split(s)[1..] == rest;
      }
      PlainParts(s[1..]);
      assert s == [s[0]] + s[1..];
    }
  }

  lemma PlainTail(c: char, s: string)
    requires Letters.Plain([c] + s)
    ensures Letters.Plain(s)
  {
    forall i | 0 <= i < |s| ensures s[i] == ([c] + s)[i + 1] {
    }
  }

  /** A valid domain is in normal form. */
  lemma ValidIsNormal(l: Letters.Letters, domain: string)
    requires Letters.Ascii(l) && ValidDomain(domain)
    ensures NormalizeDomain(l, domain) == Some(domain)
    ensures Letters.TrimSpace(l, domain) == domain && TrimDot(domain) == domain && Letters.ToLower(l, domain) == domain
  {
    ValidIsPlain(domain);
    Letters.PlainStays(l, domain);
    if domain[|domain| - 1] == '.' {
      LastDotIsInvalid(domain);
    }
  }

  /** The same name with any of its letters as capitals. */
  predicate SameLetters(name: string, domain: string) {
    |name| == |domain| && forall i :: 0 <= i < |name| ==> Letters.AsciiLower(name[i]) == domain[i]
  }

  lemma LowersTo(l: Letters.Letters, name: string, domain: string)
    requires Letters.Ascii(l) && ValidDomain(domain) && SameLetters(name, domain)
    ensures name != ""
    ensures Letters.ToLower(l, name) == domain
    ensures Letters.ToLower(l, name + ".") == domain + "." && Letters.ToLower(l, name + "..") == domain + ".."
    ensures !l.space('.') && forall i :: 0 <= i < |name| ==> !l.space(name[i])
  {
    ValidIsPlain(domain);
    forall i | 0 <= i < |name| ensures l.lower(name[i]) == domain[i] && !l.space(name[i]) {
      assert Letters.AsciiLower(name[i]) == domain[i];
    }
  }

  /** Spaces around a domain, capitals and one dot at the end are normalized away; a second dot is an error. */
  lemma NormalizesVariants(l: Letters.Letters, left: string, name: string, right: string, domain: string)
    requires Letters.Ascii(l) && Letters.Spaces(l, left) && Letters.Spaces(l, right)
    requires ValidDomain(domain) && SameLetters(name, domain)
    ensures NormalizeDomain(l, left + name + right) == Some(domain)
    ensures NormalizeDomain(l, left + (name + ".") + right) == Some(domain)
    ensures NormalizeDomain(l, left + (name + "..") + right) == None
  {
    hide *;
    ValidIsPlain(domain);
    ValidIsNormal(l, domain);
    LowersTo(l, name, domain);
    DotsTrimmed(domain);
    LastDotIsInvalid(domain + ".");
    NormalizesTo(l, left, name, right, domain);
    NormalizesTo(l, left, name + ".", right, domain + ".");
    NormalizesTo(l, left, name + "..", right, domain + "..");
  }

  lemma DotsTrimmed(s: string)
    ensures TrimDot(s + ".") == s && TrimDot(s + "..") == s + "."
  {
    assert s + ".." == s + "." + ".";
  }

  lemma NormalizesTo(l: Letters.Letters, left: string, name: string, right: string, lower: string)
    requires Letters.Spaces(l, left) && Letters.Spaces(l, right)
    requires name != "" && !l.space(name[0]) && !l.space(name[|name| - 1])
    requires Letters.ToLower(l, name) == lower
    ensures NormalizeDomain(l, left + name + right) ==
            if ValidDomain(TrimDot(lower)) then Some(TrimDot(lower)) else None
  {
    hide ValidDomain;
    Letters.TrimsSpacesAround(l, left, name, right);
  }

  /** Names that are not domains. */
  lemma RejectedNames()
    ensures !ValidDomain("*.example.com") && !ValidDomain("127.0.0.1") && !ValidDomain("bad_name.example.com")
    ensures !ValidDomain("-bad.example.com") && !ValidDomain("localhost")
  {
    hide Split, Octet, Decimal, ValidDomain, ValidSlug;
    NotOneLabel();
    NotAnAddress();
    NotAHyphen();
    assert "*.example.com"[0] == '*' && "bad_name.example.com"[3] == '_';
    CharsAreRefused("*.example.com");
    CharsAreRefused("bad_name.example.com");
  }

  lemma CharsAreRefused(s: string)
    requires '_' in s || '*' in s || ':' in s || '/' in s || '\\' in s
    ensures !ValidDomain(s)
  {
  }

  lemma LabelsAreValid(s: string, part: string)
    requires ValidDomain(s) && part in Split(s)
    ensures ValidSlug(part)
  {
  }

  lemma NotOneLabel()
    ensures !ValidDomain("localhost")
  {
    hide Split, Octet, Decimal, ValidDomain, ValidSlug;
    ValidExactly(["localhost"]);
  }

  lemma NotAHyphen()
    ensures !ValidDomain("-bad.example.com")
  {
    hide ValidDomain, Split;
    SplitJoined("-bad", "example.com");
    assert "-bad" + "." + "example.com" == "-bad.example.com";
    assert "-bad" in Split("-bad.example.com") && !ValidSlug("-bad");
    if ValidDomain("-bad.example.com") {
      LabelsAreValid("-bad.example.com", "-bad");
    }
  }

  lemma SomeNumbers(a: string, b: string, c: string, d: string)
    requires SmallNumber(a) && SmallNumber(b) && SmallNumber(c) && SmallNumber(d)
    requires '.' !in a && '.' !in b && '.' !in c && '.' !in d
    ensures !ValidDomain(a + "." + (b + "." + (c + "." + d)))
  {
    hide Octet, Split, ValidSlug, Decimal, ValidDomain, SmallNumber;
    var labels := [a, b, c, d];
    assert labels[1..] == [b, c, d] && labels[2..] == [c, d] && labels[3..] == [d];
    assert labels[1..][1..] == labels[2..] && labels[2..][1..] == labels[3..];
    assert Dotted(labels[3..]) == d;
    assert Dotted(labels[2..]) == c + "." + d;
    assert Dotted(labels[1..]) == b + "." + (c + "." + d);
    ValidExactly(labels);
  }

  lemma NotAnAddress()
    ensures !ValidDomain("127.0.0.1")
  {
    SomeAddress();
    assert SmallNumber("127") && SmallNumber("0") && SmallNumber("1");
    hide SmallNumber, ValidDomain, Decimal;
    SomeNumbers("127", "0", "0", "1");
    assert "127" + "." + ("0" + "." + ("0" + "." + "1")) == "127.0.0.1";
  }

  lemma SomeAddress()
    ensures Decimal(127) == "127" && Decimal(0) == "0" && Decimal(1) == "1"
  {
    assert Decimal(12) == "12";
  }

  /** A normalized domain is normal already, so normalizing the base twice, as joining does, changes nothing. */
  lemma NormalizingTwice(l: Letters.Letters, value: string)
    requires Letters.Ascii(l) && NormalizeDomain(l, value).Some?
    ensures NormalizeDomain(l, NormalizeDomain(l, value).value) == NormalizeDomain(l, value)
  {
    ValidIsNormal(l, NormalizeDomain(l, value).value);
  }

  lemma NormalIsValid(l: Letters.Letters, value: string)
    requires NormalizeDomain(l, value).Some?
    ensures ValidDomain(NormalizeDomain(l, value).value)
  {
  }

  lemma SlugHasNoDots(slug: string)
    requires ValidSlug(slug)
    ensures '.' !in slug && '_' !in slug && '*' !in slug && ':' !in slug && '/' !in slug && '\\' !in slug
  {
  }

  lemma ValidIsPlain(domain: string)
    requires ValidDomain(domain)
    ensures Letters.Plain(domain)
  {
    forall part | part in Split(domain) ensures Letters.Plain(part) {
      SlugIsPlain(part);
    }
    PlainParts(domain);
  }

  /** A joined domain has no capitals, spaces or dot at the end. */
  lemma JoinedIsPlain(l: Letters.Letters, slug: string, base: string)
    requires JoinDomain(l, slug, base).Ok?
    ensures Letters.Plain(JoinDomain(l, slug, base).value)
    ensures TrimDot(JoinDomain(l, slug, base).value) == JoinDomain(l, slug, base).value
  {
    var normal := NormalizeDomain(l, base).value;
    var domain := slug + "." + normal;
    SlugIsPlain(slug);
    ValidIsPlain(normal);
    PlainJoin(slug, normal);
    hide ValidDomain, ValidSlug, Letters.Plain;
    if normal[|normal| - 1] == '.' {
      LastDotIsInvalid(normal);
    }
    assert domain[|domain| - 1] == normal[|normal| - 1];
  }

  lemma PlainJoin(a: string, b: string)
    requires Letters.Plain(a) && Letters.Plain(b)
    ensures Letters.Plain(a + "." + b)
  {
  }

  lemma PrefixAddress(slug: string, normal: string)
    requires '.' !in slug
    ensures IsAddress(slug + "." + normal) <==>
            Octet(slug) && |Split(normal)| == 3 && forall p <- Split(normal) :: Octet(p)
  {
    hide Octet, Split;
    var parts := Split(slug + "." + normal);
    SplitJoined(slug, normal);
    assert forall part <- parts :: part == slug || part in Split(normal);
    assert parts[0] == slug && parts[1..] == Split(normal);
    assert forall p :: p in Split(normal) ==> p in parts;
  }

  lemma PrefixLabels(slug: string, normal: string)
    requires ValidSlug(slug) && ValidDomain(normal)
    ensures |Split(slug + "." + normal)| >= 2 && forall part <- Split(slug + "." + normal) :: ValidSlug(part)
  {
    SlugHasNoDots(slug);
    hide ValidSlug, Split, IsAddress;
    SplitJoined(slug, normal);
  }

  /** A joined domain is a valid domain except when it reads as an address: when the slug is a number up to 255
      and the base is three such numbers. */
  lemma JoinedIsDomain(l: Letters.Letters, slug: string, base: string)
    requires JoinDomain(l, slug, base).Ok?
    ensures var normal := NormalizeDomain(l, base).value;
            ValidDomain(JoinDomain(l, slug, base).value) <==>
            !(Octet(slug) && |Split(normal)| == 3 && forall p <- Split(normal) :: Octet(p))
  {
    SlugHasNoDots(slug);
    hide Octet, Split, ValidSlug, NormalizeDomain, IsAddress, Letters.Plain;
    var normal := NormalizeDomain(l, base).value;
    NormalIsValid(l, base);
    SlugIsPlain(slug);
    ValidIsPlain(normal);
    PlainJoin(slug, normal);
    PlainChars(slug + "." + normal);
    PrefixAddress(slug, normal);
    PrefixLabels(slug, normal);
  }

  /** Under a valid base a valid slug is put in front with a dot, and the result is refused exactly above 253
      characters. */
  lemma JoinsExactly(l: Letters.Letters, slug: string, base: string)
    requires Letters.Ascii(l) && ValidDomain(base)
    ensures JoinDomain(l, slug, base) ==
            if !ValidSlug(slug) then Err(InvalidSlug)
            else if |slug| + |base| + 1 > 253 then Err(TooLong)
            else Ok(slug + "." + base)
  {
    ValidIsNormal(l, base);
  }

  lemma DigitIsOctet(c: char)
    requires '0' <= c <= '9'
    ensures Octet([c]) && ValidSlug([c]) && Split([c]) == [[c]]
  {
    assert Number([c][..0]) == 0;
    assert [c][1..] == "" && Split("") == [""];
    assert [c] + "" == [c];
  }

  lemma ThreeNumbers()
    ensures Split("2.3.4") == ["2", "3", "4"] && ValidDomain("2.3.4")
  {
    hide Octet, ValidSlug, Split;
    DigitIsOctet('2');
    DigitIsOctet('3');
    DigitIsOctet('4');
    SplitJoined("3", "4");
    SplitJoined("2", "3.4");
    assert "2" + "." + "3.4" == "2.3.4" && "3" + "." + "4" == "3.4";
  }

  lemma DigitsAreAddress()
    ensures !ValidDomain("1.2.3.4")
  {
    assert Decimal(1) == "1" && Decimal(2) == "2" && Decimal(3) == "3" && Decimal(4) == "4";
    assert SmallNumber("1") && SmallNumber("2") && SmallNumber("3") && SmallNumber("4");
    hide ValidDomain, SmallNumber, Decimal;
    SomeNumbers("1", "2", "3", "4");
    assert "1" + "." + ("2" + "." + ("3" + "." + "4")) == "1.2.3.4";
  }

  lemma Joins(l: Letters.Letters, slug: string, base: string, domain: string)
    requires Letters.Ascii(l) && ValidSlug(slug) && ValidDomain(base) && slug + "." + base == domain && |domain| <= 253
    ensures JoinDomain(l, slug, base) == Ok(domain)
  {
    JoinsExactly(l, slug, base);
  }

  /** The exception exists: under the base domain 2.3.4 the slug 1 gives an address. */
  lemma JoinedCanBeAddress(l: Letters.Letters)
    requires Letters.Ascii(l)
    ensures JoinDomain(l, "1", "2.3.4") == Ok("1.2.3.4") && !ValidDomain("1.2.3.4")
  {
    hide *;
    DigitsAreAddress();
    ThreeNumbers();
    DigitIsOctet('1');
    assert "1" + "." + "2.3.4" == "1.2.3.4";
    Joins(l, "1", "2.3.4", "1.2.3.4");
  }
}
