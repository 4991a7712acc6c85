/** Tunnels that are given a free subdomain (server/api/auto_domains.go; internal/storage/tunnels.go). */
module AutoDomains {
  import opened Options
  import opened Decimals
  import Domains
  import Letters
  import opened Slugs

  const MAX_INT := 0x7fff_ffff_ffff_ffff

  datatype Error = Domain(error: Domains.Error) | InvalidTunnel | Conflict

  // ---------- candidates ----------

  function Suffix(attempt: nat): (r: string)
    requires attempt < MAX_INT
    ensures 2 <= |r| <= 20
  {
    assert Power10(5) == 100000;
    assert Power10(10) == 10000000000;
    assert Power10(15) == 1000000000000000;
    assert Power10(19) == 10000000000000000000;
    DecimalIsShort(attempt + 1, 19);
    "-" + Decimal(attempt + 1)
  }

  function TrimSlugForSuffix(slug: string, attempt: nat): string
    requires attempt < MAX_INT
  {
    var limit := MAX_LABEL - |Suffix(attempt)|;
    if |slug| <= limit then slug else TrimRight(slug[..limit])
  }

  function CandidateSlug(slug: string, attempt: nat): string
    requires attempt < MAX_INT
  {
    if attempt == 0 then slug else TrimSlugForSuffix(slug, attempt) + Suffix(attempt)
  }

  function CandidateDomain(l: Letters.Letters, slug: string, base: string, attempt: nat): Result<string, Domains.Error>
    requires attempt < MAX_INT
  {
    Domains.JoinDomain(l, CandidateSlug(slug, attempt), base)
  }

  /** A later candidate is the slug with a hyphen and the number of the attempt, counted from one. When that is longer
      than 63 characters the slug is cut to fit, and then again before the hyphens at its end. */
  lemma CandidateIsNumbered(slug: string, attempt: nat)
    requires 0 < attempt < MAX_INT
    ensures var number, c := Decimal(attempt + 1), CandidateSlug(slug, attempt);
            var n := |c| - 1 - |number|;
            && 0 <= n <= |slug| && c == slug[..n] + "-" + number
            && if |slug| + 1 + |number| <= 63 then n == |slug|
               else && n <= 62 - |number| < |slug| && (n > 0 ==> slug[n - 1] != '-')
                    && forall i :: n <= i < 62 - |number| ==> slug[i] == '-'
  {
    hide Decimal;
    var t, limit := TrimSlugForSuffix(slug, attempt), MAX_LABEL - |Suffix(attempt)|;
    assert CandidateSlug(slug, attempt) == t + Suffix(attempt) && Suffix(attempt) == "-" + Decimal(attempt + 1);
    assert t == slug[..|t|];
    if |slug| > limit {
      var cut := slug[..limit];
      assert forall i :: |t| <= i < limit ==> cut[i] == slug[i];
      assert |t| > 0 ==> t[|t| - 1] == slug[|t| - 1];
    }
  }

  /** Every candidate of a slug is a label. */
  lemma CandidateIsSlug(slug: string, attempt: nat)
    requires ValidSlug(slug) && attempt < MAX_INT
    ensures ValidSlug(CandidateSlug(slug, attempt))
  {
    if attempt > 0 {
      var t, suffix := TrimSlugForSuffix(slug, attempt), Suffix(attempt);
      assert t == slug[..|t|];
      assert t != "" by {
        assert slug[0] != '-';
      }
      var c := CandidateSlug(slug, attempt);
      forall i | 0 <= i < |c| ensures Alnum(c[i]) || c[i] == '-' {
        if i < |t| {
          assert c[i] == slug[i];
        } else {
          assert c[i] == suffix[i - |t|];
        }
      }
    }
  }

  /** Under a normal base, joining a candidate fails only by its length. */
  lemma OnlyLengthFails(l: Letters.Letters, slug: string, base: string, attempt: nat)
    requires ValidSlug(slug) && attempt < MAX_INT && Domains.NormalizeDomain(l, base).Some?
    ensures var c := CandidateDomain(l, slug, base, attempt); c.Err? ==> c.error == Domains.TooLong
  {
    CandidateIsSlug(slug, attempt);
  }

  /** What stands after the last hyphen is determined. */
  lemma LastHyphen(u: string, d: string, v: string, e: string)
    requires u + "-" + d == v + "-" + e
    requires '-' !in d && '-' !in e
    ensures u == v && d == e
  {
    var s := u + "-" + d;
    assert s[|u|] == '-' && s[|v|] == '-';
    assert forall i :: |u| < i < |s| ==> s[i] == d[i - |u| - 1];
    assert forall i :: |v| < i < |s| ==> s[i] == e[i - |v| - 1];
    assert |u| == |v|;
    assert u == s[..|u|] && v == s[..|v|] && d == s[|u| + 1..] && e == s[|v| + 1..];
  }

  /** The slug is itself the candidate of a later attempt: it is 62 or 63 characters long and ends in the suffix
      of that attempt. */
  predicate Collides(slug: string, attempt: nat)
    requires attempt < MAX_INT
  {
    var stem := |slug| - |Suffix(attempt)|;
    attempt > 0 && |slug| >= MAX_LABEL - 1 && slug[stem..] == Suffix(attempt) && slug[stem - 1] != '-'
  }

  lemma LaterIsFirst(slug: string, attempt: nat)
    requires ValidSlug(slug) && 0 < attempt < MAX_INT
    ensures CandidateSlug(slug, attempt) == slug <==> Collides(slug, attempt)
  {
    var suffix, t := Suffix(attempt), TrimSlugForSuffix(slug, attempt);
    var limit, stem := MAX_LABEL - |suffix|, |slug| - |suffix|;
    if t + suffix == slug {
      assert suffix == slug[stem..] && |t| == stem;
      assert slug[stem] == suffix[0] && slug[stem + 1] == suffix[1] && suffix[1] != '-';
      assert forall i :: |t| <= i < limit ==> slug[..limit][i] == slug[i];
      assert stem + 1 >= limit;
      assert t[stem - 1] == slug[stem - 1];
    }
    if Collides(slug, attempt) {
      assert slug[stem] == suffix[0];
      assert slug[..limit][..|t|] == t;
      assert |t| == stem;
      assert t == slug[..stem];
    }
  }

  /** Two attempts give the same candidate exactly when one of them is the first and the slug collides. */
  lemma CandidatesDiffer(slug: string, a: nat, b: nat)
    requires ValidSlug(slug) && a < b < MAX_INT
    ensures CandidateSlug(slug, a) == CandidateSlug(slug, b) <==> a == 0 && Collides(slug, b)
  {
    if a == 0 {
      LaterIsFirst(slug, b);
    } else if CandidateSlug(slug, a) == CandidateSlug(slug, b) {
      NumberOfCandidate(slug, a);
      NumberOfCandidate(slug, b);
      LastHyphen(TrimSlugForSuffix(slug, a), Decimal(a + 1), TrimSlugForSuffix(slug, b), Decimal(b + 1));
      DecimalIsInjective(a + 1, b + 1);
    }
  }

  lemma NumberOfCandidate(slug: string, attempt: nat)
    requires 0 < attempt < MAX_INT
    ensures CandidateSlug(slug, attempt) == TrimSlugForSuffix(slug, attempt) + "-" + Decimal(attempt + 1)
    ensures '-' !in Decimal(attempt + 1)
  {
    hide Decimal, TrimSlugForSuffix;
  }

  lemma JoinIsInjective(x: string, y: string, base: string)
    ensures x + "." + base == y + "." + base ==> x == y
  {
    if x + "." + base == y + "." + base {
      assert |x| == |y|;
      assert x == (x + "." + base)[..|x|] == y;
    }
  }

  lemma DomainsDiffer(l: Letters.Letters, slug: string, base: string, a: nat, b: nat)
    requires ValidSlug(slug) && |slug| <= MAX_SLUG && a < b < MAX_INT
    requires CandidateDomain(l, slug, base, a).Ok? && CandidateDomain(l, slug, base, b).Ok?
    ensures CandidateDomain(l, slug, base, a) != CandidateDomain(l, slug, base, b)
  {
    CandidatesDiffer(slug, a, b);
    JoinIsInjective(CandidateSlug(slug, a), CandidateSlug(slug, b), Domains.NormalizeDomain(l, base).value);
  }

  /** Without the cap of 48 characters the retry would try a domain twice. */
  lemma LongSlugCollides()
    ensures exists slug: string, attempt: nat | attempt < MAX_INT :: ValidSlug(slug) && Collides(slug, attempt)
  {
    var stem: string := seq(61, i => 'a');
    var slug := stem + "-2";
    assert Decimal(2) == "2";
    assert Suffix(1) == "-2";
    assert slug[61..] == "-2";
    assert ValidSlug(slug) && Collides(slug, 1);
  }

  // ---------- the store and the retry loop ----------

  /** Unique (protocol, domain) pairs. */
  type Rows = set<(string, string)>

  /** What decides besides the table and the domain: whether the tunnel's other fields are valid, and whether the
      lookup after a conflict can be answered. */
  datatype Checks = Checks(letters: Letters.Letters, fields: bool, answers: string -> bool)

  /** A domain as it is stored. */
  function Canonical(l: Letters.Letters, domain: string): string {
    Letters.ToLower(l, Domains.TrimDot(Letters.TrimSpace(l, domain)))
  }

  /** The lower() of the database. */
  function SqlLower(s: string): string {
    seq(|s|, i requires 0 <= i < |s| => Letters.AsciiLower(s[i]))
  }

  ghost predicate InUse(rows: Rows, protocol: string, domain: string) {
    exists row <- rows :: row.0 == protocol && SqlLower(row.1) == SqlLower(domain)
  }

  function Inserted(rows: Rows, checks: Checks, protocol: string, domain: string): Result<string, Error> {
    var stored := Canonical(checks.letters, domain);
    if !checks.fields || Domains.NormalizeDomain(checks.letters, domain).None? then Err(InvalidTunnel)
    else if (Letters.ToLower(checks.letters, protocol), stored) in rows then Err(Conflict)
    else Ok(stored)
  }

  /** The tunnels table. */
  class Store {
    var rows: Rows
    const checks: Checks

    constructor (rows: Rows, checks: Checks)
      ensures this.rows == rows && this.checks == checks
    {
      this.rows, this.checks := rows, checks;
    }

    method CreateTunnel(protocol: string, domain: string) returns (r: Result<string, Error>)
      modifies this
      ensures r == Inserted(old(rows), checks, protocol, domain)
      ensures var name := Domains.NormalizeDomain(checks.letters, domain);
              && (r == Err(InvalidTunnel) <==> !checks.fields || name.None?)
              && (r == Err(Conflict) <==> checks.fields && name.Some?
                                          && (Letters.ToLower(checks.letters, protocol),
                                              Canonical(checks.letters, domain)) in old(rows))
              && (r.Ok? ==> r.value == Canonical(checks.letters, domain)
                            && (Letters.ToLower(checks.letters, protocol), r.value) !in old(rows))
      ensures rows == if r.Ok? then old(rows) + {(Letters.ToLower(checks.letters, protocol), r.value)} else old(rows)
    {
      var normalized := Domains.NormalizeDomain(checks.letters, domain);
      if !checks.fields || normalized.None? {
        return Err(InvalidTunnel);
      }
      var row := (Letters.ToLower(checks.letters, protocol), Canonical(checks.letters, domain));
      if row in rows {
        return Err(Conflict);
      }
      rows := rows + {row};
      return Ok(row.1);
    }

    method DomainInUse(protocol: string, domain: string) returns (used: Option<bool>)
      ensures used.None? <==> Domains.NormalizeDomain(checks.letters, domain).None? || !checks.answers(domain)
      ensures used.Some? ==>
                (used.value <==> InUse(rows, Letters.ToLower(checks.letters, protocol),
                                       Domains.NormalizeDomain(checks.letters, domain).value))
    {
      var normalized := Domains.NormalizeDomain(checks.letters, domain);
      if normalized.None? || !checks.answers(domain) {
        return None;
      }
      var wanted := Letters.ToLower(checks.letters, protocol);
      var found := set row | row in rows && row.0 == wanted && SqlLower(row.1) == SqlLower(normalized.value);
      if found == {} {
        assert forall row <- rows :: row.0 == wanted && SqlLower(row.1) == SqlLower(normalized.value) ==> row in found;
        return Some(false);
      }
      var row :| row in found;
      assert row in rows && row.0 == wanted && SqlLower(row.1) == SqlLower(normalized.value);
      return Some(true);
    }
  }

  function Attempted(rows: Rows, checks: Checks, protocol: string, c: Result<string, Domains.Error>): Result<string, Error> {
    if c.Err? then Err(Domain(c.error)) else Inserted(rows, checks, protocol, c.value)
  }

  /** The rows of one protocol. */
  function OfProtocol(rows: Rows, protocol: string): Rows {
    set row | row in rows && row.0 == protocol
  }

  /** The first `attempts` candidates are all valid and known to be taken. */
  predicate AllTaken(rows: Rows, checks: Checks, protocol: string, slug: string, base: string, attempts: nat)
    requires attempts <= MAX_INT
  {
    attempts > 0 ==>
      && AllTaken(rows, checks, protocol, slug, base, attempts - 1)
      && Taken(rows, checks, protocol, slug, base, attempts - 1)
  }

  predicate Taken(rows: Rows, checks: Checks, protocol: string, slug: string, base: string, attempt: nat)
    requires attempt < MAX_INT
  {
    var c := CandidateDomain(checks.letters, slug, base, attempt);
    c.Ok? && Domains.ValidDomain(c.value) && checks.answers(c.value) && (protocol, c.value) in rows
  }

  /** A later candidate's row can go: the earlier candidates have others. */
  lemma {:induction false} TakenWithout(rows: Rows, checks: Checks, protocol: string, slug: string, base: string,
                                        attempts: nat, later: nat)
    requires ValidSlug(slug) && |slug| <= MAX_SLUG && attempts <= later < MAX_INT
    requires AllTaken(rows, checks, protocol, slug, base, attempts)
    requires CandidateDomain(checks.letters, slug, base, later).Ok?
    ensures AllTaken(rows - {(protocol, CandidateDomain(checks.letters, slug, base, later).value)}, checks, protocol,
                     slug, base, attempts)
  {
    if attempts > 0 {
      TakenWithout(rows, checks, protocol, slug, base, attempts - 1, later);
      DomainsDiffer(checks.letters, slug, base, attempts - 1, later);
    }
  }

  /** Candidates that are taken are as many different rows. */
  lemma {:induction false} TakenAreRows(rows: Rows, checks: Checks, protocol: string, slug: string, base: string,
                                        attempts: nat)
    requires ValidSlug(slug) && |slug| <= MAX_SLUG && attempts <= MAX_INT
    requires AllTaken(rows, checks, protocol, slug, base, attempts)
    ensures attempts <= |OfProtocol(rows, protocol)|
  {
    hide CandidateDomain;
    if attempts > 0 {
      var row := (protocol, CandidateDomain(checks.letters, slug, base, attempts - 1).value);
      TakenWithout(rows, checks, protocol, slug, base, attempts - 1, attempts - 1);
      TakenAreRows(rows - {row}, checks, protocol, slug, base, attempts - 1);
      assert OfProtocol(rows, protocol) == OfProtocol(rows - {row}, protocol) + {row};
    }
  }

  /** A protocol with a domain, in whatever letters. */
  predicate Web(l: Letters.Letters, protocol: string) {
    Letters.ToLower(l, protocol) == "http" || Letters.ToLower(l, protocol) == "https"
  }

  lemma WebIsLower(l: Letters.Letters, protocol: string)
    requires Letters.Ascii(l) && Web(l, protocol)
    ensures Letters.ToLower(l, Letters.ToLower(l, protocol)) == Letters.ToLower(l, protocol)
  {
    Letters.PlainStays(l, Letters.ToLower(l, protocol));
  }

  /** A conflict is about the candidate itself, and the lookup after it finds the row. */
  lemma ConflictIsTaken(rows: Rows, checks: Checks, protocol: string, domain: string)
    requires Letters.Ascii(checks.letters) && Domains.ValidDomain(domain)
    ensures Canonical(checks.letters, domain) == domain
    ensures Domains.NormalizeDomain(checks.letters, domain) == Some(domain)
    ensures (protocol, domain) in rows ==> InUse(rows, protocol, domain)
  {
    Domains.ValidIsNormal(checks.letters, domain);
    if (protocol, domain) in rows {
      var row := (protocol, domain);
      assert row in rows && row.0 == protocol && SqlLower(row.1) == SqlLower(domain);
    }
  }

  /** A joined candidate that normalizes is a valid domain already: it has no capitals, spaces or dot at the end. */
  lemma CandidateIsPlain(l: Letters.Letters, slug: string, base: string, attempt: nat)
    requires Letters.Ascii(l) && attempt < MAX_INT
    requires CandidateDomain(l, slug, base, attempt).Ok?
    ensures var c := CandidateDomain(l, slug, base, attempt).value;
            Domains.NormalizeDomain(l, c).Some? <==> Domains.ValidDomain(c)
  {
    var c := CandidateDomain(l, slug, base, attempt).value;
    Domains.JoinedIsPlain(l, CandidateSlug(slug, attempt), base);
    Letters.PlainStays(l, c);
  }

  /** The candidates before this one are taken, and this one is a valid domain of no row. */
  ghost predicate FirstFree(rows: Rows, checks: Checks, protocol: string, slug: string, base: string, k: nat)
    requires k < MAX_INT
  {
    var c := CandidateDomain(checks.letters, slug, base, k);
    && (forall i: nat :: i < k ==> Taken(rows, checks, protocol, slug, base, i))
    && c.Ok? && Domains.ValidDomain(c.value) && (protocol, c.value) !in rows
  }

  lemma {:induction false} AllTakenIsEach(rows: Rows, checks: Checks, protocol: string, slug: string, base: string, n: nat)
    requires n <= MAX_INT && AllTaken(rows, checks, protocol, slug, base, n)
    ensures forall i: nat :: i < n ==> Taken(rows, checks, protocol, slug, base, i)
  {
    hide Taken;
    if n > 0 {
      AllTakenIsEach(rows, checks, protocol, slug, base, n - 1);
    }
  }

  /** A valid domain that no row has is inserted as it is. */
  lemma FreeIsInserted(rows: Rows, checks: Checks, protocol: string, domain: string)
    requires Letters.Ascii(checks.letters) && checks.fields && Domains.ValidDomain(domain)
    requires (Letters.ToLower(checks.letters, protocol), domain) !in rows
    ensures Inserted(rows, checks, protocol, domain) == Ok(domain)
  {
    hide Domains.ValidDomain, Domains.NormalizeDomain, Canonical, Letters.Ascii, InUse;
    ConflictIsTaken(rows, checks, protocol, domain);
  }

  /** A valid domain that some row has is a conflict. */
  lemma TakenConflicts(rows: Rows, checks: Checks, protocol: string, domain: string)
    requires Letters.Ascii(checks.letters) && checks.fields && Domains.ValidDomain(domain)
    requires (Letters.ToLower(checks.letters, protocol), domain) in rows
    ensures Inserted(rows, checks, protocol, domain) == Err(Conflict)
  {
    hide Domains.ValidDomain, Domains.NormalizeDomain, Canonical, Letters.Ascii, InUse;
    ConflictIsTaken(rows, checks, protocol, domain);
  }

  /** The last of so many attempts gave the result, after candidates that were all taken. */
  ghost predicate Ended(rows: Rows, checks: Checks, tunnelProtocol: string, slug: string, base: string,
                        r: Result<string, Error>, attempts: nat)
    requires 0 < attempts <= MAX_INT
  {
    var c := CandidateDomain(checks.letters, slug, base, attempts - 1);
    && AllTaken(rows, checks, Letters.ToLower(checks.letters, tunnelProtocol), slug, base, attempts - 1)
    && r == Attempted(rows, checks, tunnelProtocol, c)
    && (r == Err(Conflict) ==> c.Ok? && !checks.answers(c.value))
  }

  /** A retry that ends meets the first free candidate: it neither stops before it nor goes past it. */
  lemma FirstFreeIsCreated(rows: Rows, checks: Checks, tunnelProtocol: string, slug: string, base: string,
                           r: Result<string, Error>, attempts: nat, k: nat)
    requires Letters.Ascii(checks.letters) && checks.fields && 0 < attempts <= MAX_INT && k < MAX_INT
    requires FirstFree(rows, checks, Letters.ToLower(checks.letters, tunnelProtocol), slug, base, k)
    requires Ended(rows, checks, tunnelProtocol, slug, base, r, attempts)
    ensures attempts == k + 1 && r == Ok(CandidateDomain(checks.letters, slug, base, k).value)
  {
    hide Letters.Ascii, Letters.ToLower, Domains.ValidDomain, CandidateDomain, Inserted;
    var protocol := Letters.ToLower(checks.letters, tunnelProtocol);
    var last := attempts - 1;
    AllTakenIsEach(rows, checks, protocol, slug, base, last);
    FreeIsInserted(rows, checks, tunnelProtocol, CandidateDomain(checks.letters, slug, base, k).value);
    if last < k {
      assert Taken(rows, checks, protocol, slug, base, last);
      TakenConflicts(rows, checks, tunnelProtocol, CandidateDomain(checks.letters, slug, base, last).value);
    }
    assert last > k ==> Taken(rows, checks, protocol, slug, base, k);
  }

  ghost predicate CreatesFirstFree(rows: Rows, checks: Checks, protocol: string, slug: string, base: string,
                                   r: Result<string, Error>, attempts: nat)
  {
    forall k: nat | k < MAX_INT && FirstFree(rows, checks, protocol, slug, base, k) ::
      attempts == k + 1 && r == Ok(CandidateDomain(checks.letters, slug, base, k).value)
  }

  lemma EndedAtFirstFree(rows: Rows, checks: Checks, tunnelProtocol: string, slug: string, base: string,
                         r: Result<string, Error>, attempts: nat)
    requires Letters.Ascii(checks.letters) && 0 < attempts <= MAX_INT
    requires AllTaken(rows, checks, Letters.ToLower(checks.letters, tunnelProtocol), slug, base, attempts - 1)
    requires var c := CandidateDomain(checks.letters, slug, base, attempts - 1);
             && r == Attempted(rows, checks, tunnelProtocol, c)
             && (r == Err(Conflict) ==> c.Ok? && !checks.answers(c.value))
    ensures Ended(rows, checks, tunnelProtocol, slug, base, r, attempts)
    ensures checks.fields ==>
              CreatesFirstFree(rows, checks, Letters.ToLower(checks.letters, tunnelProtocol), slug, base, r, attempts)
  {
    hide Letters.Ascii, CandidateDomain, AllTaken, Attempted;
    if checks.fields {
      forall k: nat | k < MAX_INT
        && FirstFree(rows, checks, Letters.ToLower(checks.letters, tunnelProtocol), slug, base, k)
        ensures attempts == k + 1 && r == Ok(CandidateDomain(checks.letters, slug, base, k).value)
      {
        FirstFreeIsCreated(rows, checks, tunnelProtocol, slug, base, r, attempts, k);
      }
    }
  }

  /** The loop has no bound of its own. It makes at most one attempt more than there are rows of the protocol: it
      ends with the first candidate that is free, or with the first that is too long, not valid or cannot be looked
      up. Nothing is attempted under an invalid base domain. */
  method CreateTunnel(store: Store, tunnelProtocol: string, name: string, configured: string)
      returns (r: Result<string, Error>, attempts: nat)
    requires Letters.Ascii(store.checks.letters) && Web(store.checks.letters, tunnelProtocol)
    requires |OfProtocol(store.rows, Letters.ToLower(store.checks.letters, tunnelProtocol))| < MAX_INT
    modifies store
    ensures var l := store.checks.letters;
            var protocol := Letters.ToLower(l, tunnelProtocol);
            && attempts <= |OfProtocol(old(store.rows), protocol)| + 1
            && (attempts == 0 <==> Domains.NormalizeDomain(l, configured).None?)
            && (attempts == 0 ==> r == Err(Domain(Domains.InvalidBase)))
            && (r.Ok? ==> (protocol, r.value) !in old(store.rows))
            && store.rows == if r.Ok? then old(store.rows) + {(protocol, r.value)} else old(store.rows)
    ensures attempts > 0 ==>
              Ended(old(store.rows), store.checks, tunnelProtocol, SlugFor(store.checks.letters, name),
                    Domains.NormalizeDomain(store.checks.letters, configured).value, r, attempts)
    ensures var l := store.checks.letters;
            var base := Domains.NormalizeDomain(l, configured);
            base.Some? && store.checks.fields ==>
              CreatesFirstFree(old(store.rows), store.checks, Letters.ToLower(l, tunnelProtocol), SlugFor(l, name),
                               base.value, r, attempts)
  {
    hide CandidateDomain, Domains.NormalizeDomain, Domains.ValidDomain, Canonical, InUse, Letters.Ascii, CreatesFirstFree;
    hide Ended, Inserted, SlugOf, Letters.TrimSpace, ValidSlug;
    var l := store.checks.letters;
    var normalized := Domains.NormalizeDomain(l, configured);
    if normalized.None? {
      return Err(Domain(Domains.InvalidBase)), 0;
    }
    var base := normalized.value;
    var slug, valid := SlugFromName(l, name);
    SlugIsTidy(Letters.Fold(l, name));
    var protocol := Letters.ToLower(l, tunnelProtocol);
    WebIsLower(l, tunnelProtocol);
    var attempt := 0;
    while true
      invariant store.rows == old(store.rows)
      invariant attempt <= |OfProtocol(store.rows, protocol)|
      invariant AllTaken(store.rows, store.checks, protocol, slug, base, attempt)
      decreases |OfProtocol(store.rows, protocol)| - attempt
    {
      attempts := attempt + 1;
      var domain := CandidateDomain(l, slug, base, attempt);
      if domain.Err? {
        r := Err(Domain(domain.error));
        EndedAtFirstFree(old(store.rows), store.checks, tunnelProtocol, slug, base, r, attempts);
        return;
      }
      r := store.CreateTunnel(tunnelProtocol, domain.value);
      if r.Ok? {
        EndedAtFirstFree(old(store.rows), store.checks, tunnelProtocol, slug, base, r, attempts);
        return;
      }
      if r.error != Conflict {
        EndedAtFirstFree(old(store.rows), store.checks, tunnelProtocol, slug, base, r, attempts);
        return;
      }
      CandidateIsPlain(l, slug, base, attempt);
      ConflictIsTaken(store.rows, store.checks, protocol, domain.value);
      var inUse := store.DomainInUse(protocol, domain.value);
      if inUse != Some(true) {
        EndedAtFirstFree(old(store.rows), store.checks, tunnelProtocol, slug, base, r, attempts);
        return;
      }
      attempt := attempt + 1;
      TakenAreRows(store.rows, store.checks, protocol, slug, base, attempt);
    }
  }

  /** Candidates of a created tunnel's name fail to join only by their length. */
  lemma {:induction false} SlugsFailByLength(l: Letters.Letters, name: string, configured: string, attempt: nat)
    requires Letters.Ascii(l) && attempt < MAX_INT && Domains.NormalizeDomain(l, configured).Some?
    ensures var c := CandidateDomain(l, SlugFor(l, name), Domains.NormalizeDomain(l, configured).value, attempt);
            c.Err? ==> c.error == Domains.TooLong
  {
    hide CandidateDomain, Domains.NormalizeDomain, Letters.Ascii;
    Domains.NormalizingTwice(l, configured);
    SlugIsTidy(Letters.Fold(l, name));
    OnlyLengthFails(l, SlugFor(l, name), Domains.NormalizeDomain(l, configured).value, attempt);
  }
}
