/** Subdomain labels made from tunnel names (internal/storage/domains.go). */
module Slugs {
  import Letters

  const MAX_LABEL := 63
  const MAX_SLUG := 48

  predicate Alnum(c: char) {
    'a' <= c <= 'z' || '0' <= c <= '9'
  }

  predicate ValidSlug(s: string) {
    && 1 <= |s| <= MAX_LABEL
    && s[0] != '-' && s[|s| - 1] != '-'
    && forall i :: 0 <= i < |s| ==> Alnum(s[i]) || s[i] == '-'
  }

  /** Drops the hyphens at the end and nothing else. */
  function TrimRight(s: string): (r: string)
    ensures |r| <= |s| && r == s[..|r|]
    ensures r == "" || r[|r| - 1] != '-'
    ensures forall i :: |r| <= i < |s| ==> s[i] == '-'
  {
    if s != "" && s[|s| - 1] == '-' then TrimRight(s[..|s| - 1]) else s
  }

  function TrimLeft(s: string): string {
    if s != "" && s[0] == '-' then TrimLeft(s[1..]) else s
  }

  function Trim(s: string): string {
    TrimRight(TrimLeft(s))
  }

  // ---------- words ----------

  predicate EndsInWord(s: string) {
    s != "" && Alnum(s[|s| - 1])
  }

  /** The maximal runs of letters and digits, in order. */
  function Words(s: string): (r: seq<string>)
    ensures EndsInWord(s) ==> r != []
  {
    if s == "" then []
    else
      var front, c := s[..|s| - 1], s[|s| - 1];
      var words := Words(front);
      if !Alnum(c) then words
      else if EndsInWord(front) then words[..|words| - 1] + [words[|words| - 1] + [c]]
      else words + [[c]]
  }

  function Join(words: seq<string>): string {
    if words == [] then ""
    else if |words| == 1 then words[0]
    else Join(words[..|words| - 1]) + "-" + words[|words| - 1]
  }

  /** The words joined by hyphens, cut to 48 characters, or "tunnel" when there is no word. */
  function SlugOf(name: string): string {
    var joined := Join(Words(name));
    var capped := if |joined| > MAX_SLUG then TrimRight(joined[..MAX_SLUG]) else joined;
    if capped == "" then "tunnel" else capped
  }

  /** The slug of a tunnel name, which is trimmed and lower-cased first. */
  function SlugFor(l: Letters.Letters, name: string): string {
    SlugOf(Letters.Fold(l, name))
  }

  // ---------- one pass over the name ----------

  /** The words so far, and a hyphen when something else came after the last one. */
  function Hyphenated(s: string): string {
    Join(Words(s)) + (if Words(s) != [] && !EndsInWord(s) then "-" else "")
  }

  /** Letters, digits and single hyphens, none of them in front. */
  predicate Tidy(s: string) {
    forall i :: 0 <= i < |s| ==> TidyAt(s, i)
  }

  predicate TidyAt(s: string, i: nat)
    requires i < |s|
  {
    Alnum(s[i]) || (s[i] == '-' && i > 0 && s[i - 1] != '-')
  }

  lemma TidyPrefix(s: string, n: nat)
    requires Tidy(s) && n <= |s|
    ensures Tidy(s[..n])
  {
    forall i | 0 <= i < n ensures TidyAt(s[..n], i) {
      assert TidyAt(s, i);
    }
  }

  lemma TidyGrows(s: string, c: char)
    requires Tidy(s) && (Alnum(c) || (c == '-' && s != "" && s[|s| - 1] != '-'))
    ensures Tidy(s + [c])
  {
    forall i | 0 <= i <= |s| ensures TidyAt(s + [c], i) {
      assert i < |s| ==> TidyAt(s, i);
    }
  }

  lemma TidyIsValid(s: string)
    requires Tidy(s) && 1 <= |s| <= MAX_LABEL && s[|s| - 1] != '-'
    ensures ValidSlug(s)
  {
    assert TidyAt(s, 0);
    forall i | 0 <= i < |s| ensures Alnum(s[i]) || s[i] == '-' {
      assert TidyAt(s, i);
    }
  }

  lemma {:induction false} WordsHaveLetters(s: string)
    ensures forall w <- Words(s) :: EndsInWord(w)
  {
    if s != "" {
      WordsHaveLetters(s[..|s| - 1]);
    }
  }

  lemma {:induction false} JoinEndsInWord(words: seq<string>)
    requires words != [] && forall w <- words :: EndsInWord(w)
    ensures EndsInWord(Join(words))
  {
    assert words[|words| - 1] in words;
    if |words| > 1 {
      assert Join(words)[|Join(words)| - 1] == words[|words| - 1][|words[|words| - 1]| - 1];
    }
  }

  /** What one character adds; this is the loop's body. */
  lemma HyphenatedStep(s: string, c: char)
    ensures Hyphenated(s + [c]) ==
            if Alnum(c) then Hyphenated(s) + [c]
            else if Hyphenated(s) != "" && Hyphenated(s)[|Hyphenated(s)| - 1] != '-' then Hyphenated(s) + "-"
            else Hyphenated(s)
  {
    hide Words, Join, EndsInWord;
    var words := Words(s);
    WordsStep(s, c);
    JoinedEnd(s);
    if Alnum(c) {
      if EndsInWord(s) {
        JoinGrows(words, c);
      } else {
        JoinAppends(words, [c]);
      }
    }
  }

  lemma WordsStep(s: string, c: char)
    ensures EndsInWord(s + [c]) == Alnum(c)
    ensures Words(s + [c]) ==
            if !Alnum(c) then Words(s)
            else if EndsInWord(s) then Words(s)[..|Words(s)| - 1] + [Words(s)[|Words(s)| - 1] + [c]]
            else Words(s) + [[c]]
  {
    assert (s + [c])[..|s|] == s;
  }

  /** The joined words are empty when there are none, and do not end in a hyphen. */
  lemma JoinedEnd(s: string)
    ensures var joined := Join(Words(s));
            if Words(s) == [] then joined == "" else joined != "" && Alnum(joined[|joined| - 1])
  {
    WordsHaveLetters(s);
    if Words(s) != [] {
      JoinEndsInWord(Words(s));
    }
  }

  lemma JoinAppends(words: seq<string>, word: string)
    ensures Join(words + [word]) == if words == [] then word else Join(words) + "-" + word
  {
    assert (words + [word])[..|words|] == words;
  }

  lemma JoinGrows(words: seq<string>, c: char)
    requires words != []
    ensures Join(words[..|words| - 1] + [words[|words| - 1] + [c]]) == Join(words) + [c]
  {
    var n := |words| - 1;
    var grown := words[..n] + [words[n] + [c]];
    assert grown[..n] == words[..n];
    if n > 0 {
      assert Join(grown) == Join(words[..n]) + "-" + (words[n] + [c]);
    }
  }

  lemma {:induction false} HyphenatedIsTidy(s: string)
    ensures Tidy(Hyphenated(s))
  {
    if s != "" {
      var front, c := s[..|s| - 1], s[|s| - 1];
      HyphenatedIsTidy(front);
      assert s == front + [c];
      HyphenatedStep(front, c);
      if Hyphenated(s) != Hyphenated(front) {
        TidyGrows(Hyphenated(front), Hyphenated(s)[|Hyphenated(front)|]);
      }
    }
  }

  lemma {:induction false} TidyIsHyphenated(s: string)
    requires Tidy(s)
    ensures Hyphenated(s) == s
  {
    if s != "" {
      var front, c := s[..|s| - 1], s[|s| - 1];
      TidyPrefix(s, |s| - 1);
      TidyIsHyphenated(front);
      assert s == front + [c];
      HyphenatedStep(front, c);
      assert TidyAt(s, |s| - 1);
    }
  }

  /** Without its hyphen at the end, the pass has the words joined. */
  lemma TrimmedIsJoined(s: string)
    ensures Trim(Hyphenated(s)) == Join(Words(s))
    ensures Tidy(Join(Words(s))) && (Join(Words(s)) != "" ==> EndsInWord(Join(Words(s))))
  {
    HyphenatedIsTidy(s);
    var all, joined := Hyphenated(s), Join(Words(s));
    assert all != "" ==> TidyAt(all, 0);
    assert joined == all[..|joined|];
    TidyPrefix(all, |joined|);
    if Words(s) != [] {
      WordsHaveLetters(s);
      JoinEndsInWord(Words(s));
    }
  }

  /** The words are what stands between the other characters. */
  lemma {:induction false} WordsSplit(a: string, c: char, b: string)
    requires !Alnum(c)
    ensures Words(a + [c] + b) == Words(a) + Words(b)
  {
    if b == "" {
      WordsStep(a, c);
      assert a + [c] + b == a + [c];
    } else {
      hide Words;
      var front, d := b[..|b| - 1], b[|b| - 1];
      assert a + [c] + b == a + [c] + front + [d] && b == front + [d];
      WordsSplit(a, c, front);
      WordsStep(a + [c] + front, d);
      WordsStep(front, d);
      EndsAlike(a, c, front);
    }
  }

  lemma EndsAlike(a: string, c: char, b: string)
    requires !Alnum(c)
    ensures EndsInWord(a + [c] + b) == EndsInWord(b)
  {
  }

  lemma {:induction false} LettersAreOneWord(s: string)
    requires s != "" && forall c <- s :: Alnum(c)
    ensures Words(s) == [s]
  {
    var front := s[..|s| - 1];
    assert s == front + [s[|s| - 1]];
    if front != "" {
      LettersAreOneWord(front);
    }
  }

  method ValidateSlug(slug: string) returns (ok: bool)
    ensures ok <==> ValidSlug(slug)
    ensures ok <==> && 1 <= |slug| <= 63 && slug[0] != '-' && slug[|slug| - 1] != '-'
                    && forall i :: 0 <= i < |slug| ==> 'a' <= slug[i] <= 'z' || '0' <= slug[i] <= '9' || slug[i] == '-'
  {
    if slug == "" || |slug| > MAX_LABEL {
      return false;
    }
    if slug[0] == '-' || slug[|slug| - 1] == '-' {
      return false;
    }
    for i := 0 to |slug|
      invariant forall j :: 0 <= j < i ==> Alnum(slug[j]) || slug[j] == '-'
    {
      if !Alnum(slug[i]) && slug[i] != '-' {
        return false;
      }
    }
    return true;
  }

  /** The validation at the end never fails. */
  method SlugFromName(l: Letters.Letters, tunnelName: string) returns (slug: string, valid: bool)
    ensures slug == SlugFor(l, tunnelName) && valid
  {
    hide Hyphenated, Words, Join, Letters.Fold, Letters.TrimSpace, Tidy;
    var name := Letters.Fold(l, tunnelName);
    NothingHyphenated();
    assert name[..0] == "";
    var builder, previousHyphen := "", false;
    for i := 0 to |name|
      invariant builder == Hyphenated(name[..i])
      invariant previousHyphen <==> builder != "" && builder[|builder| - 1] == '-'
    {
      assert name[..i + 1] == name[..i] + [name[i]];
      HyphenatedStep(name[..i], name[i]);
      if Alnum(name[i]) {
        builder := builder + [name[i]];
        previousHyphen := false;
      } else if |builder| > 0 && !previousHyphen {
        builder := builder + "-";
        previousHyphen := true;
      }
    }
    assert name[..|name|] == name;
    TrimmedIsJoined(name);
    slug := Trim(builder);
    if |slug| > MAX_SLUG {
      slug := TrimRight(slug[..MAX_SLUG]);
    }
    if slug == "" {
      slug := "tunnel";
    }
    SlugIsTidy(name);
    valid := ValidateSlug(slug);
  }

  lemma TunnelIsTidy()
    ensures Tidy("tunnel")
  {
    var s := "tunnel";
    forall i | 0 <= i < |s| ensures TidyAt(s, i) {
      assert i == 0 || i == 1 || i == 2 || i == 3 || i == 4 || i == 5;
      assert Alnum(s[i]);
    }
  }

  lemma NothingHyphenated()
    ensures Hyphenated("") == ""
  {
  }

  lemma SlugIsTidy(name: string)
    ensures var s := SlugOf(name); ValidSlug(s) && |s| <= MAX_SLUG && Tidy(s)
  {
    TrimmedIsJoined(name);
    var joined := Join(Words(name));
    var s := SlugOf(name);
    if s == "tunnel" {
      TunnelIsTidy();
    } else {
      assert s == joined[..|s|];
      TidyPrefix(joined, |s|);
    }
    TidyIsValid(s);
  }

  /** The joined words are the slug when they have at most 48 characters; longer ones are cut there, or one character
      before when a hyphen would be the last. */
  lemma SlugByLength(name: string)
    ensures var joined := Join(Words(name));
      SlugOf(name) == if joined == "" then "tunnel"
                      else if |joined| <= 48 then joined
                      else if joined[47] == '-' then joined[..47]
                      else joined[..48]
  {
    var joined := Join(Words(name));
    TrimmedIsJoined(name);
    if |joined| > 48 {
      assert TidyAt(joined, 47) && TidyAt(joined, 46) && TidyAt(joined, 0);
      var cut := joined[..48];
      if joined[47] == '-' {
        assert cut[..47] == joined[..47] && joined[..47][46] != '-';
      }
    }
  }

  /** A name without letters and digits has no words. */
  lemma {:induction false} WordsNeedLetters(s: string)
    ensures Words(s) == [] <==> forall c <- s :: !Alnum(c)
  {
    if s != "" {
      WordsNeedLetters(s[..|s| - 1]);
      assert s == s[..|s| - 1] + [s[|s| - 1]];
    }
  }

  /** The slugs are exactly the tidy labels of at most 48 characters, and making a slug of a slug keeps it. */
  lemma SlugsAreFixed(s: string)
    ensures SlugOf(s) == s <==> ValidSlug(s) && |s| <= 48 && Tidy(s)
  {
    if SlugOf(s) == s {
      SlugIsTidy(s);
    }
    if ValidSlug(s) && |s| <= MAX_SLUG && Tidy(s) {
      TidyIsHyphenated(s);
      assert TidyAt(s, |s| - 1);
    }
  }

  lemma SlugIsIdempotent(l: Letters.Letters, name: string)
    requires Letters.Ascii(l)
    ensures SlugFor(l, SlugFor(l, name)) == SlugFor(l, name)
  {
    var slug := SlugFor(l, name);
    SlugIsTidy(Letters.Fold(l, name));
    SlugsAreFixed(slug);
    SlugIsPlain(slug);
    Letters.PlainStays(l, slug);
  }

  lemma SlugIsPlain(slug: string)
    requires ValidSlug(slug)
    ensures Letters.Plain(slug)
  {
  }
}
