/** Trimming and lower-casing of text. What the library does with characters beyond ASCII is a parameter. */
module Letters {
  datatype Letters = Letters(lower: char -> char, space: char -> bool)

  function AsciiLower(c: char): char {
    if 'A' <= c <= 'Z' then (c as nat + 32) as char else c
  }

  ghost predicate Ascii(l: Letters) {
    forall c: char :: c as nat < 128 ==>
      && l.lower(c) == AsciiLower(c)
      && (l.space(c) <==> c == ' ' || '\t' <= c <= '\r')
  }

  ghost predicate Spaces(l: Letters, s: string) {
    forall i :: 0 <= i < |s| ==> l.space(s[i])
  }

  function TrimLeft(l: Letters, s: string): (r: string)
    ensures |r| <= |s| && r == s[|s| - |r|..] && Spaces(l, s[..|s| - |r|])
    ensures r != "" ==> !l.space(r[0])
  {
    if s != "" && l.space(s[0]) then
      var r := TrimLeft(l, s[1..]);
      assert s[..|s| - |r|] == [s[0]] + s[1..][..|s[1..]| - |r|];
      r
    else s
  }

  function TrimRight(l: Letters, s: string): (r: string)
    ensures |r| <= |s| && r == s[..|r|] && Spaces(l, s[|r|..])
    ensures r != "" ==> !l.space(r[|r| - 1])
  {
    if s != "" && l.space(s[|s| - 1]) then
      var r := TrimRight(l, s[..|s| - 1]);
      assert s[|r|..] == s[..|s| - 1][|r|..] + [s[|s| - 1]];
      r
    else s
  }

  function TrimSpace(l: Letters, s: string): string {
    TrimRight(l, TrimLeft(l, s))
  }

  function ToLower(l: Letters, s: string): (r: string)
    ensures |r| == |s| && forall i :: 0 <= i < |s| ==> r[i] == l.lower(s[i])
  {
    seq(|s|, i requires 0 <= i < |s| => l.lower(s[i]))
  }

  function Fold(l: Letters, s: string): string {
    ToLower(l, TrimSpace(l, s))
  }

  lemma {:induction false} TrimsLeft(l: Letters, left: string, text: string)
    requires Spaces(l, left) && text != "" && !l.space(text[0])
    ensures TrimLeft(l, left + text) == text
  {
    if left == "" {
      assert left + text == text;
    } else {
      assert (left + text)[1..] == left[1..] + text;
      TrimsLeft(l, left[1..], text);
    }
  }

  lemma {:induction false} TrimsRight(l: Letters, text: string, right: string)
    requires Spaces(l, right) && text != "" && !l.space(text[|text| - 1])
    ensures TrimRight(l, text + right) == text
  {
    if right == "" {
      assert text + right == text;
    } else {
      var s := text + right;
      assert s[..|s| - 1] == text + right[..|right| - 1];
      TrimsRight(l, text, right[..|right| - 1]);
    }
  }

  /** Exactly the spaces around a text are trimmed. */
  lemma TrimsSpacesAround(l: Letters, left: string, text: string, right: string)
    requires Spaces(l, left) && Spaces(l, right)
    requires text != "" && !l.space(text[0]) && !l.space(text[|text| - 1])
    ensures TrimSpace(l, left + text + right) == text
  {
    assert left + text + right == left + (text + right);
    TrimsLeft(l, left, text + right);
    TrimsRight(l, text, right);
  }

  /** Characters of domain names and labels. */
  predicate Plain(s: string) {
    forall i :: 0 <= i < |s| ==> 'a' <= s[i] <= 'z' || '0' <= s[i] <= '9' || s[i] == '-' || s[i] == '.'
  }

  lemma PlainStays(l: Letters, s: string)
    requires Ascii(l) && Plain(s)
    ensures TrimSpace(l, s) == s && ToLower(l, s) == s
  {
    forall i | 0 <= i < |s| ensures l.lower(s[i]) == s[i] && !l.space(s[i]) {
      assert s[i] as nat < 128;
    }
  }
}
