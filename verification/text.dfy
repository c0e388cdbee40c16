/** String operations the views perform on provider data and on the UI
    language code. Case mapping is modelled as ASCII case mapping. */
module Text {

  /** ASCII lower-casing of one character. */
  function LowerChar(c: char): char
  {
    if 'A' <= c <= 'Z' then (c as int + 32) as char else c
  }

  /** ASCII upper-casing of one character. */
  function UpperChar(c: char): char
  {
    if 'a' <= c <= 'z' then (c as int - 32) as char else c
  }

  /** `s.toLowerCase()`: every character lower-cased, in place. */
  function Lower(s: string): (r: string)
    ensures |r| == |s|
    ensures forall i :: 0 <= i < |s| ==> r[i] == LowerChar(s[i])
  {
    if s == [] then [] else [LowerChar(s[0])] + Lower(s[1..])
  }

  /** `s.toUpperCase()`: every character upper-cased, in place. */
  function Upper(s: string): (r: string)
    ensures |r| == |s|
    ensures forall i :: 0 <= i < |s| ==> r[i] == UpperChar(s[i])
  {
    if s == [] then [] else [UpperChar(s[0])] + Upper(s[1..])
  }

  /** Lower-casing forgets the case a string was written in: an upper-cased
      string and the string itself lower-case to the same text. */
  lemma LowerOfUpper(s: string)
    ensures Lower(Upper(s)) == Lower(s)
  {
  }

  /** `s.includes(t)`: `t` occurs in `s` as a contiguous block, checked by
      trying every start position from the left. */
  function Includes(s: string, t: string): (r: bool)
    ensures t == [] ==> r
  {
    if t <= s then true
    else if s == [] then false
    else Includes(s[1..], t)
  }

  /** The occurrence-at-some-offset meaning of `Includes`. */
  ghost predicate OccursAt(s: string, t: string, i: int)
  {
    0 <= i && i + |t| <= |s| && s[i..i + |t|] == t
  }

  /** `Includes` holds exactly when `t` occurs at some offset of `s`. */
  lemma {:induction false} IncludesIff(s: string, t: string)
    ensures Includes(s, t) <==> exists i :: OccursAt(s, t, i)
  {
    if t <= s {
      assert OccursAt(s, t, 0);
    } else if s == [] {
    } else {
      IncludesIff(s[1..], t);
      if exists i :: OccursAt(s[1..], t, i) {
        var i :| OccursAt(s[1..], t, i);
        assert s[i + 1..i + 1 + |t|] == s[1..][i..i + |t|];
        assert OccursAt(s, t, i + 1);
      }
      if exists i :: OccursAt(s, t, i) {
        var i :| OccursAt(s, t, i);
        assert |t| <= |s| && s[..|t|] == t ==> t <= s;
        assert s[1..][i - 1..i - 1 + |t|] == s[i..i + |t|];
        assert OccursAt(s[1..], t, i - 1);
      }
    }
  }

  /** `code.split('-')[0]`: the part of a language code before its first
      hyphen, the whole code when it has none. */
  function LangKey(code: string): (r: string)
    ensures r <= code
    ensures '-' !in r
    ensures |r| < |code| ==> code[|r|] == '-'
    ensures '-' !in code ==> r == code
  {
    if code == [] then []
    else if code[0] == '-' then []
    else [code[0]] + LangKey(code[1..])
  }

  /** A regional code `lang-REGION` selects the same key as `lang`. */
  lemma {:induction false} LangKeyOfRegional(lang: string, region: string)
    requires '-' !in lang
    ensures LangKey(lang + "-" + region) == lang
  {
    if lang != [] {
      assert (lang + "-" + region)[1..] == lang[1..] + "-" + region;
      LangKeyOfRegional(lang[1..], region);
    }
  }
}
