/** The slug derivation of the admin routes: lower-case the name, decompose
    it (NFD), drop the combining diacritical marks U+0300..U+036F, turn every
    run of characters outside [a-z0-9] into one `-`, and drop one leading and
    one trailing `-`. Products append `-` and the creation time in base 36. */
module Slug {
  import opened Text

  predicate IsSlugChar(c: char) {
    'a' <= c <= 'z' || '0' <= c <= '9'
  }

  predicate NoDoubleDash(s: string) {
    forall i :: 0 <= i && i + 1 < |s| ==> !(s[i] == '-' && s[i + 1] == '-')
  }

  /** Every character is in [a-z0-9] or `-`. */
  predicate SlugAlphabet(s: string) {
    forall i :: 0 <= i < |s| ==> IsSlugChar(s[i]) || s[i] == '-'
  }

  /** The shape of a slug: [a-z0-9] with single `-` separators, no `-` at
      either end. */
  predicate IsSlug(s: string) {
    && SlugAlphabet(s)
    && NoDoubleDash(s)
    && (|s| > 0 ==> s[0] != '-' && s[|s| - 1] != '-')
  }

  /** `toLowerCase` on Latin-1: A-Z and U+00C0..U+00DE except U+00D7. */
  function LowerLatin1(c: char): char {
    if 'A' <= c <= 'Z' || (0xC0 <= c as int <= 0xDE && c as int != 0xD7)
    then (c as int + 32) as char
    else c
  }

  /** The base letter that NFD leaves once its combining marks are removed,
      for the decomposable lower-case Latin-1 letters; others are unchanged. */
  function BaseLetter(c: char): char {
    var n := c as int;
    if 0xE0 <= n <= 0xE5 then 'a'
    else if n == 0xE7 then 'c'
    else if 0xE8 <= n <= 0xEB then 'e'
    else if 0xEC <= n <= 0xEF then 'i'
    else if n == 0xF1 then 'n'
    else if 0xF2 <= n <= 0xF6 then 'o'
    else if 0xF9 <= n <= 0xFC then 'u'
    else if n == 0xFD || n == 0xFF then 'y'
    else c
  }

  predicate IsCombiningMark(c: char) {
    0x300 <= c as int <= 0x36F
  }

  /** `toLowerCase().normalize('NFD').replace(/[\u0300-\u036f]/g, '')`. */
  function Normalize(s: string): (r: string)
    ensures |r| <= |s|
  {
    if s == [] then []
    else
      var l := LowerLatin1(s[0]);
      (if IsCombiningMark(l) then [] else [BaseLetter(l)]) + Normalize(s[1..])
  }

  /** Drops the leading run of characters outside [a-z0-9]. */
  function SkipSeparators(s: string): (r: string)
    ensures |r| <= |s|
    ensures |r| > 0 ==> IsSlugChar(r[0])
  {
    if s != [] && !IsSlugChar(s[0]) then SkipSeparators(s[1..]) else s
  }

  /** What is left after skipping is a suffix of the input. */
  lemma {:induction false} SkipSeparatorsSuffix(s: string)
    ensures SkipSeparators(s) == s[|s| - |SkipSeparators(s)|..]
  {
    if s != [] && !IsSlugChar(s[0]) {
      var r := SkipSeparators(s[1..]);
      SkipSeparatorsSuffix(s[1..]);
      assert s[1..][|s| - 1 - |r|..] == s[|s| - |r|..];
    }
  }

  /** The [a-z0-9] characters of a string, in order. */
  function Alnum(s: string): string {
    if s == [] then [] else (if IsSlugChar(s[0]) then [s[0]] else []) + Alnum(s[1..])
  }

  lemma {:induction false} AlnumAppend(a: string, b: string)
    ensures Alnum(a + b) == Alnum(a) + Alnum(b)
  {
    if a == [] {
      assert a + b == b;
    } else {
      var ab := a + b;
      var h := if IsSlugChar(a[0]) then [a[0]] else [];
      assert ab[0] == a[0];
      assert ab[1..] == a[1..] + b;
      assert Alnum(ab) == h + Alnum(a[1..] + b);
      assert Alnum(a) == h + Alnum(a[1..]);
      AlnumAppend(a[1..], b);
    }
  }

  lemma {:induction false} SkipSeparatorsAlnum(s: string)
    ensures Alnum(SkipSeparators(s)) == Alnum(s)
  {
    if s != [] && !IsSlugChar(s[0]) {
      SkipSeparatorsAlnum(s[1..]);
    }
  }

  /** `replace(/[^a-z0-9]+/g, '-')`: the letters and digits stay, in order,
      and each run of other characters becomes a single `-`. */
  function Collapse(s: string): (r: string)
    ensures |r| == 0 <==> |s| == 0
    decreases |s|
  {
    if s == [] then []
    else if IsSlugChar(s[0]) then [s[0]] + Collapse(s[1..])
    else "-" + Collapse(SkipSeparators(s[1..]))
  }

  /** The collapsed string starts with a dash exactly when the input starts
      with a separator. */
  lemma {:induction false} CollapseFirst(s: string)
    ensures |Collapse(s)| > 0 ==> (Collapse(s)[0] == '-' <==> !IsSlugChar(s[0]))
  {
    if s != [] && IsSlugChar(s[0]) {
      assert Collapse(s)[0] == s[0];
    }
  }

  /** Putting a slug character, or a dash before a non-dash, in front keeps
      the slug alphabet and the absence of double dashes. */
  lemma {:induction false} ShapeCons(c: char, q: string)
    requires SlugAlphabet(q) && NoDoubleDash(q)
    requires IsSlugChar(c) || (c == '-' && (q == [] || q[0] != '-'))
    ensures SlugAlphabet([c] + q) && NoDoubleDash([c] + q)
  {
    var r := [c] + q;
    forall i | 1 <= i < |r| ensures r[i] == q[i - 1] {}
  }

  /** The collapsed string uses only slug characters and never has two dashes
      in a row. */
  lemma {:induction false} CollapseShape(s: string)
    ensures SlugAlphabet(Collapse(s)) && NoDoubleDash(Collapse(s))
    decreases |s|
  {
    if s != [] {
      if IsSlugChar(s[0]) {
        CollapseShape(s[1..]);
        ShapeCons(s[0], Collapse(s[1..]));
      } else {
        var t := SkipSeparators(s[1..]);
        CollapseShape(t);
        CollapseFirst(t);
        ShapeCons('-', Collapse(t));
        assert "-" + Collapse(t) == ['-'] + Collapse(t);
      }
    }
  }

  /** Collapsing keeps the letters and digits, in order. */
  lemma {:induction false} CollapseAlnum(s: string)
    ensures Alnum(Collapse(s)) == Alnum(s)
    decreases |s|
  {
    if s != [] {
      if IsSlugChar(s[0]) {
        CollapseAlnum(s[1..]);
        AlnumAppend([s[0]], Collapse(s[1..]));
        assert s == [s[0]] + s[1..];
        AlnumAppend([s[0]], s[1..]);
      } else {
        var t := SkipSeparators(s[1..]);
        CollapseAlnum(t);
        AlnumAppend("-", Collapse(t));
        SkipSeparatorsAlnum(s[1..]);
        assert s == [s[0]] + s[1..];
        AlnumAppend([s[0]], s[1..]);
      }
    }
  }

  /** A non-empty run of [a-z0-9] characters. */
  predicate IsWord(w: string) {
    |w| > 0 && forall k :: 0 <= k < |w| ==> IsSlugChar(w[k])
  }

  /** The longest prefix of [a-z0-9] characters. */
  function Run(s: string): (w: string)
    ensures |w| <= |s| && w == s[..|w|]
    ensures forall k :: 0 <= k < |w| ==> IsSlugChar(w[k])
    ensures |w| < |s| ==> !IsSlugChar(s[|w|])
  {
    if s != [] && IsSlugChar(s[0]) then [s[0]] + Run(s[1..]) else []
  }

  predicate AllWords(ws: seq<string>) {
    forall i :: 0 <= i < |ws| ==> IsWord(ws[i])
  }

  lemma {:induction false} AllWordsCons(w: string, ws: seq<string>)
    requires IsWord(w) && AllWords(ws)
    ensures AllWords([w] + ws)
  {
    var v := [w] + ws;
    forall i | 0 <= i < |v| ensures IsWord(v[i]) {
      if i > 0 { assert v[i] == ws[i - 1]; }
    }
  }

  /** The maximal runs of [a-z0-9] characters of `s`, in order. */
  function Words(s: string): (ws: seq<string>)
    ensures AllWords(ws)
    ensures ws == [] <==> SkipSeparators(s) == []
    decreases |s|
  {
    var t := SkipSeparators(s);
    if t == [] then []
    else
      var w := Run(t);
      assert IsWord(w);
      var rest := Words(t[|w|..]);
      AllWordsCons(w, rest);
      [w] + rest
  }

  /** Words joined by single dashes; no words give the empty string. */
  function Dashed(ws: seq<string>): (r: string)
    requires AllWords(ws)
    ensures ws == [] <==> r == []
    ensures r != [] ==> IsSlugChar(r[0]) && IsSlugChar(r[|r| - 1])
  {
    if ws == [] then [] else DashedEnds(ws); Join(ws, '-')
  }

  lemma {:induction false} DashedEnds(ws: seq<string>)
    requires |ws| >= 1 && AllWords(ws)
    ensures var r := Join(ws, '-');
      |r| > 0 && IsSlugChar(r[0]) && IsSlugChar(r[|r| - 1])
  {
    if |ws| > 1 {
      assert AllWords(ws[1..]) by {
        forall i | 0 <= i < |ws| - 1 ensures IsWord(ws[1..][i]) {
          assert ws[1..][i] == ws[i + 1];
        }
      }
      DashedEnds(ws[1..]);
      var r := Join(ws, '-');
      var tail := Join(ws[1..], '-');
      assert r == ws[0] + ['-'] + tail;
      assert r[0] == ws[0][0];
      assert r[|r| - 1] == tail[|tail| - 1];
    }
  }

  predicate EndsWithSeparator(s: string) {
    |s| > 0 && !IsSlugChar(s[|s| - 1])
  }

  /** Input that is all separators ends in one. */
  lemma {:induction false} AllSeparators(s: string)
    requires s != [] && SkipSeparators(s) == []
    ensures EndsWithSeparator(s)
  {
    if |s| > 1 {
      AllSeparators(s[1..]);
      assert s[1..][|s| - 2] == s[|s| - 1];
    }
  }

  /** A leading run of [a-z0-9] characters passes through unchanged. */
  lemma {:induction false} CollapsePrefix(p: string, q: string)
    requires forall k :: 0 <= k < |p| ==> IsSlugChar(p[k])
    ensures Collapse(p + q) == p + Collapse(q)
  {
    if p == [] {
      assert p + q == q;
    } else {
      var pq := p + q;
      assert pq[0] == p[0];
      assert pq[1..] == p[1..] + q;
      assert Collapse(pq) == [p[0]] + Collapse(p[1..] + q);
      CollapsePrefix(p[1..], q);
      assert p == [p[0]] + p[1..];
    }
  }

  /** One word in front of further words adds the word and a dash. */
  lemma {:induction false} DashedCons(w: string, ws: seq<string>)
    requires IsWord(w) && ws != [] && AllWords(ws)
    ensures AllWords([w] + ws)
    ensures Dashed([w] + ws) == w + "-" + Dashed(ws)
  {
    AllWordsCons(w, ws);
    var v := [w] + ws;
    assert v[0] == w && v[1..] == ws;
  }

  /** The words of a string are those left once its leading separators are
      skipped. */
  lemma {:induction false} WordsSkip(s: string)
    ensures Words(SkipSeparators(s)) == Words(s)
  {
    var t := SkipSeparators(s);
    assert |t| > 0 ==> IsSlugChar(t[0]);
    assert SkipSeparators(t) == t;
  }

  /** A string starting with a word: that word, then the words of the rest. */
  lemma {:induction false} WordsStep(t: string)
    requires t != [] && IsSlugChar(t[0])
    ensures Words(t) == [Run(t)] + Words(t[|Run(t)|..])
  {
    assert SkipSeparators(t) == t;
  }

  /** A leading separator run collapses to one dash. */
  lemma {:induction false} CollapseSkip(s: string)
    requires s != [] && !IsSlugChar(s[0])
    ensures Collapse(s) == "-" + Collapse(SkipSeparators(s))
  {
    assert SkipSeparators(s) == SkipSeparators(s[1..]);
  }

  /** A suffix that is not empty has the same last character. */
  lemma {:induction false} EndsWithSuffix(s: string, i: nat)
    requires i < |s|
    ensures EndsWithSeparator(s[i..]) == EndsWithSeparator(s)
  {
    assert s[i..][|s| - i - 1] == s[|s| - 1];
  }

  lemma {:induction false} ConcatAssoc(a: string, b: string, c: string, d: string)
    ensures a + (b + (c + d)) == (a + b + c) + d
  {
  }

  /** The first word of `t` splits off both the collapse and the words. */
  lemma {:induction false} FirstWord(t: string)
    requires t != [] && IsSlugChar(t[0])
    ensures var w := Run(t);
      && IsWord(w)
      && Dashed([w]) == w
      && Collapse(t) == w + Collapse(t[|w|..])
      && Words(t) == [w] + Words(t[|w|..])
  {
    var w := Run(t);
    assert t == w + t[|w|..];
    CollapsePrefix(w, t[|w|..]);
    WordsStep(t);
  }

  /** `CollapseWords` when the first word runs to the end. */
  lemma {:induction false} LastWord(t: string)
    requires t != [] && IsSlugChar(t[0]) && |Run(t)| == |t|
    ensures Collapse(t) == Dashed(Words(t))
    ensures !EndsWithSeparator(t)
  {
    FirstWord(t);
    var w := Run(t);
    assert t[|t| - 1] == w[|w| - 1];
    assert t[|w|..] == [];
  }

  /** What follows the first word: a dash, then the collapse and the words
      of the rest once its separators are skipped; that rest ends like `t`,
      and when nothing is left `t` ends in a separator. */
  lemma {:induction false} AfterFirstWord(t: string)
    requires t != [] && IsSlugChar(t[0]) && |Run(t)| < |t|
    ensures var w := Run(t);
      var t' := SkipSeparators(t[|w|..]);
      && IsWord(w)
      && Dashed([w]) == w
      && Collapse(t) == w + ("-" + Collapse(t'))
      && Words(t) == [w] + Words(t')
      && (t' != [] ==> EndsWithSeparator(t') == EndsWithSeparator(t))
      && (t' == [] ==> EndsWithSeparator(t))
  {
    FirstWord(t);
    var w := Run(t);
    var rest := t[|w|..];
    var t' := SkipSeparators(rest);
    CollapseSkip(rest);
    WordsSkip(rest);
    EndsWithSuffix(t, |w|);
    if t' == [] {
      AllSeparators(rest);
    } else {
      SkipSeparatorsSuffix(rest);
      EndsWithSuffix(rest, |rest| - |t'|);
    }
  }

  /** `CollapseWords` when only separators follow the first word. */
  lemma {:induction false} TrailingSeparators(t: string)
    requires t != [] && IsSlugChar(t[0]) && |Run(t)| < |t|
    requires SkipSeparators(t[|Run(t)|..]) == []
    ensures Collapse(t) == Dashed(Words(t)) + "-"
    ensures EndsWithSeparator(t)
  {
    AfterFirstWord(t);
    assert Words(t) == [Run(t)];
  }

  /** `CollapseWords` when more words follow, given it for the next one. */
  lemma {:induction false} MoreWords(t: string, t': string)
    requires t != [] && IsSlugChar(t[0]) && |Run(t)| < |t|
    requires t' == SkipSeparators(t[|Run(t)|..]) && t' != []
    requires Collapse(t') == Dashed(Words(t')) + (if EndsWithSeparator(t') then "-" else "")
    ensures Collapse(t) == Dashed(Words(t)) + (if EndsWithSeparator(t) then "-" else "")
  {
    AfterFirstWord(t);
    var w := Run(t);
    var d := Dashed(Words(t'));
    var tl := if EndsWithSeparator(t) then "-" else "";
    DashedCons(w, Words(t'));
    ConcatAssoc(w, "-", d, tl);
  }

  /** From a word boundary, collapsing gives the words joined by dashes,
      plus one dash when the input ends in separators. */
  lemma {:induction false} CollapseWords(t: string)
    requires t == [] || IsSlugChar(t[0])
    ensures Collapse(t) == Dashed(Words(t)) + (if EndsWithSeparator(t) then "-" else "")
    decreases |t|
  {
    if t != [] {
      if |Run(t)| == |t| {
        LastWord(t);
      } else {
        var t' := SkipSeparators(t[|Run(t)|..]);
        if t' == [] {
          TrailingSeparators(t);
        } else {
          CollapseWords(t');
          MoreWords(t, t');
        }
      }
    }
  }

  /** Trimming an optional dash from each side of a string that has no dash
      at either end gives that string back. */
  lemma {:induction false} TrimShape(lead: string, j: string, tail: string)
    requires lead == "" || lead == "-"
    requires tail == "" || tail == "-"
    requires j == [] ==> tail == ""
    requires j != [] ==> j[0] != '-' && j[|j| - 1] != '-'
    ensures Trim(lead + (j + tail)) == j
  {
    var c := lead + (j + tail);
    if j != [] {
      var a := if |c| > 0 && c[0] == '-' then c[1..] else c;
      assert a == j + tail;
      if tail == "-" {
        assert a[..|a| - 1] == j;
      }
    }
  }

  /** Collapsing then trimming leaves exactly the words joined by dashes. */
  lemma {:induction false} TrimCollapse(s: string)
    ensures Trim(Collapse(s)) == Dashed(Words(s))
  {
    var t := SkipSeparators(s);
    WordsSkip(s);
    CollapseWords(t);
    var j := Dashed(Words(t));
    var tail := if EndsWithSeparator(t) then "-" else "";
    var lead := if s != [] && !IsSlugChar(s[0]) then "-" else "";
    if s != [] && !IsSlugChar(s[0]) {
      CollapseSkip(s);
    }
    assert Collapse(s) == lead + (j + tail);
    assert j == [] ==> t == [];
    TrimShape(lead, j, tail);
  }

  /** `replace(/(^-|-$)/g, '')`: one leading and one trailing `-`. */
  function Trim(s: string): string {
    var a := if |s| > 0 && s[0] == '-' then s[1..] else s;
    if |a| > 0 && a[|a| - 1] == '-' then a[..|a| - 1] else a
  }

  /** The slug of a category name (src/routes/admin.ts line 64). */
  function Slug(nombre: string): (r: string)
    ensures IsSlug(r)
    ensures Alnum(r) == Alnum(Normalize(nombre))
  {
    var c := Collapse(Normalize(nombre));
    CollapseShape(Normalize(nombre));
    TrimIsSlug(c);
    CollapseAlnum(Normalize(nombre));
    TrimAlnum(c);
    Trim(c)
  }

  /** The slug is the maximal [a-z0-9] runs of the normalised name, in
      order, joined by single dashes. */
  lemma {:induction false} SlugIsDashedWords(nombre: string)
    ensures Slug(nombre) == Dashed(Words(Normalize(nombre)))
  {
    TrimCollapse(Normalize(nombre));
  }

  /** Trimming a string of slug characters without double dashes gives a
      slug. */
  lemma {:induction false} TrimIsSlug(c: string)
    requires SlugAlphabet(c) && NoDoubleDash(c)
    ensures IsSlug(Trim(c))
  {
    var a := if |c| > 0 && c[0] == '-' then c[1..] else c;
    assert NoDoubleDash(a) && SlugAlphabet(a);
    assert |a| > 0 ==> a[0] != '-';
  }

  /** Trimming removes dashes only. */
  lemma TrimAlnum(s: string)
    ensures Alnum(Trim(s)) == Alnum(s)
  {
    var a := if |s| > 0 && s[0] == '-' then s[1..] else s;
    if |s| > 0 && s[0] == '-' {
      AlnumAppend(s[..1], a);
      assert s == s[..1] + a;
    }
    if |a| > 0 && a[|a| - 1] == '-' {
      AlnumAppend(a[..|a| - 1], a[|a| - 1..]);
      assert a == a[..|a| - 1] + a[|a| - 1..];
    }
  }

  /** On an ASCII name the slug keeps exactly the name's letters, lower-cased,
      and its digits, in order. */
  lemma SlugKeepsLetters(nombre: string)
    requires forall i :: 0 <= i < |nombre| ==> nombre[i] as int < 128
    ensures Alnum(Slug(nombre)) == Alnum(Lower(nombre))
  {
    NormalizeAscii(nombre);
  }

  /** The slug of a product name created at millisecond `ahora`
      (src/routes/admin.ts line 120). */
  function ProductSlug(nombre: string, ahora: nat): string {
    Slug(nombre) + "-" + ToBase36(ahora)
  }

  lemma {:induction false} NormalizeSlugAlphabet(s: string)
    requires SlugAlphabet(s)
    ensures Normalize(s) == s
  {
    if s != [] {
      NormalizeSlugAlphabet(s[1..]);
    }
  }

  lemma {:induction false} CollapseFixedPoint(s: string)
    requires SlugAlphabet(s) && NoDoubleDash(s)
    ensures Collapse(s) == s
    decreases |s|
  {
    if s != [] {
      CollapseFixedPoint(s[1..]);
      if !IsSlugChar(s[0]) {
        assert |s| > 1 ==> IsSlugChar(s[1]);
        assert SkipSeparators(s[1..]) == s[1..];
      }
    }
  }

  /** A string is its own slug exactly when it already has the slug shape. */
  lemma SlugFixedPoint(s: string)
    ensures Slug(s) == s <==> IsSlug(s)
  {
    if IsSlug(s) {
      NormalizeSlugAlphabet(s);
      CollapseFixedPoint(s);
    }
  }

  /** Deriving a slug from a slug changes nothing. */
  lemma SlugIdempotent(s: string)
    ensures Slug(Slug(s)) == Slug(s)
  {
    SlugFixedPoint(Slug(s));
  }

  /** On ASCII input the normalisation step is plain lower-casing. */
  lemma {:induction false} NormalizeAscii(s: string)
    requires forall i :: 0 <= i < |s| ==> s[i] as int < 128
    ensures Normalize(s) == Lower(s)
  {
    if s != [] {
      NormalizeAscii(s[1..]);
    }
  }

  /** A product slug is the name's slug, a `-`, and the creation time in
      base 36, which reads back as that time. When the name has a non-empty
      slug, the product slug has the slug shape itself; when it has none,
      the product slug starts with `-`. */
  lemma ProductSlugParts(nombre: string, ahora: nat)
    ensures var p := ProductSlug(nombre, ahora);
      var n := |Slug(nombre)|;
      && p[..n] == Slug(nombre)
      && p[n] == '-'
      && (forall i :: n + 1 <= i < |p| ==> IsBase36Digit(p[i]))
      && FromBase36(p[n + 1..]) == ahora
    ensures Slug(nombre) != "" ==> IsSlug(ProductSlug(nombre, ahora))
    ensures Slug(nombre) == "" ==> ProductSlug(nombre, ahora)[0] == '-'
  {
    var p := ProductSlug(nombre, ahora);
    var n := |Slug(nombre)|;
    assert p[n + 1..] == ToBase36(ahora);
    Base36RoundTrip(ahora);
  }
}
