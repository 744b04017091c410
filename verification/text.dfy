/** String helpers the handlers rely on: ASCII case folding, substring search,
    JavaScript's `split(' ')`, and `Number.prototype.toString(36)`. */
module Text {

  function LowerChar(c: char): char {
    if 'A' <= c <= 'Z' then (c as int + 32) as char else c
  }

  /** ASCII `toLowerCase`. */
  function Lower(s: string): (r: string)
    ensures |r| == |s|
    ensures forall i :: 0 <= i < |s| ==> r[i] == LowerChar(s[i])
  {
    if s == [] then [] else [LowerChar(s[0])] + Lower(s[1..])
  }

  predicate StartsWith(s: string, prefix: string) {
    |prefix| <= |s| && s[..|prefix|] == prefix
  }

  /** Substring search, scanning left to right. */
  predicate Contains(s: string, sub: string)
    decreases |s|
  {
    StartsWith(s, sub) || (|s| > 0 && Contains(s[1..], sub))
  }

  /** `sub` occurs in `s` at position `i`. */
  predicate OccursAt(s: string, sub: string, i: int) {
    0 <= i && i + |sub| <= |s| && s[i..i + |sub|] == sub
  }

  /** The scan finds `sub` exactly when it occurs at some position. */
  lemma {:induction false} ContainsIff(s: string, sub: string)
    ensures Contains(s, sub) <==> exists i :: OccursAt(s, sub, i)
    decreases |s|
  {
    if StartsWith(s, sub) {
      assert OccursAt(s, sub, 0);
    } else if |s| == 0 {
      assert forall i :: !OccursAt(s, sub, i);
    } else {
      ContainsIff(s[1..], sub);
      if exists i :: OccursAt(s[1..], sub, i) {
        var i :| OccursAt(s[1..], sub, i);
        assert s[i + 1..i + 1 + |sub|] == s[1..][i..i + |sub|];
        assert OccursAt(s, sub, i + 1);
      }
      if exists i :: OccursAt(s, sub, i) {
        var i :| OccursAt(s, sub, i);
        assert i != 0;
        assert s[1..][i - 1..i - 1 + |sub|] == s[i..i + |sub|];
        assert OccursAt(s[1..], sub, i - 1);
      }
    }
  }

  /** Case-insensitive substring search. */
  predicate ContainsInsensitive(s: string, sub: string) {
    Contains(Lower(s), Lower(sub))
  }

  /** Position of the first `c` in `s`. */
  function IndexOf(s: string, c: char): (r: nat)
    requires c in s
    ensures r < |s| && s[r] == c && c !in s[..r]
  {
    if s[0] == c then 0
    else
      assert s == [s[0]] + s[1..];
      var k := IndexOf(s[1..], c);
      assert s[..k + 1] == [s[0]] + s[1..][..k];
      k + 1
  }

  /** JavaScript `s.split(sep)` for a one-character separator: the pieces
      between consecutive separators, always at least one. */
  function Split(s: string, sep: char): (r: seq<string>)
    ensures |r| >= 1
    ensures forall k :: 0 <= k < |r| ==> sep !in r[k]
    decreases |s|
  {
    if sep !in s then [s]
    else
      var i := IndexOf(s, sep);
      [s[..i]] + Split(s[i + 1..], sep)
  }

  /** `pieces.join(sep)`. */
  function Join(pieces: seq<string>, sep: char): string
    requires |pieces| >= 1
  {
    if |pieces| == 1 then pieces[0]
    else pieces[0] + [sep] + Join(pieces[1..], sep)
  }

  /** Splitting and joining back on the same separator is the identity. */
  lemma {:induction false} JoinSplit(s: string, sep: char)
    ensures Join(Split(s, sep), sep) == s
    decreases |s|
  {
    if sep in s {
      var i := IndexOf(s, sep);
      JoinSplit(s[i + 1..], sep);
      var rest := Split(s[i + 1..], sep);
      assert Split(s, sep) == [s[..i]] + rest;
      assert Split(s, sep)[1..] == rest;
      assert s == s[..i] + [sep] + s[i + 1..];
    }
  }

  /** The first piece of a split is the longest separator-free prefix. */
  lemma SplitHead(s: string, sep: char)
    ensures var h := Split(s, sep)[0];
      && |h| <= |s| && s[..|h|] == h
      && (|h| == |s| || s[|h|] == sep)
  {
    if sep in s {
      var i := IndexOf(s, sep);
      assert Split(s, sep)[0] == s[..i];
    }
  }

  predicate IsBase36Digit(c: char) {
    '0' <= c <= '9' || 'a' <= c <= 'z'
  }

  function Digit36(d: nat): (c: char)
    requires d < 36
    ensures IsBase36Digit(c)
  {
    if d < 10 then ('0' as int + d) as char else ('a' as int + d - 10) as char
  }

  function DigitValue(c: char): nat
    requires IsBase36Digit(c)
  {
    if c <= '9' then c as int - '0' as int else c as int - 'a' as int + 10
  }

  /** `n.toString(36)` for a non-negative integer: most significant digit
      first, lower-case letters, no leading zero. */
  function ToBase36(n: nat): (r: string)
    ensures |r| >= 1
    ensures forall i :: 0 <= i < |r| ==> IsBase36Digit(r[i])
    ensures n > 0 ==> r[0] != '0'
  {
    if n < 36 then [Digit36(n)] else ToBase36(n / 36) + [Digit36(n % 36)]
  }

  /** `parseInt(s, 36)` for a string of base-36 digits. */
  function FromBase36(s: string): nat
    requires forall i :: 0 <= i < |s| ==> IsBase36Digit(s[i])
  {
    if s == [] then 0
    else FromBase36(s[..|s| - 1]) * 36 + DigitValue(s[|s| - 1])
  }

  /** Reading back the base-36 rendering yields the number. */
  lemma {:induction false} Base36RoundTrip(n: nat)
    ensures FromBase36(ToBase36(n)) == n
  {
    var r := ToBase36(n);
    if n < 36 {
      assert r[..0] == [];
    } else {
      Base36RoundTrip(n / 36);
      assert r[..|r| - 1] == ToBase36(n / 36);
    }
  }
}
