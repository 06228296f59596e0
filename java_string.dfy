/** The java.lang.String operations the backend relies on: isBlank, trim,
    ASCII case mapping, startsWith and split on a one-character-class regex. */
module JavaString {

  /** Character.isWhitespace: the characters String.isBlank skips. */
  predicate IsWhitespace(c: char) {
    || c == ' ' || c == '\t' || c == '\n' || c == '\U{B}' || c == '\U{C}' || c == '\r'
    || ('\U{1C}' <= c <= '\U{1F}')
    || c == '\U{1680}'
    || ('\U{2000}' <= c <= '\U{2006}') || ('\U{2008}' <= c <= '\U{200A}')
    || c == '\U{2028}' || c == '\U{2029}' || c == '\U{205F}' || c == '\U{3000}'
  }

  /** String.isBlank: empty or made of whitespace only. */
  predicate IsBlank(s: string) {
    forall i :: 0 <= i < |s| ==> IsWhitespace(s[i])
  }

  /** The characters String.trim removes from both ends: code points up to U+0020. */
  predicate IsTrimChar(c: char) {
    c <= ' '
  }

  /** Length of the run of trim characters at the start of s. */
  function LeadingTrim(s: string): (k: nat)
    ensures k <= |s|
    ensures forall i :: 0 <= i < k ==> IsTrimChar(s[i])
    ensures k < |s| ==> !IsTrimChar(s[k])
  {
    if s == [] || !IsTrimChar(s[0]) then 0 else 1 + LeadingTrim(s[1..])
  }

  /** Length of the run of trim characters at the end of s. */
  function TrailingTrim(s: string): (k: nat)
    ensures k <= |s|
    ensures forall i :: |s| - k <= i < |s| ==> IsTrimChar(s[i])
    ensures k < |s| ==> !IsTrimChar(s[|s| - 1 - k])
  {
    if s == [] || !IsTrimChar(s[|s| - 1]) then 0 else 1 + TrailingTrim(s[..|s| - 1])
  }

  /** String.trim. */
  function Trim(s: string): (r: string)
    ensures |r| <= |s|
    ensures r != [] ==> !IsTrimChar(r[0]) && !IsTrimChar(r[|r| - 1])
    ensures r == [] <==> forall i :: 0 <= i < |s| ==> IsTrimChar(s[i])
    ensures exists i, j ::
              && 0 <= i <= j <= |s| && r == s[i..j]
              && (forall k :: 0 <= k < i ==> IsTrimChar(s[k])) && (forall k :: j <= k < |s| ==> IsTrimChar(s[k]))
  {
    var lead := LeadingTrim(s);
    var rest := s[lead..];
    var end := lead + |rest| - TrailingTrim(rest);
    var r := rest[..|rest| - TrailingTrim(rest)];
    assert r != [] ==> r[0] == s[lead];
    assert r == s[lead..end];
    assert forall k :: end <= k < |s| ==> IsTrimChar(s[k]) by {
      forall k | end <= k < |s| ensures IsTrimChar(s[k]) {
        assert s[k] == rest[k - lead];
      }
    }
    r
  }

  /** Trimming twice removes nothing more than trimming once. */
  lemma TrimIdempotent(s: string)
    ensures Trim(Trim(s)) == Trim(s)
  {
    var t := Trim(s);
    if t != [] {
      assert LeadingTrim(t) == 0;
      assert TrailingTrim(t) == 0;
      assert t[0..] == t;
    }
  }

  /** Character.toUpperCase on the ASCII letters. */
  function ToUpperChar(c: char): (u: char)
    ensures 'a' <= c <= 'z' ==> 'A' <= u <= 'Z'
    ensures !('a' <= c <= 'z') ==> u == c
  {
    if 'a' <= c <= 'z' then (c as int - 32) as char else c
  }

  /** Character.toLowerCase on the ASCII letters. */
  function ToLowerChar(c: char): (l: char)
    ensures 'A' <= c <= 'Z' ==> 'a' <= l <= 'z'
    ensures !('A' <= c <= 'Z') ==> l == c
  {
    if 'A' <= c <= 'Z' then (c as int + 32) as char else c
  }

  /** String.toUpperCase, character by character. */
  function ToUpper(s: string): (r: string)
    ensures |r| == |s|
    ensures forall i :: 0 <= i < |s| ==> r[i] == ToUpperChar(s[i])
  {
    seq(|s|, i requires 0 <= i < |s| => ToUpperChar(s[i]))
  }

  /** String.toLowerCase, character by character. */
  function ToLower(s: string): (r: string)
    ensures |r| == |s|
    ensures forall i :: 0 <= i < |s| ==> r[i] == ToLowerChar(s[i])
  {
    seq(|s|, i requires 0 <= i < |s| => ToLowerChar(s[i]))
  }

  /** String.equalsIgnoreCase: same length and equal after upper-casing. */
  predicate EqualsIgnoreCase(a: string, b: string) {
    ToUpper(a) == ToUpper(b)
  }

  /** String.startsWith. */
  predicate StartsWith(s: string, prefix: string) {
    |prefix| <= |s| && s[..|prefix|] == prefix
  }

  /** The text of s before its first separator (all of s when it has none). */
  function BeforeFirst(s: string, seps: set<char>): (r: string)
    ensures |r| <= |s| && r == s[..|r|]
    ensures forall i :: 0 <= i < |r| ==> r[i] !in seps
    ensures |r| < |s| ==> s[|r|] in seps
  {
    if s == [] || s[0] in seps then [] else [s[0]] + BeforeFirst(s[1..], seps)
  }

  /** BeforeFirst is the first k characters when the first separator
      sits at k (or there is none and k is the length). */
  lemma {:induction false} BeforeFirstIs(s: string, seps: set<char>, k: nat)
    requires k <= |s| && (k < |s| ==> s[k] in seps)
    requires forall i :: 0 <= i < k ==> s[i] !in seps
    ensures BeforeFirst(s, seps) == s[..k]
    decreases k
  {
    if k > 0 {
      BeforeFirstIs(s[1..], seps, k - 1);
      assert s[..k] == [s[0]] + s[1..][..k - 1];
    }
  }

  predicate NoSeparator(s: string, seps: set<char>) {
    forall i :: 0 <= i < |s| ==> s[i] !in seps
  }

  predicate OnlySeparators(s: string, seps: set<char>) {
    forall i :: 0 <= i < |s| ==> s[i] in seps
  }

  /** The pieces between separators, trailing empty pieces included:
      n separators give n + 1 pieces. */
  function Pieces(s: string, seps: set<char>): (r: seq<string>)
    ensures |r| >= 1
    decreases |s|
  {
    if s == [] then [[]]
    else
      var rest := Pieces(s[1..], seps);
      if s[0] in seps then [[]] + rest else [[s[0]] + rest[0]] + rest[1..]
  }

  /** Removes the empty strings at the end of a list, as String.split does. */
  function DropTrailingEmpty(ps: seq<string>): (r: seq<string>)
    ensures |r| <= |ps| && r == ps[..|r|]
    ensures r != [] ==> r[|r| - 1] != []
    ensures forall i :: 0 <= i < |ps| && ps[i] != [] ==> i < |r|
    ensures r == [] <==> forall i :: 0 <= i < |ps| ==> ps[i] == []
  {
    if ps == [] || ps[|ps| - 1] != [] then ps else DropTrailingEmpty(ps[..|ps| - 1])
  }

  /** String.split(regex) with no limit, for a regex that is one character
      class: an input without a match is returned whole, otherwise the
      pieces with trailing empty strings dropped. */
  function Split(s: string, seps: set<char>): seq<string> {
    if NoSeparator(s, seps) then [s] else DropTrailingEmpty(Pieces(s, seps))
  }

  lemma {:induction false} PiecesHead(s: string, seps: set<char>)
    ensures Pieces(s, seps)[0] == BeforeFirst(s, seps)
    decreases |s|
  {
    if s != [] {
      PiecesHead(s[1..], seps);
    }
  }

  lemma {:induction false} PiecesWithoutSeparator(s: string, seps: set<char>)
    requires NoSeparator(s, seps)
    ensures Pieces(s, seps) == [s]
    decreases |s|
  {
    if s != [] {
      PiecesWithoutSeparator(s[1..], seps);
      assert [s[0]] + s[1..] == s;
    }
  }

  /** Every piece is empty exactly when s is made of separators only. */
  lemma {:induction false} PiecesAllEmpty(s: string, seps: set<char>)
    ensures (forall i :: 0 <= i < |Pieces(s, seps)| ==> Pieces(s, seps)[i] == []) <==> OnlySeparators(s, seps)
    decreases |s|
  {
    if s != [] {
      PiecesAllEmpty(s[1..], seps);
      var rest := Pieces(s[1..], seps);
      if s[0] in seps {
        assert Pieces(s, seps) == [[]] + rest;
        assert (forall i :: 0 <= i < |Pieces(s, seps)| ==> Pieces(s, seps)[i] == [])
           <==> (forall i :: 0 <= i < |rest| ==> rest[i] == []) by {
          forall i | 0 <= i < |rest| ensures Pieces(s, seps)[i + 1] == rest[i] { }
        }
        assert OnlySeparators(s, seps) <==> OnlySeparators(s[1..], seps) by {
          if OnlySeparators(s[1..], seps) {
            forall i | 0 <= i < |s| ensures s[i] in seps {
              if i > 0 { assert s[i] == s[1..][i - 1]; }
            }
          }
          if OnlySeparators(s, seps) {
            forall i | 0 <= i < |s| - 1 ensures s[1..][i] in seps {
              assert s[1..][i] == s[i + 1];
            }
          }
        }
      } else {
        assert Pieces(s, seps)[0] != [];
      }
    }
  }

  /** The pieces after the first one are the pieces of the text after
      the first separator. */
  lemma {:induction false} PiecesAfterFirst(s: string, seps: set<char>)
    requires |BeforeFirst(s, seps)| < |s|
    ensures |Pieces(s, seps)| >= 2
    ensures Pieces(s, seps)[1..] == Pieces(s[|BeforeFirst(s, seps)| + 1..], seps)
    decreases |s|
  {
    if s[0] !in seps {
      PiecesAfterFirst(s[1..], seps);
      assert s[|BeforeFirst(s, seps)| + 1..] == s[1..][|BeforeFirst(s[1..], seps)| + 1..];
    }
  }

  /** What String.split returns: the empty array exactly for a non-empty
      input made only of separators; otherwise its first element is the
      text before the first separator, and every element is the piece at
      the same position. */
  lemma SplitSpec(s: string, seps: set<char>)
    ensures Split(s, seps) == [] <==> (|s| > 0 && OnlySeparators(s, seps))
    ensures Split(s, seps) != [] ==> Split(s, seps)[0] == BeforeFirst(s, seps)
    ensures |Split(s, seps)| <= |Pieces(s, seps)|
    ensures forall i :: 0 <= i < |Split(s, seps)| ==> Split(s, seps)[i] == Pieces(s, seps)[i]
    ensures forall i :: 0 <= i < |Pieces(s, seps)| && Pieces(s, seps)[i] != [] ==> i < |Split(s, seps)|
  {
    var ps := Pieces(s, seps);
    PiecesHead(s, seps);
    PiecesAllEmpty(s, seps);
    if NoSeparator(s, seps) {
      PiecesWithoutSeparator(s, seps);
      if |s| > 0 { assert s[0] !in seps; }
    } else {
      var r := DropTrailingEmpty(ps);
      if r != [] {
        assert r[0] == ps[0];
      }
    }
  }

  /** The decimal digit of d. */
  function DigitChar(d: nat): (c: char)
    requires d < 10
    ensures '0' <= c <= '9' && c as int - '0' as int == d
  {
    ('0' as int + d) as char
  }

  predicate IsDigits(s: string) {
    forall i :: 0 <= i < |s| ==> '0' <= s[i] <= '9'
  }

  /** The number a string of decimal digits denotes. */
  function DigitsValue(s: string): nat
    requires IsDigits(s)
  {
    if s == [] then 0 else DigitsValue(s[..|s| - 1]) * 10 + (s[|s| - 1] as int - '0' as int)
  }

  /** Long.toString (and a JavaScript template literal) on a non-negative
      integer: its decimal digits, with no leading zero. */
  function NatToString(n: nat): (r: string)
    ensures |r| >= 1 && IsDigits(r)
    ensures r[0] == '0' ==> r == "0"
    decreases n
  {
    if n < 10 then [DigitChar(n)] else NatToString(n / 10) + [DigitChar(n % 10)]
  }

  /** Reading the digits back gives the number: the rendering loses nothing. */
  lemma {:induction false} NatToStringRoundTrip(n: nat)
    ensures DigitsValue(NatToString(n)) == n
    decreases n
  {
    if n >= 10 {
      NatToStringRoundTrip(n / 10);
      var r := NatToString(n);
      assert r[..|r| - 1] == NatToString(n / 10);
    }
  }

  /** Distinct numbers render differently. */
  lemma NatToStringInjective(m: nat, n: nat)
    requires NatToString(m) == NatToString(n)
    ensures m == n
  {
    NatToStringRoundTrip(m);
    NatToStringRoundTrip(n);
  }

  /** Long.toString: a minus sign before the digits of a negative value. */
  function IntToString(n: int): (r: string)
    ensures |r| >= 1 && (r[0] == '-' <==> n < 0)
  {
    if n < 0 then "-" + NatToString(-n) else NatToString(n)
  }

  /** Distinct longs render differently. */
  lemma IntToStringInjective(m: int, n: int)
    requires IntToString(m) == IntToString(n)
    ensures m == n
  {
    if m < 0 {
      assert NatToString(-m) == IntToString(m)[1..] == IntToString(n)[1..] == NatToString(-n);
      NatToStringInjective(-m, -n);
    } else {
      NatToStringInjective(m, n);
    }
  }
}
