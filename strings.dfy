/**
 * The JavaScript string built-ins the model needs: number-to-text conversion
 * in template literals, `Array.prototype.join`, `String.prototype.trimEnd`,
 * and a substring test used to state what a composed text mentions.
 */
module Strings {

  /** `t` occurs in `s` starting at position `k`. */
  predicate OccursAt(s: string, t: string, k: nat) {
    k + |t| <= |s| && s[k..k + |t|] == t
  }

  /** `s.includes(t)`. */
  predicate Contains(s: string, t: string) {
    exists k: nat | k <= |s| :: OccursAt(s, t, k)
  }

  lemma ContainsMiddle(a: string, t: string, b: string)
    ensures Contains(a + t + b, t)
  {
    assert OccursAt(a + t + b, t, |a|);
  }

  lemma ContainsLeft(a: string, b: string, t: string)
    requires Contains(a, t)
    ensures Contains(a + b, t)
  {
    var k: nat :| k <= |a| && OccursAt(a, t, k);
    assert k + |t| <= |a|;
    assert (a + b)[k..k + |t|] == a[k..k + |t|];
    assert OccursAt(a + b, t, k);
  }

  lemma ContainsRight(a: string, b: string, t: string)
    requires Contains(b, t)
    ensures Contains(a + b, t)
  {
    var k: nat :| k <= |b| && OccursAt(b, t, k);
    assert k + |t| <= |b|;
    assert (a + b)[|a| + k..|a| + k + |t|] == b[k..k + |t|];
    assert OccursAt(a + b, t, |a| + k);
  }

  /** A substring of a substring is a substring. */
  lemma ContainsWithin(s: string, u: string, t: string)
    requires Contains(s, u) && Contains(u, t)
    ensures Contains(s, t)
  {
    var k: nat :| k <= |s| && OccursAt(s, u, k);
    var j: nat :| j <= |u| && OccursAt(u, t, j);
    assert k + |u| <= |s| && j + |t| <= |u|;
    forall m | 0 <= m < |t| ensures s[k + j + m] == t[m] {
      assert s[k..k + |u|][j + m] == u[j + m];
      assert u[j..j + |t|][m] == u[j + m];
    }
    assert s[k + j..k + j + |t|] == t;
    assert OccursAt(s, t, k + j);
  }

  /** A template literal: its pieces concatenated in order. */
  function Concat(pieces: seq<string>): string {
    if pieces == [] then "" else pieces[0] + Concat(pieces[1..])
  }

  lemma {:induction false} ConcatContainsPieces(pieces: seq<string>)
    ensures forall i :: 0 <= i < |pieces| ==> Contains(Concat(pieces), pieces[i])
  {
    if pieces != [] {
      var rest := Concat(pieces[1..]);
      assert Concat(pieces) == pieces[0] + rest;
      ConcatContainsPieces(pieces[1..]);
      forall i | 0 <= i < |pieces| ensures Contains(pieces[0] + rest, pieces[i]) {
        if i == 0 {
          assert OccursAt(pieces[0] + rest, pieces[0], 0);
        } else {
          assert Contains(rest, pieces[1..][i - 1]);
          ContainsRight(pieces[0], rest, pieces[i]);
        }
      }
    }
  }

  /** Splitting off the last piece. */
  lemma {:induction false} ConcatSnoc(pieces: seq<string>)
    requires pieces != []
    ensures Concat(pieces) == Concat(pieces[..|pieces| - 1]) + pieces[|pieces| - 1]
  {
    if |pieces| > 1 {
      ConcatSnoc(pieces[1..]);
      assert pieces[1..][..|pieces| - 2] == pieces[..|pieces| - 1][1..];
    } else {
      assert pieces[..0] == [];
    }
  }

  predicate IsDigit(c: char) {
    '0' <= c <= '9'
  }

  function DigitChar(d: nat): (c: char)
    requires d < 10
    ensures IsDigit(c) && c as int - '0' as int == d
  {
    ('0' as int + d) as char
  }

  /** `${n}` for a non-negative integer: its decimal digits, without leading zeros. */
  function NatToString(n: nat): (s: string)
    ensures |s| >= 1
    ensures forall i :: 0 <= i < |s| ==> IsDigit(s[i])
    ensures s[0] == '0' <==> n == 0
    ensures n < 10 <==> |s| == 1
  {
    if n < 10 then [DigitChar(n)] else NatToString(n / 10) + [DigitChar(n % 10)]
  }

  /** The number a string of decimal digits denotes. */
  function DigitsValue(s: string): nat
    requires forall i :: 0 <= i < |s| ==> IsDigit(s[i])
  {
    if s == [] then 0
    else
      assert IsDigit(s[|s| - 1]);
      DigitsValue(s[..|s| - 1]) * 10 + (s[|s| - 1] as int - '0' as int)
  }

  /** Reading the digits back gives the number printed. */
  lemma {:induction false} NatToStringRoundTrip(n: nat)
    ensures DigitsValue(NatToString(n)) == n
  {
    if n >= 10 {
      NatToStringRoundTrip(n / 10);
      var s := NatToString(n);
      assert s[..|s| - 1] == NatToString(n / 10);
    }
  }

  /** `parts.join(sep)`. */
  function Join(parts: seq<string>, sep: string): (r: string)
    ensures parts == [] ==> r == ""
    ensures |parts| == 1 ==> r == parts[0]
    ensures forall i :: 0 <= i < |parts| ==> Contains(r, parts[i])
  {
    if |parts| == 0 then ""
    else if |parts| == 1 then
      ContainsMiddle("", parts[0], "");
      assert "" + parts[0] + "" == parts[0];
      parts[0]
    else
      var tail := Join(parts[1..], sep);
      ContainsMiddle("", parts[0], sep + tail);
      assert "" + parts[0] + (sep + tail) == parts[0] + sep + tail;
      forall i | 1 <= i < |parts| ensures Contains(parts[0] + sep + tail, parts[i]) {
        assert parts[1..][i - 1] == parts[i];
        ContainsRight(parts[0] + sep, tail, parts[i]);
      }
      parts[0] + sep + tail
  }

  /** Appending a part adds the separator and that part at the end: the parts appear in order, one separator between neighbours. */
  lemma {:induction false} JoinSnoc(a: seq<string>, x: string, sep: string)
    requires a != []
    ensures Join(a + [x], sep) == Join(a, sep) + sep + x
  {
    if |a| == 1 {
      assert a + [x] == [a[0], x];
      assert [a[0], x][1..] == [x];
    } else {
      assert (a + [x])[1..] == a[1..] + [x];
      JoinSnoc(a[1..], x, sep);
      assert Join(a + [x], sep) == a[0] + sep + (Join(a[1..], sep) + sep + x);
    }
  }

  /**
   * The characters `trimEnd` removes: ECMAScript's WhiteSpace (tab, vertical
   * tab, form feed, space, no-break space, the byte order mark and the Unicode
   * space separators) and LineTerminator code points.
   */
  predicate IsWhiteSpace(c: char) {
    c in {'\t', '\n', '\U{B}', '\U{C}', '\r', ' ', '\U{A0}', '\U{1680}',
          '\U{2000}', '\U{2001}', '\U{2002}', '\U{2003}', '\U{2004}', '\U{2005}',
          '\U{2006}', '\U{2007}', '\U{2008}', '\U{2009}', '\U{200A}',
          '\U{2028}', '\U{2029}', '\U{202F}', '\U{205F}', '\U{3000}', '\U{FEFF}'}
  }

  /** `s.trimEnd()`: the longest prefix of `s` that does not end in white space. */
  function TrimEnd(s: string): (r: string)
    ensures r <= s
    ensures r == [] || !IsWhiteSpace(r[|r| - 1])
    ensures forall i :: |r| <= i < |s| ==> IsWhiteSpace(s[i])
  {
    if s != [] && IsWhiteSpace(s[|s| - 1]) then TrimEnd(s[..|s| - 1]) else s
  }
}
