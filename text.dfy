/** String handling the handlers rely on: JavaScript's `String.prototype.trim`,
    and the comparison of names under the database collation
    (`utf8mb4_unicode_ci`, approximated by ASCII case folding). */
module Text {
  import opened Base

  /** The characters `trim` removes: ECMAScript WhiteSpace and LineTerminator. */
  predicate IsSpace(c: char)
  {
    || c == ' ' || c == '\t' || c == '\n' || c == '\r'
    || c == '\U{000B}' || c == '\U{000C}' || c == '\U{00A0}' || c == '\U{1680}'
    || ('\U{2000}' <= c <= '\U{200A}')
    || c == '\U{2028}' || c == '\U{2029}' || c == '\U{202F}' || c == '\U{205F}'
    || c == '\U{3000}' || c == '\U{FEFF}'
  }

  predicate AllSpace(s: string)
  {
    forall k :: 0 <= k < |s| ==> IsSpace(s[k])
  }

  /** Drops leading white space: the result does not start with white space. */
  function TrimStart(s: string): (r: string)
    ensures |r| <= |s|
    ensures r != [] ==> !IsSpace(r[0])
  {
    if s != [] && IsSpace(s[0]) then TrimStart(s[1..]) else s
  }

  /** What `TrimStart` keeps is a suffix of `s`, and what it cuts is all
      white space. */
  lemma {:induction false} TrimStartCutsSpace(s: string)
    ensures TrimStart(s) == s[|s| - |TrimStart(s)|..]
    ensures AllSpace(s[..|s| - |TrimStart(s)|])
  {
    if s != [] && IsSpace(s[0]) {
      TrimStartCutsSpace(s[1..]);
      var n := |s| - |TrimStart(s)|;
      assert s[1..][..n - 1] == s[1..n];
      assert forall k :: 1 <= k < n ==> s[..n][k] == s[1..][..n - 1][k - 1];
    }
  }

  /** Drops trailing white space: the result does not end with white space. */
  function TrimEnd(s: string): (r: string)
    ensures |r| <= |s|
    ensures r != [] ==> !IsSpace(r[|r| - 1])
  {
    if s != [] && IsSpace(s[|s| - 1]) then TrimEnd(s[..|s| - 1]) else s
  }

  /** What `TrimEnd` keeps is a prefix of `s`, and what it cuts is all white
      space. */
  lemma {:induction false} TrimEndCutsSpace(s: string)
    ensures TrimEnd(s) == s[..|TrimEnd(s)|]
    ensures AllSpace(s[|TrimEnd(s)|..])
  {
    if s != [] && IsSpace(s[|s| - 1]) {
      TrimEndCutsSpace(s[..|s| - 1]);
      var n := |TrimEnd(s)|;
      assert s[..|s| - 1][n..] == s[n..|s| - 1];
      assert forall k :: 0 <= k < |s| - 1 - n ==> s[n..][k] == s[..|s| - 1][n..][k];
    }
  }

  /** `s.trim()`. */
  function Trim(s: string): (r: string)
    ensures |r| <= |s|
    ensures r != [] ==> !IsSpace(r[0]) && !IsSpace(r[|r| - 1])
  {
    TrimEndCutsSpace(TrimStart(s));
    TrimEnd(TrimStart(s))
  }

  /** A trimmed string is empty exactly when the string is all white space,
      which is when `!s.trim()` holds in JavaScript. */
  lemma {:induction false} TrimEmptyIffAllSpace(s: string)
    ensures Trim(s) == [] <==> AllSpace(s)
  {
    var t := TrimStart(s);
    TrimStartCutsSpace(s);
    TrimEndCutsSpace(t);
    if t == [] {
      assert s[..|s|] == s;
    } else {
      assert t[0..] == t;
      assert t[0] == s[|s| - |t|];
    }
  }

  /** Trimming twice changes nothing more than trimming once. */
  lemma TrimIdempotent(s: string)
    ensures Trim(Trim(s)) == Trim(s)
  {
    var r := Trim(s);
    if r != [] {
      assert TrimStart(r) == r;
      assert TrimEnd(r) == r;
    }
  }

  /** JavaScript's `x?.trim()` is truthy: a given string that is not blank. */
  predicate Present(x: Input<string>)
  {
    x.Given? && Trim(x.value) != []
  }

  /** ASCII case folding, the part of the case-insensitive collation modelled. */
  function FoldChar(c: char): char
  {
    if 'A' <= c <= 'Z' then (c as int + 32) as char else c
  }

  function Fold(s: string): (r: string)
    ensures |r| == |s|
  {
    if s == [] then [] else [FoldChar(s[0])] + Fold(s[1..])
  }

  /** Equality of two names under the collation: what a `UNIQUE` index and a
      `WHERE name = ?` compare with. */
  predicate SameName(a: string, b: string)
  {
    Fold(a) == Fold(b)
  }

  /** Lexicographic order on sequences of integers, a prefix first. */
  predicate LexLe(a: seq<int>, b: seq<int>)
  {
    a == [] || (b != [] && (a[0] < b[0] || (a[0] == b[0] && LexLe(a[1..], b[1..]))))
  }

  /** The code points of `s`. */
  function CodePoints(s: string): (p: seq<int>)
    ensures |p| == |s| && forall i :: 0 <= i < |s| ==> p[i] == s[i] as int
  {
    seq(|s|, i requires 0 <= i < |s| => s[i] as int)
  }

  lemma CodePointsInjective(a: string, b: string)
    requires CodePoints(a) == CodePoints(b)
    ensures a == b
  {
    assert forall i :: 0 <= i < |a| ==> a[i] as int == b[i] as int;
  }

  /** `ORDER BY name ASC` under the collation. */
  predicate NameLe(a: string, b: string)
  {
    LexLe(CodePoints(Fold(a)), CodePoints(Fold(b)))
  }

  lemma {:induction false} LexLeTotal(a: seq<int>, b: seq<int>)
    ensures LexLe(a, b) || LexLe(b, a)
  {
    if a != [] && b != [] && a[0] == b[0] {
      LexLeTotal(a[1..], b[1..]);
    }
  }

  lemma {:induction false} LexLeTransitive(a: seq<int>, b: seq<int>, c: seq<int>)
    requires LexLe(a, b) && LexLe(b, c)
    ensures LexLe(a, c)
  {
    if a != [] && b != [] && c != [] && a[0] == b[0] == c[0] {
      LexLeTransitive(a[1..], b[1..], c[1..]);
    }
  }

  lemma {:induction false} LexLeAntisymmetric(a: seq<int>, b: seq<int>)
    requires LexLe(a, b) && LexLe(b, a)
    ensures a == b
  {
    if a != [] && b != [] {
      LexLeAntisymmetric(a[1..], b[1..]);
      assert a == [a[0]] + a[1..];
      assert b == [b[0]] + b[1..];
    }
  }

  /** The name order is a total preorder; two names it cannot tell apart are
      the same name under the collation. */
  lemma NameOrder()
    ensures forall a, b :: NameLe(a, b) || NameLe(b, a)
    ensures forall a, b, c :: NameLe(a, b) && NameLe(b, c) ==> NameLe(a, c)
    ensures forall a, b :: NameLe(a, b) && NameLe(b, a) ==> SameName(a, b)
  {
    forall a, b ensures NameLe(a, b) || NameLe(b, a) {
      LexLeTotal(CodePoints(Fold(a)), CodePoints(Fold(b)));
    }
    forall a, b, c | NameLe(a, b) && NameLe(b, c) ensures NameLe(a, c) {
      LexLeTransitive(CodePoints(Fold(a)), CodePoints(Fold(b)), CodePoints(Fold(c)));
    }
    forall a, b | NameLe(a, b) && NameLe(b, a) ensures SameName(a, b) {
      LexLeAntisymmetric(CodePoints(Fold(a)), CodePoints(Fold(b)));
      CodePointsInjective(Fold(a), Fold(b));
    }
  }

  // JavaScript strings

  /** The UTF-16 code units of one character: itself below U+10000, its
      surrogate pair (a high surrogate in D800-DBFF, then a low one in
      DC00-DFFF) above. */
  function Units(c: char): (u: seq<int>)
    ensures c as int < 0x10000 ==> u == [c as int]
    ensures c as int >= 0x10000 ==>
              && |u| == 2
              && 0xD800 <= u[0] < 0xDC00 && 0xDC00 <= u[1] < 0xE000
              && c as int == 0x10000 + (u[0] - 0xD800) * 0x400 + (u[1] - 0xDC00)
  {
    var v := c as int;
    if v < 0x10000 then [v]
    else [0xD800 + (v - 0x10000) / 0x400, 0xDC00 + (v - 0x10000) % 0x400]
  }

  /** A string as JavaScript holds it: its sequence of UTF-16 code units. */
  function Utf16(s: string): (u: seq<int>)
    ensures s == [] <==> u == []
    ensures s != [] ==> u == Units(s[0]) + Utf16(s[1..])
  {
    if s == [] then [] else Units(s[0]) + Utf16(s[1..])
  }

  /** The first code unit decides how many units the character takes, so
      two encodings that agree start with the same character and go on
      with the same rest. */
  lemma UnitsPrefixFree(c: char, d: char, s: seq<int>, t: seq<int>)
    requires Units(c) + s == Units(d) + t
    ensures c == d && s == t
  {
    var u, w := Units(c) + s, Units(d) + t;
    assert u[0] == Units(c)[0] && w[0] == Units(d)[0];
    if c as int >= 0x10000 && d as int >= 0x10000 {
      assert u[1] == Units(c)[1] && w[1] == Units(d)[1];
      assert c as int == d as int;
    }
    assert Units(c) == Units(d);
    assert s == u[|Units(c)|..] && t == w[|Units(d)|..];
  }

  /** Different strings have different UTF-16 encodings. */
  lemma {:induction false} Utf16Injective(a: string, b: string)
    requires Utf16(a) == Utf16(b)
    ensures a == b
  {
    if a != [] && b != [] {
      UnitsPrefixFree(a[0], b[0], Utf16(a[1..]), Utf16(b[1..]));
      Utf16Injective(a[1..], b[1..]);
      assert a == [a[0]] + a[1..] && b == [b[0]] + b[1..];
    }
  }

  /** JavaScript's `a <= b` on two strings: their code units compared
      lexicographically. */
  predicate JsLe(a: string, b: string)
  {
    LexLe(Utf16(a), Utf16(b))
  }

  /** The string order is total, transitive and antisymmetric. */
  lemma JsOrder()
    ensures forall a, b :: JsLe(a, b) || JsLe(b, a)
    ensures forall a, b, c :: JsLe(a, b) && JsLe(b, c) ==> JsLe(a, c)
    ensures forall a, b :: JsLe(a, b) && JsLe(b, a) ==> a == b
  {
    forall a, b ensures JsLe(a, b) || JsLe(b, a) {
      LexLeTotal(Utf16(a), Utf16(b));
    }
    forall a, b, c | JsLe(a, b) && JsLe(b, c) ensures JsLe(a, c) {
      LexLeTransitive(Utf16(a), Utf16(b), Utf16(c));
    }
    forall a, b | JsLe(a, b) && JsLe(b, a) ensures a == b {
      LexLeAntisymmetric(Utf16(a), Utf16(b));
      Utf16Injective(a, b);
    }
  }
}
