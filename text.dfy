/** The JavaScript string operations the screens use: `trim`, `toLowerCase`,
    `includes` and the relational operators on strings. */
module Text {

  /** The characters `String.prototype.trim` removes: WhiteSpace (TAB, VT,
      FF, ZWNBSP and the Zs category) and LineTerminator (LF, CR, LS, PS). */
  predicate IsSpace(c: char) {
    || c == '\t' || c == '\n' || c == '\U{000B}' || c == '\U{000C}' || c == '\r'
    || c == ' ' || c == '\U{00A0}' || c == '\U{1680}'
    || ('\U{2000}' <= c <= '\U{200A}')
    || c == '\U{2028}' || c == '\U{2029}' || c == '\U{202F}' || c == '\U{205F}'
    || c == '\U{3000}' || c == '\U{FEFF}'
  }

  /** Every character is white space (the empty string included). */
  predicate IsBlank(s: string) {
    forall i :: 0 <= i < |s| ==> IsSpace(s[i])
  }

  /** Drops leading white space: what is left is empty or does not start
      with white space. */
  function TrimStart(s: string): (r: string)
    ensures |r| <= |s|
    ensures r == [] || !IsSpace(r[0])
  {
    if s != [] && IsSpace(s[0]) then TrimStart(s[1..]) else s
  }

  /** Drops trailing white space. */
  function TrimEnd(s: string): (r: string)
    ensures |r| <= |s|
    ensures r == [] || !IsSpace(r[|r| - 1])
  {
    if s != [] && IsSpace(s[|s| - 1]) then TrimEnd(s[..|s| - 1]) else s
  }

  /** `s.trim()`: `s` without its blank prefix and its blank suffix; it is
      empty exactly when `s` is blank. */
  function Trim(s: string): (r: string)
    ensures |r| <= |s|
    ensures r == [] <==> IsBlank(s)
    ensures r != [] ==> !IsSpace(r[0]) && !IsSpace(r[|r| - 1])
    ensures exists p, q :: s == p + r + q && IsBlank(p) && IsBlank(q)
  {
    TrimFacts(s);
    TrimEnd(TrimStart(s))
  }

  lemma TrimFacts(s: string)
    ensures TrimEnd(TrimStart(s)) == [] <==> IsBlank(s)
    ensures TrimEnd(TrimStart(s)) != [] ==> !IsSpace(TrimEnd(TrimStart(s))[0])
    ensures exists p, q :: s == p + TrimEnd(TrimStart(s)) + q && IsBlank(p) && IsBlank(q)
  {
    var t := TrimStart(s);
    var r := TrimEnd(t);
    var p := LeadingBlank(s);
    var q := TrailingBlank(t);
    assert s == p + r + q by {
      assert s == p + (r + q);
    }
    if r == [] {
      assert s == p + q;
      BlankConcat(p, q);
    } else {
      assert r[0] == t[0];
      assert s[|p|] == r[0];
    }
  }

  /** `TrimStart` drops a blank prefix. */
  lemma {:induction false} LeadingBlank(s: string) returns (p: string)
    ensures s == p + TrimStart(s) && IsBlank(p)
  {
    if s != [] && IsSpace(s[0]) {
      var rest := LeadingBlank(s[1..]);
      p := [s[0]] + rest;
      assert s == [s[0]] + s[1..];
    } else {
      p := [];
    }
  }

  /** `TrimEnd` drops a blank suffix. */
  lemma {:induction false} TrailingBlank(t: string) returns (q: string)
    ensures t == TrimEnd(t) + q && IsBlank(q)
  {
    if t != [] && IsSpace(t[|t| - 1]) {
      var rest := TrailingBlank(t[..|t| - 1]);
      q := rest + [t[|t| - 1]];
      assert t == t[..|t| - 1] + [t[|t| - 1]];
    } else {
      q := [];
    }
  }

  lemma BlankConcat(a: string, b: string)
    ensures IsBlank(a + b) <==> IsBlank(a) && IsBlank(b)
  {
    if IsBlank(a + b) {
      forall i | 0 <= i < |a| ensures IsSpace(a[i]) {
        assert a[i] == (a + b)[i];
      }
      forall i | 0 <= i < |b| ensures IsSpace(b[i]) {
        assert b[i] == (a + b)[|a| + i];
      }
    }
  }

  /** ASCII case mapping; every other character is left as it is. */
  function LowerChar(c: char): (d: char)
    ensures !('A' <= d <= 'Z')
    ensures 'a' <= c <= 'z' ==> d == c
  {
    if 'A' <= c <= 'Z' then (c as int - 'A' as int + 'a' as int) as char else c
  }

  /** `s.toLowerCase()`, restricted to ASCII letters. */
  function ToLower(s: string): (r: string)
    ensures |r| == |s|
    ensures forall i :: 0 <= i < |r| ==> !('A' <= r[i] <= 'Z')
  {
    seq(|s|, i requires 0 <= i < |s| => LowerChar(s[i]))
  }

  /** `s.startsWith(t)`. */
  predicate StartsWith(s: string, t: string) {
    |t| <= |s| && s[..|t|] == t
  }

  /** `s.includes(t)`: `t` occurs in `s` at some position. */
  predicate Includes(s: string, t: string) {
    StartsWith(s, t) || (s != [] && Includes(s[1..], t))
  }

  /** `a < b` on strings: `a` is a proper prefix of `b`, or at the first
      position where they differ `a` has the smaller character. */
  predicate Lt(a: string, b: string) {
    if b == [] then false
    else if a == [] then true
    else if a[0] != b[0] then a[0] < b[0]
    else Lt(a[1..], b[1..])
  }

  /** `a <= b`, which JavaScript defines as `!(b < a)`. */
  predicate Le(a: string, b: string) {
    !Lt(b, a)
  }

  lemma {:induction false} LtIrreflexive(a: string)
    ensures !Lt(a, a)
  {
    if a != [] { LtIrreflexive(a[1..]); }
  }

  lemma {:induction false} LtTransitive(a: string, b: string, c: string)
    requires Lt(a, b) && Lt(b, c)
    ensures Lt(a, c)
  {
    if a != [] && a[0] == b[0] && b[0] == c[0] {
      LtTransitive(a[1..], b[1..], c[1..]);
    }
  }

  lemma {:induction false} LtTrichotomy(a: string, b: string)
    ensures Lt(a, b) || a == b || Lt(b, a)
  {
    if a != [] && b != [] && a[0] == b[0] {
      LtTrichotomy(a[1..], b[1..]);
      if a[1..] == b[1..] {
        assert a == [a[0]] + a[1..] && b == [b[0]] + b[1..];
      }
    }
  }

  /** Hence `<=` is a total order on strings. */
  lemma LeTotalOrder(a: string, b: string, c: string)
    ensures Le(a, a)
    ensures Le(a, b) || Le(b, a)
    ensures Le(a, b) && Le(b, a) ==> a == b
    ensures Le(a, b) && Le(b, c) ==> Le(a, c)
  {
    LtIrreflexive(a);
    LtTrichotomy(a, b);
    LtTrichotomy(a, c);
    if Lt(a, b) && Lt(b, a) { LtTransitive(a, b, a); }
    if Le(a, b) && Le(b, c) && Lt(c, a) {
      LtTrichotomy(b, c);
      LtTrichotomy(a, b);
      if Lt(a, b) { LtTransitive(c, a, b); }
      if Lt(b, c) { LtTransitive(b, c, a); }
    }
  }
}
