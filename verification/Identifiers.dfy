/** Addresses and hashes: `0x` and a fixed number of hex digits, kept in lower case. */
module Identifiers {
  import opened Results

  /** unicode.IsSpace. */
  predicate IsSpace(c: char)
  {
    || '\t' <= c <= '\r' || c == ' ' || c == '\U{85}' || c == '\U{A0}' || c == '\U{1680}'
    || '\U{2000}' <= c <= '\U{200A}' || c == '\U{2028}' || c == '\U{2029}' || c == '\U{202F}'
    || c == '\U{205F}' || c == '\U{3000}'
  }

  function TrimLeft(s: string): string {
    if s != [] && IsSpace(s[0]) then TrimLeft(s[1..]) else s
  }

  function TrimRight(s: string): string {
    if s != [] && IsSpace(s[|s| - 1]) then TrimRight(s[..|s| - 1]) else s
  }

  function TrimSpace(s: string): string {
    TrimRight(TrimLeft(s))
  }

  predicate LowerHex(c: char) {
    '0' <= c <= '9' || 'a' <= c <= 'f'
  }

  predicate HexDigit(c: char) {
    LowerHex(c) || 'A' <= c <= 'F'
  }

  function Lower(c: char): char {
    if 'A' <= c <= 'Z' then c - 'A' + 'a' else c
  }

  function ToLower(s: string): (r: string)
    ensures |r| == |s|
  {
    seq(|s|, i requires 0 <= i < |s| => Lower(s[i]))
  }

  /** ^0x[0-9a-fA-F]{n}$ */
  predicate Hex(s: string, n: nat)
  {
    |s| == n + 2 && s[0] == '0' && s[1] == 'x' && forall i :: 2 <= i < |s| ==> HexDigit(s[i])
  }

  /** ^0x[0-9a-f]{n}$, the format the tables demand. */
  predicate CanonicalHex(s: string, n: nat)
  {
    |s| == n + 2 && s[0] == '0' && s[1] == 'x' && forall i :: 2 <= i < |s| ==> LowerHex(s[i])
  }

  function Parse(s: string, n: nat): Option<string>
  {
    if Hex(TrimSpace(s), n) then Some(ToLower(TrimSpace(s))) else None
  }

  function ParseAddress(s: string): Option<string> { Parse(s, 40) }

  function ParseHash(s: string): Option<string> { Parse(s, 64) }

  // ---- Two ways of writing one thing ----

  /** One character, or the two cases of one letter. */
  predicate SameLetter(c: char, d: char)
  {
    c == d || ('a' <= c <= 'z' && d == c - 'a' + 'A') || ('A' <= c <= 'Z' && d == c - 'A' + 'a')
  }

  predicate CaseVariant(a: string, b: string)
  {
    |a| == |b| && forall i :: 0 <= i < |a| ==> SameLetter(a[i], b[i])
  }

  predicate Spaces(s: string) {
    forall c <- s :: IsSpace(c)
  }

  ghost predicate Padded(s: string, core: string)
  {
    exists left, right :: Spaces(left) && Spaces(right) && s == left + core + right
  }

  /** What a caller may vary without naming another address: letter case and surrounding space. */
  ghost predicate SameWriting(a: string, b: string)
  {
    exists x, y :: Padded(a, x) && Padded(b, y) && CaseVariant(x, y)
  }

  lemma {:induction false} TrimsNothing(s: string)
    requires forall c <- s :: !IsSpace(c)
    ensures TrimSpace(s) == s
  {
    assert s != [] ==> s[0] in s && s[|s| - 1] in s;
  }

  /** Parsing yields the stored format and is idempotent. */
  lemma ParseIsCanonical(s: string, n: nat)
    requires Parse(s, n).Some?
    ensures CanonicalHex(Parse(s, n).value, n)
    ensures Parse(Parse(s, n).value, n) == Parse(s, n)
  {
    var r := Parse(s, n).value;
    assert forall i :: 0 <= i < |r| ==> r[i] == Lower(TrimSpace(s)[i]);
    TrimsNothing(r);
    assert ToLower(r) == r;
  }

  /** Among texts that parse, two give the same result exactly when they differ in case and padding only. */
  lemma ParseForgetsWriting(a: string, b: string, n: nat)
    requires Parse(a, n).Some? && Parse(b, n).Some?
    ensures Parse(a, n) == Parse(b, n) <==> SameWriting(a, b)
  {
    hide Padded, CaseVariant, TrimSpace;
    if Parse(a, n) == Parse(b, n) {
      LowerForgetsCase(TrimSpace(a), TrimSpace(b));
      TrimSpaceUnpads(a);
      TrimSpaceUnpads(b);
    }
    if SameWriting(a, b) {
      var x, y :| Padded(a, x) && Padded(b, y) && CaseVariant(x, y);
      TrimOfPadded(a, x);
      TrimOfPadded(b, y);
      TrimKeepsCase(x, y);
      LowerForgetsCase(TrimSpace(x), TrimSpace(y));
    }
  }

  /** Padding never decides whether a text parses, and letter case only in the `x` of the prefix. */
  lemma WritingIsIgnored(a: string, b: string, n: nat)
    requires SameWriting(a, b)
    ensures |TrimSpace(a)| == |TrimSpace(b)|
    ensures Parse(a, n) == Parse(b, n) || (|TrimSpace(a)| >= 2 && TrimSpace(a)[1] != TrimSpace(b)[1])
  {
    hide TrimSpace;
    var x, y :| Padded(a, x) && Padded(b, y) && CaseVariant(x, y);
    TrimOfPadded(a, x);
    TrimOfPadded(b, y);
    TrimKeepsCase(x, y);
    LowerForgetsCase(TrimSpace(x), TrimSpace(y));
    var u, v := TrimSpace(a), TrimSpace(b);
    if Hex(u, n) || Hex(v, n) {
      assert SameLetter(u[0], v[0]);
      assert forall i :: 2 <= i < |u| ==> SameLetter(u[i], v[i]);
    }
  }

  /** Any white space around a text parses as if it were not there. */
  lemma PaddingIsIgnored(left: string, s: string, right: string, n: nat)
    requires Spaces(left) && Spaces(right)
    ensures Parse(left + s + right, n) == Parse(s, n)
  {
    TrimPadding(left, s, right);
  }

  lemma LowerForgetsCase(a: string, b: string)
    ensures ToLower(a) == ToLower(b) <==> CaseVariant(a, b)
  {
    if ToLower(a) == ToLower(b) {
      forall i | 0 <= i < |a|
        ensures SameLetter(a[i], b[i])
      {
        assert ToLower(a)[i] == ToLower(b)[i];
      }
    }
  }

  lemma TrimOfPadded(s: string, core: string)
    requires Padded(s, core)
    ensures TrimSpace(s) == TrimSpace(core)
  {
    var left, right :| Spaces(left) && Spaces(right) && s == left + core + right;
    TrimPadding(left, core, right);
  }

  lemma {:induction false} TrimLeftUnpads(s: string)
    ensures exists left :: Spaces(left) && s == left + TrimLeft(s)
  {
    if s != [] && IsSpace(s[0]) {
      TrimLeftUnpads(s[1..]);
      var left :| Spaces(left) && s[1..] == left + TrimLeft(s[1..]);
      assert Spaces([s[0]] + left) && s == [s[0]] + left + TrimLeft(s);
    } else {
      assert Spaces([]) && s == [] + TrimLeft(s);
    }
  }

  lemma {:induction false} TrimRightUnpads(s: string)
    ensures exists right :: Spaces(right) && s == TrimRight(s) + right
  {
    if s != [] && IsSpace(s[|s| - 1]) {
      var n := |s| - 1;
      TrimRightUnpads(s[..n]);
      var right :| Spaces(right) && s[..n] == TrimRight(s[..n]) + right;
      assert Spaces(right + [s[n]]) && s == TrimRight(s) + (right + [s[n]]);
    } else {
      assert Spaces([]) && s == TrimRight(s) + [];
    }
  }

  lemma TrimSpaceUnpads(s: string)
    ensures Padded(s, TrimSpace(s))
  {
    hide TrimLeft, TrimRight;
    TrimLeftUnpads(s);
    TrimRightUnpads(TrimLeft(s));
    var left :| Spaces(left) && s == left + TrimLeft(s);
    var right :| Spaces(right) && TrimLeft(s) == TrimRight(TrimLeft(s)) + right;
    assert s == left + TrimSpace(s) + right;
  }

  lemma {:induction false} TrimLeftKeepsCase(x: string, y: string)
    requires CaseVariant(x, y)
    ensures CaseVariant(TrimLeft(x), TrimLeft(y))
  {
    if x != [] {
      assert SameLetter(x[0], y[0]);
      TrimLeftKeepsCase(x[1..], y[1..]);
    }
  }

  lemma {:induction false} TrimRightKeepsCase(x: string, y: string)
    requires CaseVariant(x, y)
    ensures CaseVariant(TrimRight(x), TrimRight(y))
  {
    if x != [] {
      var n := |x| - 1;
      assert SameLetter(x[n], y[n]);
      TrimRightKeepsCase(x[..n], y[..n]);
    }
  }

  lemma TrimKeepsCase(x: string, y: string)
    requires CaseVariant(x, y)
    ensures CaseVariant(TrimSpace(x), TrimSpace(y))
  {
    TrimLeftKeepsCase(x, y);
    TrimRightKeepsCase(TrimLeft(x), TrimLeft(y));
  }

  lemma {:induction false} TrimPadding(left: string, s: string, right: string)
    requires Spaces(left) && Spaces(right)
    ensures TrimSpace(left + s + right) == TrimSpace(s)
  {
    TrimLeftPadding(left, s + right);
    assert left + s + right == left + (s + right);
    TrimLeftOf(s, right);
    TrimRightPadding(TrimLeft(s), right);
  }

  lemma {:induction false} TrimLeftPadding(left: string, s: string)
    requires Spaces(left)
    ensures TrimLeft(left + s) == TrimLeft(s)
  {
    if left == [] {
      assert left + s == s;
    } else {
      assert (left + s)[1..] == left[1..] + s;
      TrimLeftPadding(left[1..], s);
    }
  }

  lemma {:induction false} TrimRightPadding(s: string, right: string)
    requires Spaces(right)
    ensures TrimRight(s + right) == TrimRight(s)
  {
    if right == [] {
      assert s + right == s;
    } else {
      var n := |right| - 1;
      assert (s + right)[..|s + right| - 1] == s + right[..n];
      TrimRightPadding(s, right[..n]);
    }
  }

  /** Trimming the left end of padded text: either the text keeps something, or only padding is left. */
  lemma {:induction false} TrimLeftOf(s: string, right: string)
    requires Spaces(right)
    ensures TrimRight(TrimLeft(s + right)) == TrimRight(TrimLeft(s) + right)
  {
    if s == [] {
      assert s + right == right;
      TrimLeftPadding(right, []);
      assert right + [] == right;
      TrimRightPadding([], right);
      assert [] + right == right;
    } else if IsSpace(s[0]) {
      assert (s + right)[1..] == s[1..] + right;
      TrimLeftOf(s[1..], right);
    }
  }

  // ---- Which texts parse, and to what, spelled out ----

  const WHITE_SPACE: string :=
    "\t\n\U{B}\U{C}\r \U{85}\U{A0}\U{1680}\U{2000}\U{2001}\U{2002}\U{2003}\U{2004}\U{2005}\U{2006}\U{2007}"
    + "\U{2008}\U{2009}\U{200A}\U{2028}\U{2029}\U{202F}\U{205F}\U{3000}"

  const DIGITS: string := "0123456789abcdef"

  const CAPITALS: string := "0123456789ABCDEF"

  lemma SpaceIsSpelled(c: char)
    ensures IsSpace(c) <==> c in WHITE_SPACE
  {
    var a := "\t\n\U{B}\U{C}\r \U{85}\U{A0}\U{1680}\U{2000}\U{2001}\U{2002}\U{2003}\U{2004}\U{2005}\U{2006}\U{2007}";
    var b := "\U{2008}\U{2009}\U{200A}\U{2028}\U{2029}\U{202F}\U{205F}\U{3000}";
    assert c in WHITE_SPACE <==> c in a || c in b;
  }

  /** Character c writes digit d: as it is, or as its capital. */
  predicate WritesDigit(c: char, d: char)
  {
    exists k :: 0 <= k < 16 && d == DIGITS[k] && (c == DIGITS[k] || c == CAPITALS[k])
  }

  lemma DigitIsSpelled(c: char, d: char)
    ensures WritesDigit(c, d) <==> HexDigit(c) && d == Lower(c)
  {
    if HexDigit(c) && d == Lower(c) {
      var k := if '0' <= c <= '9' then (c - '0') as int else if 'a' <= c <= 'f' then (c - 'a') as int + 10
               else (c - 'A') as int + 10;
      assert d == DIGITS[k] && (c == DIGITS[k] || c == CAPITALS[k]);
    }
  }

  /** The text is v, written with or without capitals behind its `0x` and with white space around it. */
  ghost predicate WritesHex(s: string, v: string, n: nat)
  {
    && |v| == n + 2 && v[0] == '0' && v[1] == 'x'
    && exists core ::
         && Padded(s, core) && |core| == n + 2 && core[0] == '0' && core[1] == 'x'
         && forall i :: 2 <= i < n + 2 ==> WritesDigit(core[i], v[i])
  }

  /** Exactly these texts parse, and to exactly these values. */
  lemma ParseIsExact(s: string, n: nat, v: string)
    ensures Parse(s, n) == Some(v) <==> WritesHex(s, v, n)
  {
    hide Padded, TrimSpace, WritesDigit, HexDigit, Lower;
    if Parse(s, n) == Some(v) {
      var core := TrimSpace(s);
      TrimSpaceUnpads(s);
      LowerOfPrefix();
      forall i | 2 <= i < n + 2
        ensures WritesDigit(core[i], v[i])
      {
        DigitIsSpelled(core[i], v[i]);
      }
    }
    if WritesHex(s, v, n) {
      var core :| Padded(s, core) && |core| == n + 2 && core[0] == '0' && core[1] == 'x'
                  && forall i :: 2 <= i < n + 2 ==> WritesDigit(core[i], v[i]);
      forall i | 2 <= i < n + 2
        ensures HexDigit(core[i]) && v[i] == Lower(core[i])
      {
        DigitIsSpelled(core[i], v[i]);
      }
      TrimOfPadded(s, core);
      HexHasNoSpace(core, n);
      TrimsNothing(core);
      LowerOfPrefix();
      assert ToLower(core) == v;
    }
  }

  lemma LowerOfPrefix()
    ensures Lower('0') == '0' && Lower('x') == 'x'
  {
  }

  lemma HexHasNoSpace(core: string, n: nat)
    requires Hex(core, n)
    ensures forall c <- core :: !IsSpace(c)
  {
    forall c | c in core
      ensures !IsSpace(c)
    {
      var i :| 0 <= i < |core| && core[i] == c;
      assert i < 2 || HexDigit(core[i]);
    }
  }

  /** Addresses have forty digits, hashes sixty-four. */
  lemma AddressesAndHashes(s: string, v: string)
    ensures ParseAddress(s) == Some(v) <==> WritesHex(s, v, 40)
    ensures ParseHash(s) == Some(v) <==> WritesHex(s, v, 64)
  {
    hide WritesHex, Parse;
    ParseIsExact(s, 40, v);
    ParseIsExact(s, 64, v);
  }
}
